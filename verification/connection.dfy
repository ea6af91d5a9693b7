/** The connection state the client-key-exchange phase reads and writes, and
    the external primitives it calls. Cryptography, randomness, key derivation
    and the resumption cache are not modelled: they are the total functions of
    a `Primitives` record that every operation takes as a parameter. */
module Connection {
  import opened Bytes
  import opened Errors
  import opened Stuffers
  import Versions

  /** The key-exchange methods a hybrid may name (one classical, one KEM). */
  datatype SubKex = Dhe | Ecdhe | Kem

  /** The negotiated key-exchange method; a hybrid names exactly two
      non-hybrid methods, run in the declared order. */
  datatype Kex = Rsa | Single(sub: SubKex) | Hybrid(first: SubKex, second: SubKex)

  /** State of the asynchronous private-key operation of this handshake. */
  datatype AsyncState = NotInvoked | InvokedWaiting | InvokedComplete

  /** An RSA decryption handed to the asynchronous signer: the ciphertext and the
      buffer the decryption starts from (the random fallback pre-master). */
  datatype PendingDecrypt = PendingDecrypt(ciphertext: seq<uint8>, buffer: PremasterSecret)

  /** Ephemeral key-exchange parameters; only their identity matters here. */
  datatype EphemeralParams = EphemeralParams(id: nat)

  /** The server's long-term public key; `size` is its ciphertext size in bytes. */
  datatype PublicKey = PublicKey(size: uint32, id: nat)

  /** KEM parameters: the key material and the shared-secret slot the KEM
      primitives write into. */
  datatype KemParams = KemParams(keys: Option<EphemeralParams>, sharedSecret: seq<uint8>)

  /** KEM parameters after they have been freed. */
  const ReleasedKem: KemParams := KemParams(None, [])

  /** A view of `size` bytes of the handshake buffer starting at `start`. */
  datatype Span = Span(start: nat, size: nat)

  /** Which buffer a key-exchange method is asked to leave its shared secret in:
      a blob local to the caller, or the connection's KEM shared-secret slot. */
  datatype KeyHandle = LocalKey | KemSharedSecretSlot

  /** Observable steps, recorded in order, used to state sequencing properties. */
  datatype Event =
    | SubMethodRan(sub: SubKex)
    | PrfStep
    | ZeroSecret
    | FreeSecret
    | KeyExpansion
    | CacheStore

  datatype Conn = Conn(
    actualProtocolVersion: uint8,
    clientProtocolVersion: uint8,
    clientHelloVersion: uint8,
    kex: Kex,
    io: Stuffer,
    asyncPkeyCallback: bool,          // the configuration delegates private-key operations
    asyncState: AsyncState,
    pendingDecrypt: Option<PendingDecrypt>,
    rsaPremaster: PremasterSecret,
    rsaFailed: bool,
    serverPublicKey: Option<PublicKey>,
    serverDhParams: Option<EphemeralParams>,
    serverEccParams: Option<EphemeralParams>,
    kemParams: KemParams,
    clientKeyExchangeMessage: Span,
    cachingAllowed: bool,             // the resumption policy permits caching this connection
    masterSecret: seq<uint8>,
    keyBlock: seq<uint8>,
    trace: seq<Event>
  )

  /** Result of a (EC)DH computation: the shared secret and the buffer after the
      peer's public value was read from it or ours was written to it. */
  datatype Computed = Computed(secret: seq<uint8>, io: Stuffer)

  /** Result of a KEM step: the parameters (holding the shared secret) and the buffer. */
  datatype KemStep = KemStep(params: KemParams, io: Stuffer)

  /** What an RSA decryption leaves behind: whether it failed and the contents of
      the output buffer it was given. */
  datatype DecryptOutcome = DecryptOutcome(failed: bool, output: seq<uint8>)

  datatype Primitives = Primitives(
    dhServer: (Option<EphemeralParams>, Stuffer) -> Result<Computed>,
    dhClient: (Option<EphemeralParams>, Stuffer) -> Result<Computed>,
    eccServer: (Option<EphemeralParams>, Stuffer) -> Result<Computed>,
    eccClient: (Option<EphemeralParams>, Stuffer) -> Result<Computed>,
    kemRecv: (KemParams, Stuffer) -> Result<KemStep>,
    kemSend: (KemParams, Stuffer) -> Result<KemStep>,
    rsaDecrypt: (seq<uint8>, PremasterSecret) -> DecryptOutcome,
    rsaEncrypt: (PublicKey, PremasterSecret) -> Result<seq<uint8>>,
    prf: (Conn, seq<uint8>) -> Result<seq<uint8>>,
    keyExpansion: Conn -> Result<seq<uint8>>,
    cacheStore: Conn -> Outcome
  )

  /** The legacy client version of this connection's hello. */
  function HelloVersion(conn: Conn): uint8 {
    Versions.ClientHelloProtocolVersion(conn.clientHelloVersion, conn.clientProtocolVersion)
  }

  /** The version pair expected at the front of this connection's pre-master:
      that of the version inside an SSLv2-format hello, else of the hello's own. */
  function ExpectedVersionPair(conn: Conn): (p: seq<uint8>)
    ensures |p| == Versions.PROTOCOL_VERSION_LEN
    ensures p[0] <= 25 && p[1] <= 9
    ensures conn.clientHelloVersion == Versions.SSLv2 ==> Versions.PairVersion(p) == conn.clientProtocolVersion
    ensures conn.clientHelloVersion != Versions.SSLv2 ==> Versions.PairVersion(p) == conn.clientHelloVersion
  {
    Versions.VersionPair(HelloVersion(conn))
  }
}
