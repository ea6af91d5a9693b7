/** RSA client key exchange: the framing of the encrypted pre-master secret,
    the pre-master layout of section 7.4.7.1 of RFC 5246, the Bleichenbacher
    countermeasure on the receiving side, and the asynchronous decryption
    boundary that may suspend the receiving side. */
module RsaKex {
  import opened Bytes
  import opened Errors
  import opened Stuffers
  import opened Versions
  import opened Connection

  /** The encrypted pre-master taken from the handshake buffer, and the buffer after it. */
  datatype Parsed = Parsed(ciphertext: seq<uint8>, rest: Stuffer)

  /** Bytes in front of the ciphertext on the receiving side: none under SSLv3. */
  function RecvPrefixLen(actual: uint8): nat {
    if actual == SSLv3 then 0 else 2
  }

  /** The ciphertext length: a 16-bit prefix, or under SSLv3 everything that is
      left, truncated to 16 bits as the length variable is. */
  function DeclaredLength(actual: uint8, io: Stuffer): Result<U16Read> {
    if actual == SSLv3 then Ok(U16Read(Available(io) % 0x1_0000, io)) else ReadUint16(io)
  }

  /** Reads the encrypted pre-master secret from the client key exchange body. */
  function ReadEncryptedPremaster(actual: uint8, io: Stuffer): (r: Result<Parsed>)
    ensures actual == SSLv3 ==> (r.Ok? <==> Available(io) % 0x1_0000 != 0)
    ensures actual == SSLv3 && Available(io) % 0x1_0000 == 0 ==> r == Err(Safety)
    ensures actual == SSLv3 && r.Ok? ==>
              r.value.ciphertext == io.data[io.readCursor..io.readCursor + Available(io) % 0x1_0000]
    ensures actual != SSLv3 && Available(io) < 2 ==> r == Err(StufferOutOfData)
    ensures actual != SSLv3 && Available(io) >= 2 ==>
              var declared := FromBytes16(io.data[io.readCursor], io.data[io.readCursor + 1]);
              && (declared > Available(io) - 2 ==> r == Err(BadMessage))
              && (declared == 0 ==> r == Err(Safety))
              && (0 < declared <= Available(io) - 2 ==>
                    r.Ok? && r.value.ciphertext == io.data[io.readCursor + 2..io.readCursor + 2 + declared])
    ensures r.Ok? ==> 0 < |r.value.ciphertext| <= 0xffff
    ensures r.Ok? ==>
              r.value.rest == Stuffer(io.data, io.readCursor + RecvPrefixLen(actual) + |r.value.ciphertext|)
  {
    var declared :- DeclaredLength(actual, io);
    var length := declared.value;
    if length > Available(declared.rest) then Err(BadMessage)
    else
      match RawReadBytes(declared.rest, length)
      case None => Err(Null)
      case Some(read) =>
        if length == 0 then Err(Safety)
        else Ok(Parsed(read.bytes, read.rest))
  }

  /** What the sending side writes: a 16-bit length prefix for every version
      newer than SSLv3, then the ciphertext. */
  function EncryptedPremasterFrame(actual: uint8, ciphertext: seq<uint8>): seq<uint8>
    requires |ciphertext| <= 0xffff
  {
    (if actual > SSLv3 then ToBytes16(|ciphertext|) else []) + ciphertext
  }

  /** The receiving side reads back exactly the ciphertext the sending side framed,
      for SSLv3 and every later version, provided the ciphertext is not empty. */
  lemma FramingRoundTrip(actual: uint8, ciphertext: seq<uint8>, io: Stuffer)
    requires actual >= SSLv3
    requires 0 < |ciphertext| <= 0xffff
    requires Available(io) == 0
    ensures var sent := RawWrite(io, EncryptedPremasterFrame(actual, ciphertext));
            ReadEncryptedPremaster(actual, sent) == Ok(Parsed(ciphertext, Stuffer(sent.data, |sent.data|)))
  {
    var frame := EncryptedPremasterFrame(actual, ciphertext);
    var sent := RawWrite(io, frame);
    if actual == SSLv3 {
      assert sent.data[sent.readCursor..sent.readCursor + |ciphertext|] == ciphertext;
    } else {
      FromBytes16RoundTrip(sent.data[sent.readCursor], sent.data[sent.readCursor + 1]);
      assert sent.data[sent.readCursor + 2..sent.readCursor + 2 + |ciphertext|] == ciphertext;
    }
  }

  /** Under SSLv3 the remaining-bytes length wraps at 16 bits: with 65537 bytes
      left only the first one is taken as the ciphertext. */
  lemma Sslv3LengthWraps(io: Stuffer)
    requires Available(io) == 0x1_0001
    ensures ReadEncryptedPremaster(SSLv3, io).Ok?
    ensures ReadEncryptedPremaster(SSLv3, io).value.ciphertext == [io.data[io.readCursor]]
  {
  }

  /** A random buffer with its first two bytes replaced by the version pair. */
  function WithVersionPair(random: PremasterSecret, pair: seq<uint8>): (p: PremasterSecret)
    requires |pair| == PROTOCOL_VERSION_LEN
    ensures p[..2] == pair && p[2..] == random[2..]
  {
    pair + random[2..]
  }

  /** The boolean result of the library's constant-time comparison of `len` bytes. */
  function ConstantTimeEquals(a: seq<uint8>, b: seq<uint8>, len: nat): bool
    requires len <= |a| && len <= |b|
  {
    a[..len] == b[..len]
  }

  /** Completion of the RSA receipt, run once the decryption is over (directly, or
      when the asynchronous operation is applied). Only a wrong decrypted size is
      an error; a failed decryption or a wrong version pair only sets the flag. */
  function RsaClientKeyRecvComplete(conn: Conn, rsaFailed: bool, decrypted: seq<uint8>): (r: Result<Conn>)
    ensures r.Err? <==> |decrypted| != SECRET_LEN
    ensures r.Err? ==> r.error == SizeMismatch
    ensures r.Ok? ==> r.value.rsaPremaster == decrypted
    ensures r.Ok? ==> (r.value.rsaFailed <==> rsaFailed || decrypted[..2] != ExpectedVersionPair(conn))
    ensures r.Ok? ==> r.value == conn.(rsaPremaster := r.value.rsaPremaster, rsaFailed := r.value.rsaFailed)
  {
    if |decrypted| != SECRET_LEN then Err(SizeMismatch)
    else
      var premaster: PremasterSecret := decrypted;
      var versionMatches := ConstantTimeEquals(ExpectedVersionPair(conn), premaster, PROTOCOL_VERSION_LEN);
      Ok(conn.(rsaPremaster := premaster, rsaFailed := rsaFailed || !versionMatches))
  }

  /** The completion never aborts on content: with a well-sized output, whether the
      decryption failed changes nothing but the flag. */
  lemma ContentFailureOnlySetsFlag(conn: Conn, failedA: bool, failedB: bool, decrypted: seq<uint8>)
    requires |decrypted| == SECRET_LEN
    ensures RsaClientKeyRecvComplete(conn, failedA, decrypted).Ok?
    ensures RsaClientKeyRecvComplete(conn, failedB, decrypted).Ok?
    ensures RsaClientKeyRecvComplete(conn, failedA, decrypted).value.(rsaFailed := false)
         == RsaClientKeyRecvComplete(conn, failedB, decrypted).value.(rsaFailed := false)
  {
  }

  /** Outcome of the receiving side: finished, or suspended on the asynchronous
      private-key operation (to be re-entered later). */
  datatype RecvStep = Done(conn: Conn) | Blocked(conn: Conn)

  /** The fallback pre-master: random bytes led by the expected version pair. */
  function Fallback(conn: Conn, random: PremasterSecret): PremasterSecret {
    WithVersionPair(random, ExpectedVersionPair(conn))
  }

  /** The receiving side of the RSA key exchange. A pending asynchronous decryption
      blocks; a completed one finishes without touching the buffer again. Otherwise
      the ciphertext is read, the pre-master buffer is filled with the fallback,
      and the decryption runs now or is handed to the asynchronous signer. */
  function RsaClientKeyRecv(conn: Conn, random: Result<PremasterSecret>, prims: Primitives): (r: Result<RecvStep>)
    ensures conn.asyncState == InvokedWaiting ==> r == Ok(Blocked(conn))
    ensures conn.asyncState == InvokedComplete ==> r == Ok(Done(conn.(asyncState := NotInvoked)))
    ensures conn.asyncState == NotInvoked ==>
              var parsed := ReadEncryptedPremaster(conn.actualProtocolVersion, conn.io);
              && (parsed.Err? ==> r == Err(parsed.error))
              && (parsed.Ok? && random.Err? ==> r == Err(random.error))
              && (r.Ok? ==> parsed.Ok? && random.Ok? && r.value.conn.io == parsed.value.rest)
              && (r.Ok? && conn.asyncPkeyCallback ==>
                    && r.value.Blocked?
                    && r.value.conn.asyncState == InvokedWaiting
                    && r.value.conn.rsaPremaster[..2] == ExpectedVersionPair(conn)
                    && r.value.conn.rsaPremaster[2..] == random.value[2..]
                    && r.value.conn.pendingDecrypt
                       == Some(PendingDecrypt(parsed.value.ciphertext, r.value.conn.rsaPremaster)))
              && (parsed.Ok? && random.Ok? && !conn.asyncPkeyCallback ==>
                    var out := prims.rsaDecrypt(parsed.value.ciphertext, Fallback(conn, random.value));
                    && (r.Ok? <==> |out.output| == SECRET_LEN)
                    && (r.Err? ==> r.error == SizeMismatch)
                    && (r.Ok? ==> r.value.Done? && r.value.conn.rsaPremaster == out.output)
                    && (r.Ok? ==> (r.value.conn.rsaFailed <==>
                                     out.failed || out.output[..2] != ExpectedVersionPair(conn))))
    ensures r.Ok? ==>
              r.value.conn == conn.(io := r.value.conn.io, rsaPremaster := r.value.conn.rsaPremaster,
                                    rsaFailed := r.value.conn.rsaFailed, asyncState := r.value.conn.asyncState,
                                    pendingDecrypt := r.value.conn.pendingDecrypt)
    ensures r.Ok? && r.value.Done? ==> r.value.conn.asyncState == NotInvoked
  {
    match conn.asyncState
    case InvokedWaiting => Ok(Blocked(conn))
    case InvokedComplete => Ok(Done(conn.(asyncState := NotInvoked)))
    case NotInvoked =>
      var parsed :- ReadEncryptedPremaster(conn.actualProtocolVersion, conn.io);
      var rnd :- random;
      var fallback := Fallback(conn, rnd);
      var started := conn.(io := parsed.rest, rsaPremaster := fallback);
      if conn.asyncPkeyCallback then
        Ok(Blocked(started.(asyncState := InvokedWaiting,
                            pendingDecrypt := Some(PendingDecrypt(parsed.ciphertext, fallback)))))
      else
        var out := prims.rsaDecrypt(parsed.ciphertext, fallback);
        var completed :- RsaClientKeyRecvComplete(started, out.failed, out.output);
        Ok(Done(completed))
  }

  /** The asynchronous signer finishing the pending decryption: the completion
      runs on its output and the operation is marked complete, ready for re-entry. */
  function ApplyAsyncDecrypt(conn: Conn, prims: Primitives): (r: Result<Conn>)
    requires conn.asyncState == InvokedWaiting && conn.pendingDecrypt.Some?
    ensures var op := conn.pendingDecrypt.value;
            var out := prims.rsaDecrypt(op.ciphertext, op.buffer);
            && (r.Err? <==> |out.output| != SECRET_LEN)
            && (r.Ok? ==> r.value.asyncState == InvokedComplete && r.value.pendingDecrypt == None)
            && (r.Ok? ==> r.value.rsaPremaster == out.output)
            && (r.Ok? ==> (r.value.rsaFailed <==> out.failed || out.output[..2] != ExpectedVersionPair(conn)))
  {
    var op := conn.pendingDecrypt.value;
    var out := prims.rsaDecrypt(op.ciphertext, op.buffer);
    var completed :- RsaClientKeyRecvComplete(conn, out.failed, out.output);
    Ok(completed.(asyncState := InvokedComplete, pendingDecrypt := None))
  }

  /** Suspending on the asynchronous signer, applying its result and re-entering
      ends in the same connection state as decrypting directly: the completion
      runs exactly once either way, on the same ciphertext and fallback buffer. */
  lemma AsyncAgreesWithSync(conn: Conn, random: Result<PremasterSecret>, later: Result<PremasterSecret>, prims: Primitives)
    requires conn.asyncState == NotInvoked && conn.pendingDecrypt == None
    ensures var direct := RsaClientKeyRecv(conn.(asyncPkeyCallback := false), random, prims);
            var first := RsaClientKeyRecv(conn.(asyncPkeyCallback := true), random, prims);
            && (first.Ok? ==> first.value.Blocked?)
            && (first.Err? ==> direct == Err(first.error))
            && (first.Ok? ==>
                  var applied := ApplyAsyncDecrypt(first.value.conn, prims);
                  && (applied.Err? ==> direct == Err(applied.error))
                  && (applied.Ok? ==>
                        direct.Ok? &&
                        RsaClientKeyRecv(applied.value, later, prims)
                        == Ok(Done(direct.value.conn.(asyncPkeyCallback := true)))))
  {
  }

  /** A ciphertext whose decryption fails and leaves the fallback in place is
      accepted: the handshake goes on with the fallback secret, and only the flag
      records the failure. */
  lemma FailedDecryptUsesFallback(conn: Conn, rnd: PremasterSecret, prims: Primitives)
    requires conn.asyncState == NotInvoked && !conn.asyncPkeyCallback
    requires ReadEncryptedPremaster(conn.actualProtocolVersion, conn.io).Ok?
    requires var ct := ReadEncryptedPremaster(conn.actualProtocolVersion, conn.io).value.ciphertext;
             prims.rsaDecrypt(ct, Fallback(conn, rnd)) == DecryptOutcome(true, Fallback(conn, rnd))
    ensures RsaClientKeyRecv(conn, Ok(rnd), prims).Ok?
    ensures var c := RsaClientKeyRecv(conn, Ok(rnd), prims).value.conn;
            c.rsaFailed && c.rsaPremaster == Fallback(conn, rnd) && c.rsaPremaster[..2] == ExpectedVersionPair(conn)
  {
  }

  /** The encryption primitive fills a buffer of exactly the key's size. */
  ghost predicate EncryptFillsKey(encrypt: (PublicKey, PremasterSecret) -> Result<seq<uint8>>) {
    forall key: PublicKey, m: PremasterSecret :: encrypt(key, m).Ok? ==> |encrypt(key, m).value| == key.size
  }

  /** The sending side of the RSA key exchange: a fresh pre-master led by the
      version pair, encrypted under the server key and framed into the buffer;
      the server key is released afterwards. */
  function RsaClientKeySend(conn: Conn, random: Result<PremasterSecret>, prims: Primitives): (r: Result<Conn>)
    requires EncryptFillsKey(prims.rsaEncrypt)
    ensures random.Err? ==> r == Err(random.error)
    ensures random.Ok? && conn.serverPublicKey.None? ==> r == Err(Null)
    ensures random.Ok? && conn.serverPublicKey.Some? && conn.serverPublicKey.value.size > 0xffff ==>
              r == Err(SizeMismatch)
    ensures r.Ok? ==> random.Ok? && conn.serverPublicKey.Some? && conn.serverPublicKey.value.size <= 0xffff
    ensures random.Ok? && conn.serverPublicKey.Some? && conn.serverPublicKey.value.size <= 0xffff ==>
              var ct := prims.rsaEncrypt(conn.serverPublicKey.value, Fallback(conn, random.value));
              && (ct.Err? ==> r == Err(ct.error))
              && (ct.Ok? ==> r.Ok? && r.value.rsaPremaster == Fallback(conn, random.value))
    ensures r.Ok? ==> r.value.rsaPremaster[..2] == ExpectedVersionPair(conn)
    ensures r.Ok? ==> r.value.rsaPremaster[2..] == random.value[2..]
    ensures r.Ok? ==>
              var key := conn.serverPublicKey.value;
              var ct := prims.rsaEncrypt(key, r.value.rsaPremaster);
              && ct.Ok? && |ct.value| == key.size
              && r.value.io.data == conn.io.data + EncryptedPremasterFrame(conn.actualProtocolVersion, ct.value)
    ensures r.Ok? ==> r.value.io.readCursor == conn.io.readCursor
    ensures r.Ok? ==> r.value.serverPublicKey == None
    ensures r.Ok? ==> r.value == conn.(rsaPremaster := r.value.rsaPremaster, io := r.value.io, serverPublicKey := None)
  {
    var rnd :- random;
    var premaster := Fallback(conn, rnd);
    var key :- if conn.serverPublicKey.Some? then Ok(conn.serverPublicKey.value) else Err(Null);
    if key.size > 0xffff then Err(SizeMismatch)
    else
      var prefixed := if conn.actualProtocolVersion > SSLv3 then WriteUint16(conn.io, key.size) else conn.io;
      var ciphertext :- prims.rsaEncrypt(key, premaster);
      Ok(conn.(rsaPremaster := premaster, io := RawWrite(prefixed, ciphertext), serverPublicKey := None))
  }

  /** The encryption and decryption primitives form a working key pair for `key`. */
  ghost predicate DecryptsWhatIsEncrypted(prims: Primitives, key: PublicKey) {
    forall m: PremasterSecret, buffer: PremasterSecret ::
      prims.rsaEncrypt(key, m).Ok? ==>
        prims.rsaDecrypt(prims.rsaEncrypt(key, m).value, buffer) == DecryptOutcome(false, m)
  }

  /** A client and a server that agree on the hello version and the protocol
      version end the RSA exchange with the same pre-master and no failure flag,
      when the server reads what the client wrote with a working key pair. */
  lemma SendRecvAgree(client: Conn, server: Conn, random: Result<PremasterSecret>, serverRandom: PremasterSecret, prims: Primitives)
    requires EncryptFillsKey(prims.rsaEncrypt)
    requires RsaClientKeySend(client, random, prims).Ok?
    requires client.serverPublicKey.Some? && client.serverPublicKey.value.size > 0
    requires DecryptsWhatIsEncrypted(prims, client.serverPublicKey.value)
    requires server.actualProtocolVersion == client.actualProtocolVersion >= SSLv3
    requires HelloVersion(server) == HelloVersion(client)
    requires server.asyncState == NotInvoked && !server.asyncPkeyCallback
    requires var sent := RsaClientKeySend(client, random, prims).value;
             server.io == Stuffer(sent.io.data[|client.io.data|..], 0)
    ensures var sent := RsaClientKeySend(client, random, prims).value;
            var received := RsaClientKeyRecv(server, Ok(serverRandom), prims);
            && received.Ok? && received.value.Done?
            && received.value.conn.rsaPremaster == sent.rsaPremaster
            && !received.value.conn.rsaFailed
  {
    var sent := RsaClientKeySend(client, random, prims).value;
    var key := client.serverPublicKey.value;
    var ct := prims.rsaEncrypt(key, sent.rsaPremaster).value;
    FramingRoundTrip(client.actualProtocolVersion, ct, Stuffer([], 0));
    assert ReadEncryptedPremaster(server.actualProtocolVersion, server.io).value.ciphertext == ct;
  }
}
