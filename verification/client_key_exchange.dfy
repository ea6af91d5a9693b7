/** The entry points the handshake driver calls: the server receives the client
    key exchange, the client sends it. Each resolves the negotiated method,
    obtains the raw shared secret and hands it to the key finalizer. */
module ClientKeyExchange {
  import opened Bytes
  import opened Errors
  import opened Stuffers
  import opened Connection
  import opened RsaKex
  import opened EphemeralKex
  import opened HybridKex
  import opened KeyFinalizer

  /** What the handshake driver sees: done (with the finalizer's steps), suspended
      on the asynchronous private-key operation (re-enter later), or failed. */
  datatype HandshakeStatus =
    | Completed(conn: Conn, steps: seq<Event>)
    | Suspended(conn: Conn)
    | Failed(error: ErrorKind)

  /** The raw shared secret of the negotiated method, or a suspension. */
  datatype KeyStep = KeyReady(conn: Conn, key: SharedKey) | KeyPending(conn: Conn)

  /** Where the negotiated method leaves its secret: RSA in the pre-master buffer,
      every other method in a buffer allocated for it. */
  function KeyFor(kex: Kex): SharedKey {
    if kex == Rsa then PremasterSlot else Allocated([])
  }

  /** Dispatch on the negotiated method. The caller's key buffer is a local one,
      so a plain KEM method fails its slot check; a hybrid hands the KEM its slot. */
  function KexClientKey(conn: Conn, dir: Direction, random: Result<PremasterSecret>, prims: Primitives): (r: Result<KeyStep>)
    requires dir == Send ==> EncryptFillsKey(prims.rsaEncrypt)
    ensures r.Ok? && r.value.KeyReady? ==> r.value.key.Allocated? == (conn.kex != Rsa)
    ensures r.Ok? && r.value.KeyPending? ==> conn.kex == Rsa && dir == Receive
    ensures r.Ok? ==> r.value.conn.cachingAllowed == conn.cachingAllowed
    ensures conn.kex == Rsa && dir == Receive ==>
              var recv := RsaClientKeyRecv(conn, random, prims);
              && (recv.Err? ==> r == Err(recv.error))
              && (recv.Ok? && recv.value.Done? ==> r == Ok(KeyReady(recv.value.conn, PremasterSlot)))
              && (recv.Ok? && recv.value.Blocked? ==> r == Ok(KeyPending(recv.value.conn)))
    ensures conn.kex == Rsa && dir == Send ==>
              var sent := RsaClientKeySend(conn, random, prims);
              && (sent.Err? ==> r == Err(sent.error))
              && (sent.Ok? ==> r == Ok(KeyReady(sent.value, PremasterSlot)))
    ensures conn.kex == Single(Dhe) ==>
              var c := (if dir == Receive then prims.dhServer else prims.dhClient)(conn.serverDhParams, conn.io);
              && (c.Err? ==> r == Err(c.error))
              && (c.Ok? ==> r.Ok? && r.value.key == Allocated(c.value.secret))
              && (c.Ok? ==> r.value.conn.io == c.value.io && r.value.conn.serverDhParams == None)
    ensures conn.kex == Single(Ecdhe) ==>
              var c := (if dir == Receive then prims.eccServer else prims.eccClient)(conn.serverEccParams, conn.io);
              && (c.Err? ==> r == Err(c.error))
              && (c.Ok? ==> r.Ok? && r.value.key == Allocated(c.value.secret))
              && (c.Ok? ==> r.value.conn.io == c.value.io && r.value.conn.serverEccParams == None)
    ensures conn.kex == Single(Kem) ==> r == Err(Safety)
    ensures conn.kex.Single? ==>
              var d := SubMethodClientKey(conn.kex.sub, conn, dir, LocalKey, prims);
              && (d.Err? ==> r == Err(d.error))
              && (d.Ok? ==> r == Ok(KeyReady(d.value.conn, Allocated(d.value.secret))))
    ensures conn.kex.Single? && r.Ok? ==>
              KeepsNonEphemeral(conn.(trace := r.value.conn.trace), r.value.conn)
              && r.value.conn.kemParams == conn.kemParams
              && (conn.kex.sub != Dhe ==> r.value.conn.serverDhParams == conn.serverDhParams)
              && (conn.kex.sub != Ecdhe ==> r.value.conn.serverEccParams == conn.serverEccParams)
    ensures conn.kex.Hybrid? ==>
              var h := HybridClientAction(conn, conn.kex.first, conn.kex.second, dir, prims);
              && (h.Err? ==> r == Err(h.error))
              && (h.Ok? ==> r == Ok(KeyReady(h.value.conn, Allocated(h.value.secret))))
    ensures conn.kex.Hybrid? && r.Ok? ==>
              && r.value.conn.clientKeyExchangeMessage.start == Cursor(conn.io, dir)
              && r.value.conn.trace == conn.trace + [SubMethodRan(conn.kex.first), SubMethodRan(conn.kex.second)]
              && (Dhe in {conn.kex.first, conn.kex.second} ==> r.value.conn.serverDhParams == None)
              && (Ecdhe in {conn.kex.first, conn.kex.second} ==> r.value.conn.serverEccParams == None)
  {
    match conn.kex
    case Rsa =>
      if dir == Receive then
        var step :- RsaClientKeyRecv(conn, random, prims);
        Ok(match step
           case Done(c) => KeyReady(c, PremasterSlot)
           case Blocked(c) => KeyPending(c))
      else
        var c :- RsaClientKeySend(conn, random, prims);
        Ok(KeyReady(c, PremasterSlot))
    case Single(m) =>
      var done :- SubMethodClientKey(m, conn, dir, LocalKey, prims);
      Ok(KeyReady(done.conn, Allocated(done.secret)))
    case Hybrid(first, second) =>
      var done :- HybridClientAction(conn, first, second, dir, prims);
      Ok(KeyReady(done.conn, Allocated(done.secret)))
  }

  /** Runs the finalizer on a ready key; passes suspension and failure through. */
  function Finish(step: Result<KeyStep>, prims: Primitives): (r: HandshakeStatus)
    ensures step.Err? ==> r == Failed(step.error)
    ensures step.Ok? && step.value.KeyPending? ==> r == Suspended(step.value.conn)
    ensures r.Completed? ==>
              && step.Ok? && step.value.KeyReady?
              && r.steps == FinalizerSteps(step.value.key, step.value.conn.cachingAllowed)
              && (step.value.key.PremasterSlot? ==> IsZero(r.conn.rsaPremaster))
              && r.conn.kemParams == step.value.conn.kemParams
    ensures step.Ok? && step.value.KeyReady? ==>
              var f := CalculateKeys(step.value.conn, step.value.key, prims);
              && (r.Completed? <==> f.outcome.Pass?)
              && (r.Failed? ==> r.error == f.outcome.error)
              && (r.Completed? ==> r.conn == f.conn && r.steps == f.steps)
  {
    match step
    case Err(e) => Failed(e)
    case Ok(KeyPending(c)) => Suspended(c)
    case Ok(KeyReady(c, key)) =>
      var f := CalculateKeys(c, key, prims);
      if f.outcome.Pass? then Completed(f.conn, f.steps) else Failed(f.outcome.error)
  }

  /** Server side: receive the client key exchange and derive the session keys. */
  function ClientKeyRecv(conn: Conn, random: Result<PremasterSecret>, prims: Primitives): (r: HandshakeStatus)
    ensures conn.kex == Rsa && conn.asyncState == InvokedWaiting ==> r == Suspended(conn)
    ensures conn.kex == Rsa && conn.asyncState == InvokedComplete ==>
              r == Finish(Ok(KeyReady(conn.(asyncState := NotInvoked), PremasterSlot)), prims)
    ensures r.Suspended? ==> conn.kex == Rsa && r.conn.asyncState == InvokedWaiting
    ensures conn.kex == Single(Kem) ==> r == Failed(Safety)
    ensures conn.kex.Hybrid? && conn.kex.first == Kem ==> r == Failed(Safety)
    ensures r.Completed? ==> r.steps == FinalizerSteps(KeyFor(conn.kex), conn.cachingAllowed)
    ensures r.Completed? && conn.kex == Rsa ==> IsZero(r.conn.rsaPremaster)
    ensures r.Completed? && conn.kex.Hybrid? ==> r.conn.kemParams == ReleasedKem
    ensures conn.kex == Single(Dhe) && prims.dhServer(conn.serverDhParams, conn.io).Err? ==>
              r == Failed(prims.dhServer(conn.serverDhParams, conn.io).error)
    ensures conn.kex == Single(Dhe) && r.Completed? ==>
              r.conn.io == prims.dhServer(conn.serverDhParams, conn.io).value.io && r.conn.serverDhParams == None
    ensures conn.kex == Single(Ecdhe) && prims.eccServer(conn.serverEccParams, conn.io).Err? ==>
              r == Failed(prims.eccServer(conn.serverEccParams, conn.io).error)
    ensures conn.kex == Single(Ecdhe) && r.Completed? ==>
              r.conn.io == prims.eccServer(conn.serverEccParams, conn.io).value.io && r.conn.serverEccParams == None
    ensures r.Completed? && conn.kex.Hybrid? ==> r.conn.clientKeyExchangeMessage.start == conn.io.readCursor
    ensures conn.kex == Rsa && conn.asyncState == NotInvoked &&
            ReadEncryptedPremaster(conn.actualProtocolVersion, conn.io).Err? ==>
              r == Failed(ReadEncryptedPremaster(conn.actualProtocolVersion, conn.io).error)
    ensures var k := KexClientKey(conn, Receive, random, prims);
            && (k.Err? ==> r == Failed(k.error))
            && (k.Ok? && k.value.KeyReady? ==>
                  var f := CalculateKeys(k.value.conn, k.value.key, prims);
                  && (r.Completed? <==> f.outcome.Pass?)
                  && (r.Failed? ==> r.error == f.outcome.error)
                  && (r.Completed? ==> r.conn == f.conn && r.steps == f.steps)
                  && (r.Completed? ==> r.conn.masterSecret == prims.prf(k.value.conn, SecretOf(k.value.conn, k.value.key)).value))
  {
    Finish(KexClientKey(conn, Receive, random, prims), prims)
  }

  /** Client side: send the client key exchange and derive the session keys. */
  function ClientKeySend(conn: Conn, random: Result<PremasterSecret>, prims: Primitives): (r: HandshakeStatus)
    requires EncryptFillsKey(prims.rsaEncrypt)
    ensures !r.Suspended?
    ensures conn.kex == Single(Kem) ==> r == Failed(Safety)
    ensures conn.kex.Hybrid? && conn.kex.first == Kem ==> r == Failed(Safety)
    ensures r.Completed? ==> r.steps == FinalizerSteps(KeyFor(conn.kex), conn.cachingAllowed)
    ensures r.Completed? && conn.kex == Rsa ==> IsZero(r.conn.rsaPremaster) && r.conn.serverPublicKey == None
    ensures r.Completed? && conn.kex.Hybrid? ==> r.conn.kemParams == ReleasedKem
    ensures conn.kex == Single(Dhe) && prims.dhClient(conn.serverDhParams, conn.io).Err? ==>
              r == Failed(prims.dhClient(conn.serverDhParams, conn.io).error)
    ensures conn.kex == Single(Dhe) && r.Completed? ==>
              r.conn.io == prims.dhClient(conn.serverDhParams, conn.io).value.io && r.conn.serverDhParams == None
    ensures conn.kex == Single(Ecdhe) && prims.eccClient(conn.serverEccParams, conn.io).Err? ==>
              r == Failed(prims.eccClient(conn.serverEccParams, conn.io).error)
    ensures conn.kex == Single(Ecdhe) && r.Completed? ==>
              r.conn.io == prims.eccClient(conn.serverEccParams, conn.io).value.io && r.conn.serverEccParams == None
    ensures r.Completed? && conn.kex.Hybrid? ==> r.conn.clientKeyExchangeMessage.start == WriteCursor(conn.io)
    ensures var k := KexClientKey(conn, Send, random, prims);
            && (k.Err? ==> r == Failed(k.error))
            && (k.Ok? && k.value.KeyReady? ==>
                  var f := CalculateKeys(k.value.conn, k.value.key, prims);
                  && (r.Completed? <==> f.outcome.Pass?)
                  && (r.Failed? ==> r.error == f.outcome.error)
                  && (r.Completed? ==> r.conn == f.conn && r.steps == f.steps)
                  && (r.Completed? ==> r.conn.masterSecret == prims.prf(k.value.conn, SecretOf(k.value.conn, k.value.key)).value))
  {
    Finish(KexClientKey(conn, Send, random, prims), prims)
  }

  /** With working finalizer collaborators, a server that receives a DHE client
      key exchange its DH primitive accepts completes the handshake step: the
      parameters are released, the master secret comes from the computed secret,
      and the finalizer ran every step. */
  lemma DheReceiveCompletes(conn: Conn, random: Result<PremasterSecret>, prims: Primitives)
    requires conn.kex == Single(Dhe)
    requires prims.dhServer(conn.serverDhParams, conn.io).Ok?
    requires FinalizerSucceeds(prims)
    ensures var r := ClientKeyRecv(conn, random, prims);
            var c := prims.dhServer(conn.serverDhParams, conn.io).value;
            var ran := conn.(io := c.io, serverDhParams := None, trace := conn.trace + [SubMethodRan(Dhe)]);
            && r.Completed?
            && r.conn.serverDhParams == None
            && r.steps == FinalizerSteps(Allocated([]), conn.cachingAllowed)
            && r.conn.masterSecret == prims.prf(ran, c.secret).value
  {
  }

  /** With working finalizer collaborators, a server that decrypts the client's
      RSA key exchange at once completes the step: the master secret comes from
      the pre-master the decryption produced, and that pre-master is zero afterwards. */
  lemma RsaReceiveCompletes(conn: Conn, random: Result<PremasterSecret>, prims: Primitives)
    requires conn.kex == Rsa && conn.asyncState == NotInvoked && !conn.asyncPkeyCallback
    requires RsaClientKeyRecv(conn, random, prims).Ok?
    requires FinalizerSucceeds(prims)
    ensures var r := ClientKeyRecv(conn, random, prims);
            var received := RsaClientKeyRecv(conn, random, prims).value.conn;
            && r.Completed?
            && r.steps == FinalizerSteps(PremasterSlot, conn.cachingAllowed)
            && r.conn.masterSecret == prims.prf(received, received.rsaPremaster).value
            && IsZero(r.conn.rsaPremaster)
            && r.conn.rsaFailed == received.rsaFailed
            && r.conn == received.(rsaPremaster := r.conn.rsaPremaster, masterSecret := r.conn.masterSecret,
                                   keyBlock := r.conn.keyBlock)
  {
  }

  /** With working finalizer collaborators, a client whose RSA encryption succeeds
      completes the step: the master secret comes from the pre-master it sent,
      which is zero afterwards, and the server key is released. */
  lemma RsaSendCompletes(conn: Conn, rnd: PremasterSecret, prims: Primitives)
    requires conn.kex == Rsa
    requires EncryptFillsKey(prims.rsaEncrypt)
    requires conn.serverPublicKey.Some? && conn.serverPublicKey.value.size <= 0xffff
    requires prims.rsaEncrypt(conn.serverPublicKey.value, Fallback(conn, rnd)).Ok?
    requires FinalizerSucceeds(prims)
    ensures var r := ClientKeySend(conn, Ok(rnd), prims);
            var sent := RsaClientKeySend(conn, Ok(rnd), prims).value;
            && r.Completed?
            && r.steps == FinalizerSteps(PremasterSlot, conn.cachingAllowed)
            && sent.rsaPremaster == Fallback(conn, rnd)
            && r.conn.masterSecret == prims.prf(sent, Fallback(conn, rnd)).value
            && IsZero(r.conn.rsaPremaster)
            && r.conn.serverPublicKey == None
  {
  }

  /** With working finalizer collaborators, a hybrid exchange whose combiner
      succeeds completes the step in either direction: the master secret comes
      from the combined secret, the first method's secret followed by the KEM's. */
  lemma HybridCompletes(conn: Conn, dir: Direction, random: Result<PremasterSecret>, prims: Primitives)
    requires conn.kex.Hybrid?
    requires dir == Send ==> EncryptFillsKey(prims.rsaEncrypt)
    requires HybridClientAction(conn, conn.kex.first, conn.kex.second, dir, prims).Ok?
    requires FinalizerSucceeds(prims)
    ensures var r := Finish(KexClientKey(conn, dir, random, prims), prims);
            var h := HybridClientAction(conn, conn.kex.first, conn.kex.second, dir, prims).value;
            && r.Completed?
            && r.steps == FinalizerSteps(Allocated([]), conn.cachingAllowed)
            && r.conn.masterSecret == prims.prf(h.conn, h.secret).value
            && r.conn.clientKeyExchangeMessage.start == Cursor(conn.io, dir)
            && r.conn.kemParams == ReleasedKem
  {
  }
}
