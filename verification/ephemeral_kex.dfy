/** The non-RSA key-exchange methods (DHE, ECDHE, KEM) as the client key
    exchange binds them: each runs its primitive on the handshake buffer and
    releases the ephemeral parameters it consumed. */
module EphemeralKex {
  import opened Bytes
  import opened Errors
  import opened Stuffers
  import opened Connection

  /** Receiving (server role) or sending (client role). */
  datatype Direction = Receive | Send

  /** A method's result: the connection and the contents of the key buffer it was handed. */
  datatype KeyDone = KeyDone(conn: Conn, secret: seq<uint8>)

  /** The connection fields no non-RSA method may touch are unchanged. */
  predicate KeepsNonEphemeral(before: Conn, after: Conn) {
    after == before.(io := after.io, serverDhParams := after.serverDhParams,
                     serverEccParams := after.serverEccParams, kemParams := after.kemParams)
  }

  /** Leaves `secret` in the buffer named by `handle`. */
  function Deliver(conn: Conn, handle: KeyHandle, secret: seq<uint8>): (r: KeyDone)
    ensures r.secret == secret
    ensures handle == KemSharedSecretSlot ==> r.conn.kemParams.sharedSecret == secret
    ensures handle == KemSharedSecretSlot ==> r.conn.kemParams.keys == conn.kemParams.keys
    ensures handle == LocalKey ==> r.conn == conn
    ensures KeepsNonEphemeral(conn, r.conn) && r.conn.io == conn.io
  {
    match handle
    case LocalKey => KeyDone(conn, secret)
    case KemSharedSecretSlot => KeyDone(conn.(kemParams := conn.kemParams.(sharedSecret := secret)), secret)
  }

  /** Diffie-Hellman: compute the shared secret against the server parameters
      (reading the client's public value, or writing ours), then free them. */
  function DheClientKey(conn: Conn, dir: Direction, handle: KeyHandle, prims: Primitives): (r: Result<KeyDone>)
    ensures var computed := (if dir == Receive then prims.dhServer else prims.dhClient)(conn.serverDhParams, conn.io);
            && (r.Err? <==> computed.Err?)
            && (r.Err? ==> r.error == computed.error)
            && (r.Ok? ==> r.value.secret == computed.value.secret && r.value.conn.io == computed.value.io)
    ensures r.Ok? ==> r.value.conn.serverDhParams == None
    ensures r.Ok? ==> r.value.conn.serverEccParams == conn.serverEccParams
    ensures r.Ok? && handle == LocalKey ==> r.value.conn.kemParams == conn.kemParams
    ensures r.Ok? ==> KeepsNonEphemeral(conn, r.value.conn)
  {
    var computed :- (if dir == Receive then prims.dhServer else prims.dhClient)(conn.serverDhParams, conn.io);
    Ok(Deliver(conn.(io := computed.io, serverDhParams := None), handle, computed.secret))
  }

  /** Elliptic-curve Diffie-Hellman: as `DheClientKey`, on the server's curve parameters. */
  function EcdheClientKey(conn: Conn, dir: Direction, handle: KeyHandle, prims: Primitives): (r: Result<KeyDone>)
    ensures var computed := (if dir == Receive then prims.eccServer else prims.eccClient)(conn.serverEccParams, conn.io);
            && (r.Err? <==> computed.Err?)
            && (r.Err? ==> r.error == computed.error)
            && (r.Ok? ==> r.value.secret == computed.value.secret && r.value.conn.io == computed.value.io)
    ensures r.Ok? ==> r.value.conn.serverEccParams == None
    ensures r.Ok? ==> r.value.conn.serverDhParams == conn.serverDhParams
    ensures r.Ok? && handle == LocalKey ==> r.value.conn.kemParams == conn.kemParams
    ensures r.Ok? ==> KeepsNonEphemeral(conn, r.value.conn)
  {
    var computed :- (if dir == Receive then prims.eccServer else prims.eccClient)(conn.serverEccParams, conn.io);
    Ok(Deliver(conn.(io := computed.io, serverEccParams := None), handle, computed.secret))
  }

  /** KEM: the primitive always writes the shared secret into the connection's KEM
      slot, so the caller must hand over that very slot; any other buffer is a
      safety fault and the primitive is not run. */
  function KemClientKey(conn: Conn, dir: Direction, handle: KeyHandle, prims: Primitives): (r: Result<KeyDone>)
    ensures handle != KemSharedSecretSlot ==> r == Err(Safety)
    ensures handle == KemSharedSecretSlot ==>
              var step := (if dir == Receive then prims.kemRecv else prims.kemSend)(conn.kemParams, conn.io);
              && (r.Err? <==> step.Err?)
              && (r.Err? ==> r.error == step.error)
              && (r.Ok? ==> r.value.conn.kemParams == step.value.params && r.value.conn.io == step.value.io)
    ensures r.Ok? ==> r.value.secret == r.value.conn.kemParams.sharedSecret
    ensures r.Ok? ==> r.value.conn.serverDhParams == conn.serverDhParams
    ensures r.Ok? ==> r.value.conn.serverEccParams == conn.serverEccParams
    ensures r.Ok? ==> KeepsNonEphemeral(conn, r.value.conn)
  {
    if handle != KemSharedSecretSlot then Err(Safety)
    else
      var step :- (if dir == Receive then prims.kemRecv else prims.kemSend)(conn.kemParams, conn.io);
      Ok(KeyDone(conn.(kemParams := step.params, io := step.io), step.params.sharedSecret))
  }

  /** Runs one non-RSA method and records that it ran. */
  function SubMethodClientKey(m: SubKex, conn: Conn, dir: Direction, handle: KeyHandle, prims: Primitives): (r: Result<KeyDone>)
    ensures m == Kem && handle == LocalKey ==> r == Err(Safety)
    ensures r.Ok? ==> r.value.conn.trace == conn.trace + [SubMethodRan(m)]
    ensures r.Ok? && handle == KemSharedSecretSlot ==> r.value.secret == r.value.conn.kemParams.sharedSecret
    ensures r.Ok? ==> KeepsNonEphemeral(conn.(trace := r.value.conn.trace), r.value.conn)
    ensures r.Ok? && m == Dhe ==> r.value.conn.serverDhParams == None
    ensures r.Ok? && m == Ecdhe ==> r.value.conn.serverEccParams == None
    ensures r.Ok? && m != Dhe ==> r.value.conn.serverDhParams == conn.serverDhParams
    ensures r.Ok? && handle == LocalKey ==> r.value.conn.kemParams == conn.kemParams
    ensures r.Ok? && m != Ecdhe ==> r.value.conn.serverEccParams == conn.serverEccParams
    ensures m == Dhe ==>
              var c := (if dir == Receive then prims.dhServer else prims.dhClient)(conn.serverDhParams, conn.io);
              && (c.Err? ==> r == Err(c.error))
              && (c.Ok? ==> r.Ok? && r.value.secret == c.value.secret && r.value.conn.io == c.value.io)
    ensures m == Ecdhe ==>
              var c := (if dir == Receive then prims.eccServer else prims.eccClient)(conn.serverEccParams, conn.io);
              && (c.Err? ==> r == Err(c.error))
              && (c.Ok? ==> r.Ok? && r.value.secret == c.value.secret && r.value.conn.io == c.value.io)
    ensures m == Kem && handle == KemSharedSecretSlot ==>
              var k := (if dir == Receive then prims.kemRecv else prims.kemSend)(conn.kemParams, conn.io);
              && (k.Err? ==> r == Err(k.error))
              && (k.Ok? ==> r.Ok? && r.value.conn.kemParams == k.value.params && r.value.conn.io == k.value.io)
  {
    var done :- match m
                case Dhe => DheClientKey(conn, dir, handle, prims)
                case Ecdhe => EcdheClientKey(conn, dir, handle, prims)
                case Kem => KemClientKey(conn, dir, handle, prims);
    Ok(done.(conn := done.conn.(trace := done.conn.trace + [SubMethodRan(m)])))
  }

  /** Ephemeral parameters are single-use: once a DHE exchange has consumed the
      server parameters, a second one on the same connection fails, as long as
      the primitive refuses absent parameters. */
  lemma DheParamsNotReused(conn: Conn, dir: Direction, handle: KeyHandle, prims: Primitives)
    requires forall io: Stuffer :: prims.dhServer(None, io).Err? && prims.dhClient(None, io).Err?
    requires DheClientKey(conn, dir, handle, prims).Ok?
    ensures DheClientKey(DheClientKey(conn, dir, handle, prims).value.conn, dir, handle, prims).Err?
  {
  }
}
