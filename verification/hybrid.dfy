/** The hybrid combiner: a classical method and a KEM run in declared order on
    one handshake buffer; their secrets are concatenated and the wire bytes of
    both sub-messages are remembered for the hybrid key derivation. */
module HybridKex {
  import opened Bytes
  import opened Errors
  import opened Stuffers
  import opened Connection
  import opened EphemeralKex

  /** The cursor the direction advances: read cursor when receiving, write cursor when sending. */
  function Cursor(io: Stuffer, dir: Direction): nat {
    if dir == Receive then io.readCursor else WriteCursor(io)
  }

  /** Runs `first` into a local key and `second` into the KEM slot, records the
      span between the cursor before and after both as the client key exchange
      message, concatenates the secrets and frees the KEM parameters. An end
      cursor before the start cursor is a safety fault. */
  function HybridClientAction(conn: Conn, first: SubKex, second: SubKex, dir: Direction, prims: Primitives): (r: Result<KeyDone>)
    ensures SubMethodClientKey(first, conn, dir, LocalKey, prims).Err? ==>
              r == Err(SubMethodClientKey(first, conn, dir, LocalKey, prims).error)
    ensures first == Kem ==> r == Err(Safety)
    ensures var a := SubMethodClientKey(first, conn, dir, LocalKey, prims);
            a.Ok? ==>
              var b := SubMethodClientKey(second, a.value.conn, dir, KemSharedSecretSlot, prims);
              && (b.Err? ==> r == Err(b.error))
              && (r.Ok? ==> b.Ok? && r.value.secret == a.value.secret + b.value.secret)
              && (r.Ok? ==> r.value.conn.io == b.value.conn.io)
    ensures r.Ok? ==> r.value.conn.trace == conn.trace + [SubMethodRan(first), SubMethodRan(second)]
    ensures r.Ok? ==> r.value.conn.clientKeyExchangeMessage.start == Cursor(conn.io, dir)
    ensures r.Ok? ==> r.value.conn.clientKeyExchangeMessage.start + r.value.conn.clientKeyExchangeMessage.size
                      == Cursor(r.value.conn.io, dir)
    ensures r.Ok? ==> r.value.conn.kemParams == ReleasedKem
    ensures r.Ok? ==> r.value.conn.rsaPremaster == conn.rsaPremaster && r.value.conn.rsaFailed == conn.rsaFailed
    ensures r.Ok? && Dhe in {first, second} ==> r.value.conn.serverDhParams == None
    ensures r.Ok? && Dhe !in {first, second} ==> r.value.conn.serverDhParams == conn.serverDhParams
    ensures r.Ok? && Ecdhe !in {first, second} ==> r.value.conn.serverEccParams == conn.serverEccParams
    ensures r.Ok? ==>
              KeepsNonEphemeral(conn.(trace := r.value.conn.trace,
                                      clientKeyExchangeMessage := r.value.conn.clientKeyExchangeMessage),
                                r.value.conn)
    ensures r.Ok? && Ecdhe in {first, second} ==> r.value.conn.serverEccParams == None
  {
    var start := Cursor(conn.io, dir);
    var a :- SubMethodClientKey(first, conn, dir, LocalKey, prims);
    var b :- SubMethodClientKey(second, a.conn, dir, KemSharedSecretSlot, prims);
    var end := Cursor(b.conn.io, dir);
    if end < start then Err(Safety)
    else
      var combined := a.secret + b.conn.kemParams.sharedSecret;
      Ok(KeyDone(b.conn.(clientKeyExchangeMessage := Span(start, end - start), kemParams := ReleasedKem), combined))
  }

  /** Given what the two sub-methods produce, the combiner succeeds exactly when the
      cursor did not move backwards, and then its secret is the first secret
      followed by the second and its message span runs from the old cursor to the new. */
  lemma HybridCombines(conn: Conn, first: SubKex, second: SubKex, dir: Direction, prims: Primitives, a: KeyDone, b: KeyDone)
    requires SubMethodClientKey(first, conn, dir, LocalKey, prims) == Ok(a)
    requires SubMethodClientKey(second, a.conn, dir, KemSharedSecretSlot, prims) == Ok(b)
    ensures var r := HybridClientAction(conn, first, second, dir, prims);
            && (r.Ok? <==> Cursor(b.conn.io, dir) >= Cursor(conn.io, dir))
            && (r.Err? ==> r.error == Safety)
            && (r.Ok? ==> r.value.secret == a.secret + b.secret)
            && (r.Ok? ==> |r.value.secret| == |a.secret| + |b.secret|)
            && (r.Ok? ==> r.value.conn.clientKeyExchangeMessage
                          == Span(Cursor(conn.io, dir), Cursor(b.conn.io, dir) - Cursor(conn.io, dir)))
            && (r.Ok? ==> r.value.conn.io == b.conn.io)
  {
  }

  /** Receiving: when each sub-method only moves the read cursor forward, the
      recorded message is exactly the bytes the first read followed by the bytes
      the second read, with no gap or overlap. */
  lemma HybridRecvSpanIsBothMessages(conn: Conn, first: SubKex, second: SubKex, prims: Primitives, a: KeyDone, b: KeyDone)
    requires SubMethodClientKey(first, conn, Receive, LocalKey, prims) == Ok(a)
    requires SubMethodClientKey(second, a.conn, Receive, KemSharedSecretSlot, prims) == Ok(b)
    requires a.conn.io.data == conn.io.data && b.conn.io.data == conn.io.data
    requires conn.io.readCursor <= a.conn.io.readCursor <= b.conn.io.readCursor
    ensures var r := HybridClientAction(conn, first, second, Receive, prims);
            var span := r.value.conn.clientKeyExchangeMessage;
            && r.Ok?
            && span.size == (a.conn.io.readCursor - conn.io.readCursor) + (b.conn.io.readCursor - a.conn.io.readCursor)
            && r.value.conn.io.data[span.start..span.start + span.size]
               == conn.io.data[conn.io.readCursor..a.conn.io.readCursor] + conn.io.data[a.conn.io.readCursor..b.conn.io.readCursor]
  {
  }

  /** Sending: when each sub-method only appends its message, the recorded message
      is exactly the first message followed by the second. */
  lemma HybridSendSpanIsBothMessages(conn: Conn, first: SubKex, second: SubKex, prims: Primitives,
                                     a: KeyDone, b: KeyDone, msg0: seq<uint8>, msg1: seq<uint8>)
    requires SubMethodClientKey(first, conn, Send, LocalKey, prims) == Ok(a)
    requires SubMethodClientKey(second, a.conn, Send, KemSharedSecretSlot, prims) == Ok(b)
    requires a.conn.io.data == conn.io.data + msg0
    requires b.conn.io.data == a.conn.io.data + msg1
    ensures var r := HybridClientAction(conn, first, second, Send, prims);
            var span := r.value.conn.clientKeyExchangeMessage;
            && r.Ok?
            && span.size == |msg0| + |msg1|
            && r.value.conn.io.data[span.start..span.start + span.size] == msg0 + msg1
  {
  }
}
