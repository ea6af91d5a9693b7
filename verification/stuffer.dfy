/** The handshake I/O buffer ("stuffer"): bytes written so far plus a read
    cursor. The write cursor is the end of the written data; writes append,
    as the handshake buffer grows on demand. */
module Stuffers {
  import opened Bytes
  import opened Errors

  datatype RawStuffer = Stuffer(data: seq<uint8>, readCursor: nat)

  /** A stuffer whose read cursor never passes its write cursor. */
  type Stuffer = s: RawStuffer | s.readCursor <= |s.data| witness Stuffer([], 0)

  function WriteCursor(s: Stuffer): nat {
    |s.data|
  }

  /** Bytes written but not yet read. */
  function Available(s: Stuffer): nat {
    |s.data| - s.readCursor
  }

  datatype U16Read = U16Read(value: uint16, rest: Stuffer)

  /** Reads a network-order 16-bit value. */
  function ReadUint16(s: Stuffer): (r: Result<U16Read>)
    ensures r.Ok? <==> Available(s) >= 2
    ensures r.Err? ==> r.error == StufferOutOfData
    ensures r.Ok? ==> r.value.rest == Stuffer(s.data, s.readCursor + 2)
    ensures r.Ok? ==> ToBytes16(r.value.value) == s.data[s.readCursor..s.readCursor + 2]
  {
    if Available(s) < 2 then Err(StufferOutOfData)
    else
      FromBytes16RoundTrip(s.data[s.readCursor], s.data[s.readCursor + 1]);
      Ok(U16Read(FromBytes16(s.data[s.readCursor], s.data[s.readCursor + 1]), Stuffer(s.data, s.readCursor + 2)))
  }

  datatype RawRead = RawRead(bytes: seq<uint8>, rest: Stuffer)

  /** Takes a view of the next `n` unread bytes; absent when fewer are available. */
  function RawReadBytes(s: Stuffer, n: nat): (r: Option<RawRead>)
    ensures r.Some? <==> n <= Available(s)
    ensures r.Some? ==> |r.value.bytes| == n
    ensures r.Some? ==> s.data[s.readCursor..] == r.value.bytes + s.data[s.readCursor + n..]
    ensures r.Some? ==> r.value.rest == Stuffer(s.data, s.readCursor + n)
  {
    if n <= Available(s) then
      assert s.data[s.readCursor..] == s.data[s.readCursor..s.readCursor + n] + s.data[s.readCursor + n..];
      Some(RawRead(s.data[s.readCursor..s.readCursor + n], Stuffer(s.data, s.readCursor + n)))
    else None
  }

  /** Appends raw bytes at the write cursor. */
  function RawWrite(s: Stuffer, bytes: seq<uint8>): (r: Stuffer)
    ensures r.data == s.data + bytes
    ensures WriteCursor(r) == WriteCursor(s) + |bytes|
    ensures Available(r) == Available(s) + |bytes|
    ensures r.readCursor == s.readCursor
  {
    Stuffer(s.data + bytes, s.readCursor)
  }

  /** Appends a network-order 16-bit value. */
  function WriteUint16(s: Stuffer, v: uint16): (r: Stuffer)
    ensures WriteCursor(r) == WriteCursor(s) + 2
    ensures r.readCursor == s.readCursor
  {
    RawWrite(s, ToBytes16(v))
  }

  /** A 16-bit value written at the write cursor is read back unchanged once the
      reader has caught up with everything written before it. */
  lemma WriteThenReadUint16(s: Stuffer, v: uint16)
    requires Available(s) == 0
    ensures ReadUint16(WriteUint16(s, v)) == Ok(U16Read(v, Stuffer(s.data + ToBytes16(v), |s.data| + 2)))
  {
  }
}
