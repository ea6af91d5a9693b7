/** Fixed-width unsigned integers, byte strings and the big-endian 16-bit
    encoding used for TLS length prefixes. */
module Bytes {

  type uint8 = x: int | 0 <= x < 0x100
  type uint16 = x: int | 0 <= x < 0x1_0000
  type uint32 = x: int | 0 <= x < 0x1_0000_0000

  /** Length of the TLS pre-master secret (S2N_TLS_SECRET_LEN). */
  const SECRET_LEN: nat := 48

  /** The fixed-size pre-master buffer held by every connection. */
  type PremasterSecret = s: seq<uint8> | |s| == SECRET_LEN witness Zeros(SECRET_LEN)

  /** A byte string of `n` zero bytes. */
  function Zeros(n: nat): (z: seq<uint8>)
    ensures |z| == n
    ensures IsZero(z)
  {
    seq(n, _ => 0)
  }

  predicate IsZero(s: seq<uint8>) {
    forall i :: 0 <= i < |s| ==> s[i] == 0
  }

  /** Network-order (big-endian) value of two bytes. */
  function FromBytes16(hi: uint8, lo: uint8): uint16 {
    hi * 0x100 + lo
  }

  /** Network-order (big-endian) encoding of a 16-bit value. */
  function ToBytes16(v: uint16): (b: seq<uint8>)
    ensures |b| == 2
    ensures FromBytes16(b[0], b[1]) == v
  {
    [v / 0x100, v % 0x100]
  }

  /** Decoding two bytes and encoding the value again gives the same two bytes. */
  lemma FromBytes16RoundTrip(hi: uint8, lo: uint8)
    ensures ToBytes16(FromBytes16(hi, lo)) == [hi, lo]
  {
  }
}
