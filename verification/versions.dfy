/** Protocol version numbers and the legacy two-byte client version pair that
    section 7.4.7.1 of RFC 5246 places at the front of the RSA pre-master secret. */
module Versions {
  import opened Bytes

  // Protocol versions as the library numbers them: major * 10 + minor.
  const SSLv2: uint8 := 20
  const SSLv3: uint8 := 30
  const TLS10: uint8 := 31
  const TLS11: uint8 := 32
  const TLS12: uint8 := 33

  /** Length of the version pair (S2N_TLS_PROTOCOL_VERSION_LEN). */
  const PROTOCOL_VERSION_LEN: nat := 2

  /** The version the client advertised: the protocol version carried inside an
      SSLv2-format hello, otherwise the hello's own legacy version. */
  function ClientHelloProtocolVersion(clientHelloVersion: uint8, clientProtocolVersion: uint8): uint8 {
    if clientHelloVersion == SSLv2 then clientProtocolVersion else clientHelloVersion
  }

  /** The wire pair {v / 10, v % 10}: a version byte for each decimal digit group. */
  function VersionPair(v: uint8): (p: seq<uint8>)
    ensures |p| == PROTOCOL_VERSION_LEN
    ensures p[0] <= 25 && p[1] <= 9
    ensures PairVersion(p) == v
  {
    [v / 10, v % 10]
  }

  /** Reads a version back from its pair. */
  function PairVersion(p: seq<uint8>): int
    requires |p| == PROTOCOL_VERSION_LEN
  {
    p[0] as int * 10 + p[1] as int
  }

  /** Distinct versions have distinct pairs, so comparing pairs compares versions. */
  lemma VersionPairInjective(a: uint8, b: uint8)
    ensures VersionPair(a) == VersionPair(b) <==> a == b
  {
  }

  /** A pair whose second byte is a single digit is determined by the version it
      decodes to: it is {v / 10, v % 10}. */
  lemma DigitPairIsVersionPair(p: seq<uint8>, v: uint8)
    requires |p| == PROTOCOL_VERSION_LEN && p[1] <= 9
    requires PairVersion(p) == v as int
    ensures p == VersionPair(v)
  {
  }

  /** TLS 1.2 (and every TLS 1.3 client, which freezes its legacy version at
      TLS 1.2) puts {3, 3} in front of the pre-master secret; SSLv3 puts {3, 0}. */
  lemma KnownVersionPairs()
    ensures VersionPair(TLS12) == [3, 3]
    ensures VersionPair(TLS11) == [3, 2]
    ensures VersionPair(TLS10) == [3, 1]
    ensures VersionPair(SSLv3) == [3, 0]
  {
  }
}
