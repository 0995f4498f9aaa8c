/** Bytes, and the four-byte little-endian numbers of the binary log and the login file. */
module Bytes {

  type byte = x: int | 0 <= x < 256

  /** `int4store`: little endian, higher bits lost */
  function Le4(n: nat): (r: seq<byte>)
    ensures |r| == 4
  {
    [n % 256, n / 256 % 256, n / 65536 % 256, n / 16777216 % 256]
  }

  /** `uint4korr` */
  function FromLe4(b: seq<byte>): nat
    requires |b| == 4
  {
    b[0] + 256 * (b[1] as int) + 65536 * (b[2] as int) + 16777216 * (b[3] as int)
  }

  lemma Le4RoundTrip(n: nat)
    requires n < 0x1_0000_0000
    ensures FromLe4(Le4(n)) == n
  {
    var a := n / 256;
    var b := a / 256;
    assert n / 65536 == b && n / 16777216 == b / 256;
    assert b / 256 < 256;
  }
}
