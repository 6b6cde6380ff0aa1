/** Bytes, octet strings and the big-endian fields of the Diameter headers. */
module Bytes {
  import opened Bits

  type byte = x: int | 0 <= x < 256
  type u32 = x: int | 0 <= x < 0x1_0000_0000
  type Text = seq<byte>           // Go strings and byte slices are octet strings

  datatype Option<+T> = None | Some(value: T)

  /** The `n` low-order octets of `v`, most significant first; higher octets are cut off. */
  function BE(v: nat, n: nat): (s: seq<byte>)
    ensures |s| == n
  {
    if n == 0 then [] else BE(v / 256, n - 1) + [v % 256]
  }

  /** The number an octet string spells, most significant octet first. */
  function U(s: seq<byte>): (v: nat)
    ensures |s| == 0 ==> v == 0
    ensures |s| == 1 ==> v < 0x100
    ensures |s| == 2 ==> v < 0x1_0000
    ensures |s| == 3 ==> v < 0x100_0000
    ensures |s| == 4 ==> v < 0x1_0000_0000
  {
    if s == [] then 0 else 256 * U(s[..|s| - 1]) + s[|s| - 1]
  }

  lemma {:induction false} BEofU(s: seq<byte>)
    ensures BE(U(s), |s|) == s
  {
    if s != [] {
      BEofU(s[..|s| - 1]);
    }
  }

  function Pow256(n: nat): (r: nat)
    ensures r > 0
  {
    if n == 0 then 1 else 256 * Pow256(n - 1)
  }

  /** Writing a number and reading it back keeps the octets that were written. */
  lemma {:induction false} UofBE(v: nat, n: nat)
    ensures U(BE(v, n)) == v % Pow256(n)
  {
    if n > 0 {
      UofBE(v / 256, n - 1);
      assert BE(v, n)[..n - 1] == BE(v / 256, n - 1);
      ModOctets(v, Pow256(n - 1));
    }
  }

  lemma UofBE3(v: nat)
    ensures U(BE(v, 3)) == v % 0x100_0000
  {
    UofBE(v, 3);
  }

  lemma UofBE4(v: u32)
    ensures U(BE(v, 4)) == v
  {
    UofBE(v, 4);
  }

  /** The octets of a number, most significant first. */
  lemma OctetsByValue(v: nat)
    ensures BE(v, 3) == [v / 0x1_0000 % 0x100, v / 0x100 % 0x100, v % 0x100]
    ensures BE(v, 4) == [v / 0x100_0000 % 0x100, v / 0x1_0000 % 0x100, v / 0x100 % 0x100, v % 0x100]
  {
    var (x, y, z) := (v / 256, v / 256 / 256, v / 256 / 256 / 256);
    assert BE(z, 1) == [z % 256] && BE(y, 1) == [y % 256];
    assert BE(y, 2) == [z % 256, y % 256] && BE(x, 2) == [y % 256, x % 256];
    assert y == v / 0x1_0000 && z == v / 0x100_0000;
  }

  /** The number that two, three or four octets spell. */
  lemma ValueByOctets(s: seq<byte>)
    ensures |s| == 2 ==> U(s) == 0x100 * s[0] as int + s[1] as int
    ensures |s| == 3 ==> U(s) == 0x1_0000 * s[0] as int + 0x100 * s[1] as int + s[2] as int
    ensures |s| == 4 ==>
      U(s) == 0x100_0000 * s[0] as int + 0x1_0000 * s[1] as int + 0x100 * s[2] as int + s[3] as int
  {
    if 2 <= |s| <= 4 {
      var t := s[..|s| - 1];
      assert U(s) == 256 * U(t) + s[|s| - 1];
      ValueByOctets(t);
      assert |t| == 1 ==> t[..0] == [] && U(t) == s[0];
    }
  }

  function Zeros(n: nat): (s: seq<byte>)
    ensures |s| == n
  {
    seq(n, _ => 0)
  }
}
