/** Powers of two and the bit mask that the ring buffer uses instead of a modulo. */
module Bits {

  function Pow2(k: nat): (r: nat)
    ensures r > 0
  {
    if k == 0 then 1 else 2 * Pow2(k - 1)
  }

  /** Bitwise `&` on naturals, bit by bit from the least significant end. */
  function And(a: nat, b: nat): nat {
    if a == 0 || b == 0 then 0
    else (if a % 2 == 1 && b % 2 == 1 then 1 else 0) + 2 * And(a / 2, b / 2)
  }

  lemma MulSign(d: int, p: int)
    requires p >= 0
    ensures d >= 1 ==> d * p >= p
    ensures d <= -1 ==> d * p <= -p
  {
    if d >= 1 {
      assert d * p == p + (d - 1) * p;
    } else if d <= -1 {
      assert d * p == (d + 1) * p - p;
    }
  }

  lemma ModUnique(i: int, p: nat, q: int, r: nat)
    requires r < p && i == q * p + r
    ensures i % p == r
  {
    var d := q - i / p;
    MulSign(d, p);
    assert d * p == q * p - (i / p) * p;
    assert i == (i / p) * p + i % p;
  }

  lemma ModHalves(i: nat, p: nat)
    requires p > 0
    ensures i % (2 * p) == i % 2 + 2 * ((i / 2) % p)
  {
    var h := i / 2;
    var q, r := h / p, h % p;
    assert h == q * p + r;
    assert q * (2 * p) == 2 * (q * p);
    ModUnique(i, 2 * p, q, i % 2 + 2 * r);
  }

  lemma ModOctets(v: nat, p: nat)
    requires p > 0
    ensures v % (256 * p) == 256 * ((v / 256) % p) + v % 256
  {
    var h := v / 256;
    var q, r := h / p, h % p;
    assert h == q * p + r;
    assert q * (256 * p) == 256 * (q * p);
    ModUnique(v, 256 * p, q, 256 * r + v % 256);
  }

  lemma AndHalves(i: nat, p: nat)
    requires p > 0
    ensures And(i, 2 * p - 1) == i % 2 + 2 * And(i / 2, p - 1)
  {
    assert (2 * p - 1) / 2 == p - 1;
    if i == 0 {
    } else if p == 1 {
      assert And(i / 2, 0) == 0;
    }
  }

  /** Masking with a power of two minus one is the remainder by that power. */
  lemma {:induction false} MaskIsMod(i: nat, k: nat)
    ensures And(i, Pow2(k) - 1) == i % Pow2(k)
  {
    hide And;
    if k == 0 {
      AndZero(i);
    } else {
      MaskIsMod(i / 2, k - 1);
      ModHalves(i, Pow2(k - 1));
      AndHalves(i, Pow2(k - 1));
    }
  }

  lemma AndZero(i: nat)
    ensures And(i, 0) == 0
  {
  }

  lemma NearbyModsDiffer(i: nat, j: nat, p: nat)
    requires p > 0 && i < j < i + p
    ensures i % p != j % p
  {
    var d := j / p - i / p;
    MulSign(d, p);
    assert d * p == (j / p) * p - (i / p) * p;
    assert i == (i / p) * p + i % p;
    assert j == (j / p) * p + j % p;
  }

  lemma NextLap(i: nat, p: nat)
    requires p > 0
    ensures (i + p) % p == i % p
  {
    assert i == (i / p) * p + i % p;
    assert i + p == (i / p + 1) * p + i % p;
    ModUnique(i + p, p, i / p + 1, i % p);
  }
}
