/** Shifts and bitwise or on 32-bit words, as arithmetic. */
module Bits {
  import opened Types

  function Pow2(n: nat): nat { if n == 0 then 1 else 2 * Pow2(n - 1) }

  function Shl(x: nat, n: nat): uint32 { (x * Pow2(n)) % 0x1_0000_0000 }

  function Or(x: nat, y: nat): nat {
    if x == 0 then y else if y == 0 then x
    else 2 * Or(x / 2, y / 2) + (if x % 2 == 1 || y % 2 == 1 then 1 else 0)
  }

  /** A field that starts where the bits below it end is simply added. */
  lemma {:induction false} OrAboveBits(a: nat, k: nat, y: nat)
    requires y < Pow2(k)
    ensures Or(a * Pow2(k), y) == a * Pow2(k) + y
    decreases k
  {
    if a == 0 {
      assert a * Pow2(k) == 0;
    } else if k > 0 && y > 0 {
      var h := a * Pow2(k - 1);
      assert a * Pow2(k) == 2 * h;
      OrAboveBits(a, k - 1, y / 2);
      assert 2 * h / 2 == h && (2 * h) % 2 == 0;
      if h == 0 { assert Pow2(k - 1) > 0; }
    }
  }

  lemma OrDoubled(x: nat, y: nat)
    ensures Or(2 * x, 2 * y) == 2 * Or(x, y)
  {
    assert 2 * x / 2 == x && 2 * y / 2 == y && (2 * x) % 2 == 0 && (2 * y) % 2 == 0;
  }

  /** Four zero bits stay zero. */
  lemma OrSixteen(x: nat, y: nat)
    ensures Or(16 * x, 16 * y) == 16 * Or(x, y)
  {
    hide Or;
    OrDoubled(8 * x, 8 * y);
    OrDoubled(4 * x, 4 * y);
    OrDoubled(2 * x, 2 * y);
    OrDoubled(x, y);
  }

  /** Also when a shift loses bits at the top, the zeros it leaves at the bottom remain. */
  lemma TruncatedSixteen(y: nat)
    ensures (16 * y) % 0x1_0000_0000 == 16 * (y % 0x1000_0000)
  {
    var q, r := y / 0x1000_0000, y % 0x1000_0000;
    assert 16 * y == q * 0x1_0000_0000 + 16 * r;
    DivMod(q, 0x1_0000_0000, 16 * r);
  }

  lemma Powers()
    ensures Pow2(3) == 0x8 && Pow2(4) == 0x10 && Pow2(12) == 0x1000 && Pow2(15) == 0x8000 && Pow2(16) == 0x1_0000
    ensures Pow2(28) == 0x1000_0000 && Pow2(30) == 0x4000_0000
  {
    assert Pow2(8) == 256;
    assert Pow2(20) == 0x10_0000 && Pow2(24) == 0x100_0000;
  }

  lemma DivMod(q: nat, m: nat, r: nat)
    requires r < m
    ensures (q * m + r) / m == q && (q * m + r) % m == r
  {
    var n := q * m + r;
    var a, b := n / m, n % m;
    assert n == a * m + b;
    assert (q - a) * m == b - r;
    if q > a { AtLeast(q - a, m); } else if q < a { AtLeast(a - q, m); }
  }

  lemma AtLeast(x: nat, m: nat)
    requires x >= 1
    ensures x * m >= m
  {
    assert x * m == (x - 1) * m + m;
  }
}
