/** Binary digits: the arithmetic behind masking with an alignment. */
module Digits {

  /** Bitwise and, digit by digit. */
  function BitAnd(x: nat, y: nat): nat
    decreases x
  {
    if x == 0 then 0
    else 2 * BitAnd(x / 2, y / 2) + (if x % 2 == 1 && y % 2 == 1 then 1 else 0)
  }

  function Pow2(k: nat): nat {
    if k == 0 then 1 else 2 * Pow2(k - 1)
  }

  lemma Scale(d: int, m: nat)
    ensures d >= 1 ==> d * m >= m
    ensures d <= -1 ==> d * m + m <= 0
  {
    if d >= 1 {
      assert (d - 1) * m >= 0;
    } else if d <= -1 {
      assert (-1 - d) * m >= 0;
    }
  }

  lemma Distribute(p: int, q: int, m: int)
    ensures (p - q) * m == p * m - q * m
    ensures (p + q) * m == p * m + q * m
  {
  }

  lemma ModUnique(x: nat, q: nat, m: nat, r: nat)
    requires m > 0 && r < m && x == q * m + r
    ensures x / m == q && x % m == r
  {
    var d := x / m - q;
    assert x == (x / m) * m + x % m;
    Distribute(x / m, q, m);
    Scale(d, m);
  }

  lemma HalfMod(x: nat, m: nat)
    requires m >= 1
    ensures x % (2 * m) == x % 2 + 2 * ((x / 2) % m)
  {
    var q, r := (x / 2) / m, (x / 2) % m;
    assert x / 2 == q * m + r;
    assert q * (2 * m) == 2 * (q * m);
    ModUnique(x, q, 2 * m, 2 * r + x % 2);
  }

  lemma {:induction false} Pow2Adds(a: nat, b: nat)
    ensures Pow2(a + b) == Pow2(a) * Pow2(b)
  {
    if a > 0 {
      Pow2Adds(a - 1, b);
      assert Pow2(a + b) == 2 * (Pow2(a - 1) * Pow2(b));
    }
  }

  lemma SixtyFourDigits()
    ensures Pow2(64) == 0x1_0000_0000_0000_0000
  {
    assert Pow2(4) == 16;
    Pow2Adds(4, 4);
    Pow2Adds(8, 8);
    Pow2Adds(16, 16);
    Pow2Adds(32, 32);
  }

  lemma {:induction false} Pow2Grows(k: nat, w: nat)
    requires k <= w
    ensures 1 <= Pow2(k) <= Pow2(w)
  {
    if k < w {
      Pow2Grows(k, w - 1);
    } else if k > 0 {
      Pow2Grows(k - 1, w - 1);
    }
  }

  lemma AndWithEven(x: nat, y: nat)
    ensures BitAnd(x, 2 * y) == 2 * BitAnd(x / 2, y)
  {
    assert (2 * y) / 2 == y && (2 * y) % 2 == 0;
    if x == 0 {
      assert BitAnd(0, y) == 0;
    }
  }

  lemma AndWithOdd(x: nat, y: nat)
    ensures BitAnd(x, 2 * y + 1) == 2 * BitAnd(x / 2, y) + x % 2
  {
    assert (2 * y + 1) / 2 == y && (2 * y + 1) % 2 == 1;
    if x == 0 {
      assert BitAnd(0, y) == 0;
    }
  }

  lemma {:induction false} AndWithOnes(x: nat, w: nat)
    requires x < Pow2(w)
    ensures BitAnd(x, Pow2(w) - 1) == x
  {
    if w > 0 {
      var half := Pow2(w - 1);
      assert Pow2(w) - 1 == 2 * (half - 1) + 1;
      AndWithOnes(x / 2, w - 1);
      AndWithOdd(x, half - 1);
    }
  }

  /** x with its last k digits cleared. */
  function Cleared(x: nat, k: nat): nat
    decreases k
  {
    if k == 0 then x else 2 * Cleared(x / 2, k - 1)
  }

  lemma TwiceRounded(x: nat, m: nat)
    requires m >= 1
    ensures 2 * (x / 2 - x / 2 % m) == x - x % (2 * m)
  {
    HalfMod(x, m);
  }

  lemma {:induction false} ClearedIsRounded(x: nat, k: nat)
    ensures Pow2(k) >= 1 && Cleared(x, k) == x - x % Pow2(k)
    decreases k
  {
    if k > 0 {
      var m := Pow2(k - 1);
      ClearedIsRounded(x / 2, k - 1);
      TwiceRounded(x, m);
      assert Pow2(k) == 2 * m;
    }
  }

  /** Masking with the complement of 2^k - 1 clears the last k digits. */
  lemma {:induction false} AndWithMask(x: nat, w: nat, k: nat)
    requires x < Pow2(w) && k <= w
    ensures Pow2(k) <= Pow2(w) && BitAnd(x, Pow2(w) - Pow2(k)) == Cleared(x, k)
    decreases k
  {
    Pow2Grows(k, w);
    if k == 0 {
      AndWithOnes(x, w);
    } else {
      var m, n := Pow2(k - 1), Pow2(w - 1);
      assert Pow2(w) - Pow2(k) == 2 * (n - m);
      AndWithMask(x / 2, w - 1, k - 1);
      AndWithEven(x, n - m);
    }
  }

  lemma PowersDivide(k: nat, l: nat)
    requires k <= l
    ensures Pow2(k) > 0 && Pow2(l) % Pow2(k) == 0
  {
    Pow2Grows(0, k);
    Pow2Adds(l - k, k);
    ModUnique(Pow2(l), Pow2(l - k), Pow2(k), 0);
  }

  lemma MultipleOfMultiple(x: nat, big: nat, small: nat)
    requires small > 0 && big > 0 && big % small == 0 && x % big == 0
    ensures x % small == 0
  {
    var p, q := x / big, big / small;
    assert x == p * big && big == q * small;
    assert p * (q * small) == (p * q) * small;
    ModUnique(x, p * q, small, 0);
  }

  /** r is the least multiple of align that is at least value. */
  ghost predicate LeastMultiple(r: nat, value: nat, align: nat)
    requires align > 0
  {
    && r >= value && r % align == 0
    && forall m: nat :: m >= value && m % align == 0 ==> r <= m
  }

  function RoundedUp(value: nat, align: nat): int
    requires align > 0
  {
    value + align - 1 - (value + align - 1) % align
  }

  lemma RoundUp(value: nat, align: nat)
    requires align > 0
    ensures RoundedUp(value, align) >= value && RoundedUp(value, align) % align == 0
  {
    var sum := value + align - 1;
    var q := sum / align;
    assert sum - sum % align == q * align;
    ModUnique(q * align, q, align, 0);
  }

  lemma RoundUpIsBelow(value: nat, align: nat, m: nat)
    requires align > 0 && m >= value && m % align == 0
    ensures RoundedUp(value, align) <= m
  {
    var sum := value + align - 1;
    var q, p := sum / align, m / align;
    assert sum == q * align + sum % align;
    assert m == p * align;
    Distribute(p, q, align);
    Scale(p - q, align);
  }

  lemma RoundUpIsLeast(value: nat, align: nat)
    requires align > 0
    ensures RoundedUp(value, align) >= 0 && LeastMultiple(RoundedUp(value, align), value, align)
  {
    RoundUp(value, align);
    forall m: nat | m >= value && m % align == 0
      ensures RoundedUp(value, align) <= m
    {
      RoundUpIsBelow(value, align, m);
    }
  }

  lemma RoundedStays(value: nat, align: nat)
    requires align > 0 && value % align == 0
    ensures RoundedUp(value, align) == value
  {
    var q := value / align;
    assert value == q * align;
    ModUnique(value + align - 1, q, align, align - 1);
  }

  /** Rounding up to a divisor of big gives the same as rounding up to big exactly if it
      happens to be a multiple of big. */
  lemma RoundingsAgreeIff(value: nat, small: nat, big: nat, r: nat, s: nat)
    requires small > 0 && big > 0 && big % small == 0
    requires LeastMultiple(r, value, small) && LeastMultiple(s, value, big)
    ensures r == s <==> r % big == 0
  {
    MultipleOfMultiple(s, big, small);
  }
}
