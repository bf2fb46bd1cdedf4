/**
64-bit division for a 32-bit machine: shift and subtract on words, and signed division on top
of it. A word is a number below 2^64; shifts drop what does not fit.
*/
module Division {
  function Pow2(i: nat): (p: nat)
    ensures p > 0
  {
    if i == 0 then 1 else 2 * Pow2(i - 1)
  }

  const TWO_32: int := 0x1_0000_0000
  const TWO_63: int := 0x8000_0000_0000_0000
  const TWO_64: int := 0x1_0000_0000_0000_0000

  type u64 = x: nat | x < TWO_64
  type s64 = x: int | -TWO_63 <= x < TWO_63

  function ShiftLeftOne(x: u64): u64 { (2 * x) % TWO_64 }

  // Bit i of a word.
  function Bit(x: nat, i: nat): nat { x / Pow2(i) % 2 }

  // Setting bit i of a word.
  function SetBit(x: nat, i: nat): nat { if Bit(x, i) == 1 then x else x + Pow2(i) }

  lemma ShiftRight(n: nat, i: nat)
    ensures n / Pow2(i) == 2 * (n / Pow2(i + 1)) + Bit(n, i)
  {
    var p := Pow2(i);
    var a, b := n / p, n / (2 * p);
    assert n == a * p + n % p && n == b * (2 * p) + n % (2 * p);
    DivDiv(n, p);
  }

  lemma DivDiv(n: nat, p: nat)
    requires p > 0
    ensures n / (2 * p) == n / p / 2
  {
    var a, r := n / p, n % p;
    var b, c := a / 2, a % 2;
    assert n == a * p + r;
    assert n == (2 * b + c) * p + r;
    assert n == b * (2 * p) + (c * p + r);
    assert 0 <= c * p + r < 2 * p;
    DivUnique(n, 2 * p, b, c * p + r);
  }

  // Quotient and remainder are determined by what they are for.
  lemma DivUnique(n: nat, d: nat, q: nat, r: nat)
    requires d > 0 && n == q * d + r && r < d
    ensures q == n / d && r == n % d
  {
    var q1, r1 := n / d, n % d;
    assert n == q1 * d + r1 && 0 <= r1 < d;
    assert (q - q1) * d == r1 - r;
    AtLeastOne(q - q1, d);
  }

  lemma AtLeastOne(k: int, d: nat)
    ensures k >= 1 ==> k * d >= d
    ensures k <= -1 ==> k * d <= 0 - d
  {
    if k >= 1 {
      assert k * d == d + (k - 1) * d;
    } else if k <= -1 {
      assert k * d == 0 - d + (k + 1) * d && (k + 1) * d <= 0;
    }
  }

  lemma Pow2Values()
    ensures Pow2(32) == TWO_32 && Pow2(64) == TWO_64
  {
    assert Pow2(8) == 0x100;
    assert Pow2(16) == 0x1_0000;
    assert Pow2(24) == 0x100_0000;
    assert Pow2(32) == TWO_32;
    assert Pow2(40) == 0x100_0000_0000;
    assert Pow2(48) == 0x1_0000_0000_0000;
    assert Pow2(56) == 0x100_0000_0000_0000;
    assert Pow2(64) == TWO_64;
  }

  // The state of the long division when the lowest i bits are still to come: what has come is
  // divided, and the quotient stands in its place.
  ghost predicate Dividing(n: nat, d: nat, i: nat, q: nat, r: nat, k: nat) {
    && n / Pow2(i) == k * d + r && r < d
    && q == k * Pow2(i)
  }

  lemma QuotientFits(n: nat, d: nat, i: nat, q: nat, r: nat, k: nat)
    requires d > 0 && Dividing(n, d, i, q, r, k)
    ensures q <= n && r <= n / Pow2(i)
  {
    var p := Pow2(i);
    assert k <= k * d by { AtLeastOne(d, k); }
    assert k * p <= (n / p) * p by { AtMost(k, n / p, p); }
    assert (n / p) * p + n % p == n;
  }

  lemma AtMost(a: nat, b: nat, c: nat)
    requires a <= b
    ensures a * c <= b * c
  {
  }

  // No bit is lost when the remainder is shifted.
  lemma ShiftFits(n: u64, i: nat, r: nat)
    requires r <= n / Pow2(i + 1)
    ensures 2 * r + Bit(n, i) < TWO_64
  {
    ShiftRight(n, i);
    DivAtMost(n, Pow2(i));
  }

  lemma DivAtMost(n: nat, d: nat)
    requires d > 0
    ensures n / d <= n
  {
    QuotientAtMost(n, d, n / d, n % d);
  }

  lemma QuotientAtMost(n: nat, d: nat, q: nat, r: nat)
    requires d > 0 && n == q * d + r
    ensures q <= n && (d > 1 ==> 2 * q <= n)
  {
    AtLeastOne(d, q);
    if d > 1 {
      AtLeastOne(d - 1, q);
      assert q * d == q + (d - 1) * q;
    }
  }

  lemma OneBit(n: nat, d: nat, i: nat, q: nat, r: nat, k: nat)
    requires d > 0 && Dividing(n, d, i + 1, q, r, k)
    ensures var r1 := 2 * r + Bit(n, i);
      if r1 >= d then Dividing(n, d, i, SetBit(q, i), r1 - d, 2 * k + 1)
      else Dividing(n, d, i, q, r1, 2 * k)
  {
    ShiftRight(n, i);
    var p := Pow2(i);
    assert q == (2 * k) * p;
    DivUnique(q, p, 2 * k, 0);
    assert Bit(q, i) == 0;
    assert q + p == (2 * k + 1) * p;
    assert n / p == 2 * (k * d + r) + Bit(n, i) == (2 * k) * d + (2 * r + Bit(n, i));
    assert (2 * k + 1) * d == (2 * k) * d + d;
  }

  ghost predicate Divided(n: nat, d: nat, i: nat, q: nat, r: nat) {
    exists k: nat :: Dividing(n, d, i, q, r, k)
  }

  lemma Begin(n: u64, d: nat)
    requires d > 0
    ensures Divided(n, d, 64, 0, 0)
  {
    Pow2Values();
    DivUnique(n, Pow2(64), 0, n);
    assert Dividing(n, d, 64, 0, 0, 0);
  }

  // One round of the loop: nothing is lost, and the state is kept.
  lemma Round(n: u64, d: nat, i: nat, q: nat, r: nat)
    requires d > 0 && Divided(n, d, i + 1, q, r)
    ensures var r1 := 2 * r + Bit(n, i);
      && r < TWO_64 && ShiftLeftOne(r) + Bit(n, i) == r1 < TWO_64
      && (if r1 >= d then Divided(n, d, i, SetBit(q, i), r1 - d) && SetBit(q, i) < TWO_64 else Divided(n, d, i, q, r1))
  {
    var k: nat :| Dividing(n, d, i + 1, q, r, k);
    QuotientFits(n, d, i + 1, q, r, k);
    ShiftFits(n, i, r);
    OneBit(n, d, i, q, r, k);
    var r1 := 2 * r + Bit(n, i);
    if r1 >= d {
      QuotientFits(n, d, i, SetBit(q, i), r1 - d, 2 * k + 1);
    }
  }

  lemma End(n: nat, d: nat, q: nat, r: nat)
    requires Divided(n, d, 0, q, r)
    ensures n == q * d + r && r < d
  {
    var k: nat :| Dividing(n, d, 0, q, r, k);
    assert n / Pow2(0) == n && q == k;
  }

  // The loop of __udivmoddi4.
  method LongDivision(n: u64, d: u64) returns (q: u64, rem: u64)
    requires d != 0
    ensures n == q * d + rem && rem < d
  {
    q, rem := 0, 0;
    var i: nat := 64;
    Begin(n, d);
    while i > 0
      invariant i <= 64 && Divided(n, d, i, q, rem)
    {
      i := i - 1;
      Round(n, d, i, q, rem);
      rem := ShiftLeftOne(rem) + Bit(n, i);
      if rem >= d {
        rem := rem - d;
        q := SetBit(q, i);
      }
    }
    End(n, d, q, rem);
  }

  // __udivmoddi4
  method UDivMod(n: u64, d: u64) returns (q: u64, rem: u64)
    ensures d != 0 ==> n == q * d + rem && rem < d
    ensures d == 0 ==> q == TWO_64 - 1 && rem == n
  {
    if d == 0 {
      return TWO_64 - 1, n;
    }
    if d > n {
      return 0, n;
    }
    if d < TWO_32 && n < TWO_32 {
      DivAtMost(n, d);
      return n / d, n % d;
    }
    q, rem := LongDivision(n, d);
  }

  // ---------------------------------------------------------------- signed division

  // Conversions between words and signed words, and negation, wrap around.
  function ToUnsigned(x: s64): u64 { if x < 0 then x + TWO_64 else x }

  function ToSigned(x: u64): s64 { if x >= TWO_63 then x - TWO_64 else x }

  function Negate(x: s64): s64 { if x == -TWO_63 then x else -x }

  function Abs(x: int): nat { if x < 0 then -x else x }

  // The result that C prescribes: the quotient is truncated toward zero, and the remainder has
  // the sign of the dividend.
  ghost predicate Truncated(n: int, d: int, q: int, r: int) {
    n == q * d + r && Abs(r) < Abs(d) && (r == 0 || (r < 0 <==> n < 0))
  }

  lemma SmallMultiple(k: int, d: int, x: int)
    requires k * d == x && Abs(x) < Abs(d)
    ensures k == 0
  {
    if d < 0 {
      assert (0 - k) * (0 - d) == x;
      AtLeastOne(0 - k, 0 - d);
    } else {
      AtLeastOne(k, d);
    }
  }

  lemma TruncatedUnique(n: int, d: int, q1: int, r1: int, q2: int, r2: int)
    requires Truncated(n, d, q1, r1) && Truncated(n, d, q2, r2)
    ensures q1 == q2 && r1 == r2
  {
    var x := r2 - r1;
    assert (q1 - q2) * d == q1 * d - q2 * d == x;
    SmallMultiple(q1 - q2, d, x);
  }

  // Putting the signs back on the quotient and the remainder of the magnitudes.
  lemma Signs(n: int, d: int, q: nat, r: nat)
    requires d != 0 && Abs(n) == q * Abs(d) + r && r < Abs(d)
    ensures Truncated(n, d, if (n < 0) != (d < 0) then 0 - q else q, if n < 0 then 0 - r else r)
  {
    assert (0 - q) * d == 0 - q * d && q * (0 - d) == 0 - q * d;
  }

  function WithSign(negative: bool, x: u64): (r: s64)
    ensures x < TWO_63 ==> r == if negative then 0 - x else x
    ensures x == TWO_63 ==> r == -TWO_63
    ensures x == TWO_64 - 1 ==> r == if negative then 1 else -1
  {
    if negative then Negate(ToSigned(x)) else ToSigned(x)
  }

  lemma QuotientRange(n: s64, d: s64, q: nat, r: nat)
    requires d != 0 && Abs(n) == q * Abs(d) + r && r < Abs(d)
    ensures r < TWO_63
    ensures q < TWO_63 || (q == TWO_63 && n == -TWO_63 && (d == 1 || d == -1) && r == 0)
  {
    QuotientAtMost(Abs(n), Abs(d), q, r);
  }

  // __divmoddi4. The one quotient that a signed word cannot hold wraps around.
  method DivMod(n: s64, d: s64) returns (quot: s64, rem: s64)
    ensures d != 0 && !(n == -TWO_63 && d == -1) ==> Truncated(n, d, quot, rem)
    ensures n == -TWO_63 && d == -1 ==> quot == -TWO_63 && rem == 0
    ensures d == 0 ==> rem == n && quot == if n < 0 then 1 else -1
  {
    var negQ, negR := false, false;
    var un, ud := ToUnsigned(n), ToUnsigned(d);
    if n < 0 {
      un, negQ, negR := ToUnsigned(Negate(n)), true, true;
    }
    if d < 0 {
      ud, negQ := ToUnsigned(Negate(d)), !negQ;
    }
    assert un == Abs(n) && ud == Abs(d);
    var q, ur := UDivMod(un, ud);
    if d != 0 {
      Signs(n, d, q, ur);
      QuotientRange(n, d, q, ur);
    }
    rem := WithSign(negR, ur);
    quot := WithSign(negQ, q);
  }
}
