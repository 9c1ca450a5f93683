/**
  The arithmetic of ReadAverage and GetValue as C# performs it: an int sum that
  wraps around silently, a division that truncates toward zero, and a long
  subtraction.
*/
module Averaging {
  import opened Bits

  const IntRange: int := 0x1_0000_0000
  const LongRange: int := 0x1_0000_0000_0000_0000

  /** A value a C# int can hold. */
  predicate IsInt(x: int)
  {
    -0x8000_0000 <= x < 0x8000_0000
  }

  /** A value a C# long can hold. */
  predicate IsLong(x: int)
  {
    -0x8000_0000_0000_0000 <= x < 0x8000_0000_0000_0000
  }

  /** The C# int (32 bits, two's complement) congruent to x: unchecked int arithmetic. */
  function Wrap32(x: int): (r: int)
    ensures IsInt(r)
  {
    (x + 0x8000_0000) % IntRange - 0x8000_0000
  }

  /** The C# long (64 bits, two's complement) congruent to x: unchecked long arithmetic. */
  function Wrap64(x: int): (r: int)
    ensures IsLong(r)
  {
    (x + 0x8000_0000_0000_0000) % LongRange - 0x8000_0000_0000_0000
  }

  /** An int that already fits is left alone. */
  lemma Wrap32Fits(x: int)
    requires IsInt(x)
    ensures Wrap32(x) == x
  {}

  /** Wrapping an intermediate sum does not change the wrapped total. */
  lemma Wrap32AddCongruent(x: int, y: int)
    ensures Wrap32(Wrap32(x) + y) == Wrap32(x + y)
  {
    var k := (x + 0x8000_0000) / IntRange;
    assert Wrap32(x) == x - k * IntRange;
    assert (Wrap32(x) + y + 0x8000_0000) == (x + y + 0x8000_0000) - k * IntRange;
    ModShift(x + y + 0x8000_0000, k);
  }

  lemma ModShift(a: int, k: int)
    ensures (a - k * IntRange) % IntRange == a % IntRange
  {}

  /**
    C#'s `+` on two ints, unchecked: the exact sum, brought back into range by
    one turn of 2^32 when it overflows.
  */
  function AddInt(a: int, b: int): int
    requires IsInt(a) && IsInt(b)
  {
    var x := a + b;
    if x >= 0x8000_0000 then x - IntRange
    else if x < -0x8000_0000 then x + IntRange
    else x
  }

  /** The int addition is the true sum wrapped to 32 bits. */
  lemma AddIntWraps(a: int, b: int)
    requires IsInt(a) && IsInt(b)
    ensures AddInt(a, b) == Wrap32(a + b)
  {
    var x := a + b;
    if x >= 0x8000_0000 {
      Wrap32Fits(x - IntRange);
      ModShift(x + 0x8000_0000, 1);
    } else if x < -0x8000_0000 {
      Wrap32Fits(x + IntRange);
      ModShift(x + 0x8000_0000, -1);
    }
  }

  /**
    C#'s `-` on two longs, unchecked: the exact difference, brought back into
    range by one turn of 2^64 when it overflows.
  */
  function SubLong(a: int, b: int): int
    requires IsLong(a) && IsLong(b)
  {
    var x := a - b;
    if x >= 0x8000_0000_0000_0000 then x - LongRange
    else if x < -0x8000_0000_0000_0000 then x + LongRange
    else x
  }

  /** The long subtraction is the true difference wrapped to 64 bits. */
  lemma SubLongWraps(a: int, b: int)
    requires IsLong(a) && IsLong(b)
    ensures SubLong(a, b) == Wrap64(a - b)
  {
    var x := a - b;
    if x >= 0x8000_0000_0000_0000 {
      assert (x + 0x8000_0000_0000_0000) % LongRange == x + 0x8000_0000_0000_0000 - LongRange;
    } else if x < -0x8000_0000_0000_0000 {
      assert (x + 0x8000_0000_0000_0000) % LongRange == x + 0x8000_0000_0000_0000 + LongRange;
    } else {
      assert (x + 0x8000_0000_0000_0000) % LongRange == x + 0x8000_0000_0000_0000;
    }
  }

  /**
    C#'s integer division by a positive divisor: the quotient truncated toward
    zero, counted out one divisor at a time.
  */
  function TruncDiv(a: int, d: int): int
    requires d > 0
    decreases if a >= 0 then a else -a
  {
    if a >= d then TruncDiv(a - d, d) + 1
    else if a <= -d then TruncDiv(a + d, d) - 1
    else 0
  }

  /**
    The truncated quotient is the largest-magnitude q with the sign of a such
    that q * d does not pass a: toward zero from the exact quotient.
  */
  lemma {:induction false} TruncDivBounds(a: int, d: int)
    requires d > 0
    ensures a >= 0 ==> 0 <= TruncDiv(a, d) && TruncDiv(a, d) * d <= a < TruncDiv(a, d) * d + d
    ensures a < 0 ==> TruncDiv(a, d) <= 0 && TruncDiv(a, d) * d - d < a <= TruncDiv(a, d) * d
  {
    if a >= 0 {
      TruncDivBoundsUp(a, d);
    } else {
      TruncDivBoundsDown(a, d);
    }
  }

  lemma {:induction false} TruncDivBoundsUp(a: int, d: int)
    requires d > 0 && a >= 0
    ensures 0 <= TruncDiv(a, d) && TruncDiv(a, d) * d <= a < TruncDiv(a, d) * d + d
    decreases a
  {
    if a >= d {
      TruncDivBoundsUp(a - d, d);
      var q := TruncDiv(a - d, d);
      assert TruncDiv(a, d) == q + 1;
      assert (q + 1) * d == q * d + d;
    }
  }

  lemma {:induction false} TruncDivBoundsDown(a: int, d: int)
    requires d > 0 && a < 0
    ensures TruncDiv(a, d) <= 0 && TruncDiv(a, d) * d - d < a <= TruncDiv(a, d) * d
    decreases -a
  {
    if a <= -d {
      if a + d < 0 {
        TruncDivBoundsDown(a + d, d);
      }
      var q := TruncDiv(a + d, d);
      assert TruncDiv(a, d) == q - 1;
      assert (q - 1) * d == q * d - d;
    }
  }

  /** The truncated quotient is Euclidean division of |a| by d, carrying the sign of a. */
  lemma TruncDivIsQuotient(a: int, d: int)
    requires d > 0
    ensures TruncDiv(a, d) == if a >= 0 then a / d else -((-a) / d)
  {
    TruncDivBounds(a, d);
    var q := TruncDiv(a, d);
    if a >= 0 {
      DivUnique(a, d, q);
    } else {
      DivUnique(-a, d, -q);
    }
  }

  /** Truncating division never makes a number larger in magnitude. */
  lemma TruncDivShrinks(a: int, d: int)
    requires d > 0
    ensures a >= 0 ==> 0 <= TruncDiv(a, d) <= a
    ensures a < 0 ==> a <= TruncDiv(a, d) <= 0
  {
    var q := TruncDiv(a, d);
    TruncDivBounds(a, d);
    if a >= 0 {
      MulMonotone(1, d, q);
    } else {
      MulMonotone(1, d, -q);
    }
  }

  /** The mathematical sum. */
  function Sum(s: seq<int>): int
  {
    if s == [] then 0 else Sum(s[..|s| - 1]) + s[|s| - 1]
  }

  /** Every value is a C# int. */
  predicate AllInts(s: seq<int>)
  {
    forall i :: 0 <= i < |s| ==> IsInt(s[i])
  }

  /** The sum as ReadAverage accumulates it, one unchecked int addition per read. */
  function WrappedSum(s: seq<int>): (r: int)
    requires AllInts(s)
    ensures IsInt(r)
  {
    if s == [] then 0 else AddInt(WrappedSum(s[..|s| - 1]), s[|s| - 1])
  }

  /** One more read adds its value to the wrapped sum with an int addition. */
  lemma WrappedSumSnoc(s: seq<int>, x: int)
    requires AllInts(s) && IsInt(x)
    ensures AllInts(s + [x])
    ensures WrappedSum(s + [x]) == AddInt(WrappedSum(s), x)
  {
    assert (s + [x])[..|s|] == s;
  }

  /** ReadAverage's result for the reads s: the wrapped sum divided by their number, an int. */
  function Average(s: seq<int>): (r: int)
    requires |s| > 0 && AllInts(s)
    ensures IsInt(r)
  {
    TruncDivShrinks(WrappedSum(s), |s|);
    TruncDiv(WrappedSum(s), |s|)
  }

  lemma AverageOfSum(s: seq<int>, sum: int)
    requires |s| > 0 && AllInts(s) && sum == WrappedSum(s)
    ensures Average(s) == TruncDiv(sum, |s|)
  {}

  /** Accumulating with wrap-around gives the true sum, wrapped once. */
  lemma {:induction false} WrappedSumIsWrappedTotal(s: seq<int>)
    requires AllInts(s)
    ensures WrappedSum(s) == Wrap32(Sum(s))
    decreases |s|
  {
    if s == [] {
      Wrap32Fits(0);
    } else {
      var init := s[..|s| - 1];
      WrappedSumIsWrappedTotal(init);
      AddIntWraps(WrappedSum(init), s[|s| - 1]);
      Wrap32AddCongruent(Sum(init), s[|s| - 1]);
    }
  }

  /** A sum of n values in [lo, hi] lies in [n * lo, n * hi]. */
  lemma {:induction false} SumBounds(s: seq<int>, lo: int, hi: int)
    requires forall i :: 0 <= i < |s| ==> lo <= s[i] <= hi
    ensures |s| * lo <= Sum(s) <= |s| * hi
    decreases |s|
  {
    if s != [] {
      SumBounds(s[..|s| - 1], lo, hi);
      MulStep(|s|, lo);
      MulStep(|s|, hi);
    }
  }

  /** A sum of n copies of v is n * v. */
  lemma {:induction false} SumConstant(s: seq<int>, v: int)
    requires forall i :: 0 <= i < |s| ==> s[i] == v
    ensures Sum(s) == |s| * v
    decreases |s|
  {
    if s != [] {
      SumConstant(s[..|s| - 1], v);
      MulStep(|s|, v);
    }
  }

  /**
    With at most 128 reads, each in [lo, hi] within [0, 2^24), the int sum never
    wraps: the average is the truncated mean and lies between lo and hi.
  */
  lemma AverageIsMean(s: seq<int>, lo: int, hi: int)
    requires 0 < |s| <= 128
    requires 0 <= lo && hi < 0x100_0000
    requires forall i :: 0 <= i < |s| ==> lo <= s[i] <= hi
    ensures Average(s) == Sum(s) / |s|
    ensures lo <= Average(s) <= hi
  {
    var n := |s|;
    SumBounds(s, lo, hi);
    MulMonotone(n, 128, hi);
    assert 0 <= Sum(s) < 0x8000_0000;
    WrappedSumIsWrappedTotal(s);
    Wrap32Fits(Sum(s));
    TruncDivIsQuotient(Sum(s), n);
    DivBetween(Sum(s), n, lo, hi);
  }

  lemma DivBetween(a: int, n: int, lo: int, hi: int)
    requires n > 0 && 0 <= n * lo <= a <= n * hi
    ensures lo <= a / n <= hi
  {
    var q := a / n;
    assert q * n <= a < q * n + n;
    assert lo * n < (q + 1) * n;
    MulCancel(lo, q + 1, n);
    assert q * n < (hi + 1) * n;
    MulCancel(q, hi + 1, n);
  }

  /** When every read gives v and the sum fits an int, the average is v. */
  lemma ConstantAverage(s: seq<int>, v: int)
    requires |s| > 0
    requires forall i :: 0 <= i < |s| ==> s[i] == v
    requires IsInt(v) && IsInt(|s| * v)
    ensures Average(s) == v
  {
    SumConstant(s, v);
    WrappedSumIsWrappedTotal(s);
    Wrap32Fits(Sum(s));
    TruncDivExact(|s|, v);
  }

  /** Dividing n * v by n gives v back. */
  lemma {:induction false} TruncDivExact(n: int, v: int)
    requires n > 0
    ensures TruncDiv(n * v, n) == v
    decreases if v >= 0 then v else -v
  {
    if v > 0 {
      MulMonotone(1, v, n);
      assert n * v - n == n * (v - 1);
      TruncDivExact(n, v - 1);
    } else if v < 0 {
      MulMonotone(v, -1, n);
      assert n * v + n == n * (v + 1);
      TruncDivExact(n, v + 1);
    }
  }

  /**
    129 reads of the largest reading, 2^24 - 1, overflow the int sum: the
    average comes out negative although every read is positive.
  */
  lemma AverageOverflows()
    ensures var s := seq(129, _ => 0xFF_FFFF); Average(s) < 0
  {
    var s := seq(129, _ => 0xFF_FFFF);
    SumConstant(s, 0xFF_FFFF);
    WrappedSumIsWrappedTotal(s);
    assert Wrap32(129 * 0xFF_FFFF) == -2130706561;
    TruncDivBounds(-2130706561, 129);
  }
}
