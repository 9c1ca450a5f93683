/** Bit strings read most-significant bit first, and the numbers they denote. */
module Bits {

  /** 2 to the power n. */
  function Pow2(n: nat): (r: nat)
    ensures r >= 1
  {
    if n == 0 then 1 else 2 * Pow2(n - 1)
  }

  /** The unsigned number a bit string denotes when its first bit is the most significant. */
  function BitsValue(bits: seq<bool>): (v: nat)
    ensures v < Pow2(|bits|)
  {
    if bits == [] then 0
    else 2 * BitsValue(bits[..|bits| - 1]) + (if bits[|bits| - 1] then 1 else 0)
  }

  /** The n-bit, most-significant-first spelling of v. */
  function ToBits(v: nat, n: nat): (bits: seq<bool>)
    ensures |bits| == n
  {
    if n == 0 then [] else ToBits(v / 2, n - 1) + [v % 2 == 1]
  }

  /** Bit k (bit 0 is the least significant) of v is one. */
  predicate BitSet(v: nat, k: nat)
  {
    (v / Pow2(k)) % 2 == 1
  }

  /** The one q with q * d <= a < q * d + d is a / d. */
  lemma DivUnique(a: int, d: int, q: int)
    requires d > 0 && a >= 0 && q * d <= a < q * d + d
    ensures a / d == q
  {
    var e := a / d;
    assert e * d <= a < e * d + d;
    assert e * d < (q + 1) * d;
    MulCancel(e, q + 1, d);
    assert q * d < (e + 1) * d;
    MulCancel(q, e + 1, d);
  }

  /** A positive factor can be cancelled from a strict inequality. */
  lemma MulCancel(x: int, y: int, n: int)
    requires n > 0 && x * n < y * n
    ensures x < y
  {}

  lemma MulDouble(x: nat, p: nat)
    ensures x * (2 * p) == 2 * (x * p)
  {}

  lemma MulMonotone(x: int, y: int, d: nat)
    requires x <= y
    ensures x * d <= y * d
  {}

  lemma MulStep(n: int, v: int)
    ensures (n - 1) * v + v == n * v
  {}

  lemma DivByDouble(v: nat, b: nat, p: nat)
    requires b <= 1 && p >= 1
    ensures (2 * v + b) / (2 * p) == v / p
  {
    var q, r := v / p, v % p;
    assert v == q * p + r && 0 <= r < p;
    assert 2 * v + b == q * (2 * p) + (2 * r + b);
    DivUnique(2 * v + b, 2 * p, q);
  }

  /** Appending bits shifts what came before left by their number. */
  lemma {:induction false} BitsValueAppend(a: seq<bool>, b: seq<bool>)
    ensures BitsValue(a + b) == BitsValue(a) * Pow2(|b|) + BitsValue(b)
    decreases |b|
  {
    if b == [] {
      assert a + b == a;
    } else {
      var b' := b[..|b| - 1];
      var last := if b[|b| - 1] then 1 else 0;
      assert (a + b)[..|a + b| - 1] == a + b';
      assert BitsValue(a + b) == 2 * BitsValue(a + b') + last;
      assert BitsValue(b) == 2 * BitsValue(b') + last;
      BitsValueAppend(a, b');
      var x, p := BitsValue(a), Pow2(|b'|);
      assert Pow2(|b|) == 2 * p;
      MulDouble(x, p);
    }
  }

  /** The bit at index k of the string lands at bit |bits| - 1 - k of its value. */
  lemma {:induction false} BitsValueBit(bits: seq<bool>, k: nat)
    requires k < |bits|
    ensures BitSet(BitsValue(bits), |bits| - 1 - k) == bits[k]
    decreases |bits|
  {
    var init := bits[..|bits| - 1];
    var b := if bits[|bits| - 1] then 1 else 0;
    var x := BitsValue(init);
    assert BitsValue(bits) == 2 * x + b;
    if k < |bits| - 1 {
      BitsValueBit(init, k);
      var m := |bits| - 2 - k;
      assert Pow2(m + 1) == 2 * Pow2(m);
      DivByDouble(x, b, Pow2(m));
      assert init[k] == bits[k];
    } else {
      assert Pow2(0) == 1;
      LowBit(x, b);
    }
  }

  lemma LowBit(x: nat, b: nat)
    requires b <= 1
    ensures ((2 * x + b) / 1) % 2 == b
  {}

  /** Reading a spelling back gives the number. */
  lemma {:induction false} BitsValueToBits(v: nat, n: nat)
    requires v < Pow2(n)
    ensures BitsValue(ToBits(v, n)) == v
  {
    if n > 0 {
      BitsValueToBits(v / 2, n - 1);
      assert ToBits(v, n)[..n - 1] == ToBits(v / 2, n - 1);
    }
  }

  /** Spelling a value back gives the bits it came from. */
  lemma {:induction false} ToBitsBitsValue(bits: seq<bool>)
    ensures ToBits(BitsValue(bits), |bits|) == bits
    decreases |bits|
  {
    if bits != [] {
      var init := bits[..|bits| - 1];
      ToBitsBitsValue(init);
      assert bits == init + [bits[|bits| - 1]];
    }
  }

  /** Two bit strings of one length with the same value are the same string. */
  lemma BitsValueInjective(a: seq<bool>, b: seq<bool>)
    requires |a| == |b| && BitsValue(a) == BitsValue(b)
    ensures a == b
  {
    ToBitsBitsValue(a);
    ToBitsBitsValue(b);
  }
}
