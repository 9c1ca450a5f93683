/**
  One conversion result of the HX711: the 24 data bits shifted in most-significant
  bit first, and the number the driver makes of them.
*/
module Sample {
  import opened Bits

  /** The chip's 24-bit two's-complement code read as a signed number. */
  function ToSigned24(raw: nat): (v: int)
    requires raw < 0x100_0000
    ensures -0x80_0000 <= v < 0x80_0000
    ensures v >= 0 <==> raw < 0x80_0000
    ensures v == raw || v == raw - 0x100_0000
  {
    if raw < 0x80_0000 then raw else raw - 0x100_0000
  }

  lemma Pow2Constants()
    ensures Pow2(8) == 0x100 && Pow2(16) == 0x1_0000
    ensures Pow2(23) == 0x80_0000 && Pow2(24) == 0x100_0000
  {}

  /**
    What the driver returns for the 24 data bits, in the order they were sampled:
    the chip's signed result moved up by 2^23, so never negative.
  */
  function Reading(frame: seq<bool>): (r: int)
    requires |frame| == 24
    ensures 0 <= r < 0x100_0000
  {
    Pow2Constants();
    ToSigned24(BitsValue(frame)) + 0x80_0000
  }

  /** Adding 2^23 to the signed result is the same as inverting the first (sign) bit. */
  lemma ReadingFlipsSignBit(frame: seq<bool>)
    requires |frame| == 24
    ensures Reading(frame) == BitsValue([!frame[0]] + frame[1..])
  {
    Pow2Constants();
    assert frame == [frame[0]] + frame[1..];
    BitsValueAppend([frame[0]], frame[1..]);
    BitsValueAppend([!frame[0]], frame[1..]);
    assert [frame[0]][..0] == [] && [!frame[0]][..0] == [];
  }

  /** The k-th sampled bit is bit 23 - k of the reading; only the first one arrives inverted. */
  lemma ReadingBitPlacement(frame: seq<bool>, k: nat)
    requires |frame| == 24 && k < 24
    ensures BitSet(Reading(frame), 23 - k) == (if k == 0 then !frame[0] else frame[k])
  {
    ReadingFlipsSignBit(frame);
    BitsValueBit([!frame[0]] + frame[1..], k);
  }

  /** Different bit patterns give different readings. */
  lemma ReadingInjective(f: seq<bool>, g: seq<bool>)
    requires |f| == 24 && |g| == 24 && Reading(f) == Reading(g)
    ensures f == g
  {
    ReadingFlipsSignBit(f);
    ReadingFlipsSignBit(g);
    BitsValueInjective([!f[0]] + f[1..], [!g[0]] + g[1..]);
    assert f == [f[0]] + f[1..] && g == [g[0]] + g[1..];
    assert f[0] == g[0] by {
      assert ([!f[0]] + f[1..])[0] == ([!g[0]] + g[1..])[0];
    }
    assert f[1..] == ([!f[0]] + f[1..])[1..];
  }

  /** The bits the chip shifts out for a given reading. */
  function FrameFor(r: int): (frame: seq<bool>)
    requires 0 <= r < 0x100_0000
    ensures |frame| == 24
  {
    var bits := ToBits(r, 24);
    [!bits[0]] + bits[1..]
  }

  /** FrameFor is the inverse of Reading. */
  lemma ReadingFrameFor(r: int)
    requires 0 <= r < 0x100_0000
    ensures Reading(FrameFor(r)) == r
  {
    Pow2Constants();
    var bits := ToBits(r, 24);
    var frame := FrameFor(r);
    ReadingFlipsSignBit(frame);
    assert [!frame[0]] + frame[1..] == bits;
    BitsValueToBits(r, 24);
  }

  /** The result of 24 bits, one for each shifted-in bit pattern. */
  lemma ReadingExamples()
    ensures Reading(ToBits(0x80_0000, 24)) == 0
    ensures Reading(ToBits(0x12_3456, 24)) == 0x92_3456
    ensures Reading(ToBits(0x7F_FFFF, 24)) == 0xFF_FFFF
    ensures Reading(ToBits(0xFF_FFFF, 24)) == 0x7F_FFFF
    ensures Reading(ToBits(0, 24)) == 0x80_0000
  {
    Pow2Constants();
    BitsValueToBits(0x80_0000, 24);
    BitsValueToBits(0x12_3456, 24);
    BitsValueToBits(0x7F_FFFF, 24);
    BitsValueToBits(0xFF_FFFF, 24);
    BitsValueToBits(0, 24);
  }

  /**
    The byte the shift-in loop builds from up to eight bits: each new bit is
    OR-ed in one place to the right of the previous ones.
  */
  function PackByte(bits: seq<bool>): bv8
    requires |bits| <= 8
  {
    if bits == [] then 0
    else (PackByte(bits[..|bits| - 1]) << 1) | (if bits[|bits| - 1] then 1 else 0)
  }

  /** One more bit shifts the packed byte left and ORs the bit in. */
  lemma PackByteSnoc(s: seq<bool>, a: nat, n: nat)
    requires n < 8 && a + n < |s|
    ensures PackByte(s[a..a + n + 1]) == (PackByte(s[a..a + n]) << 1) | (if s[a + n] then 1 else 0)
  {
    assert s[a..a + n + 1][..n] == s[a..a + n];
  }

  /** The first bits of a byte packed into the top of it, i places from the bottom. */
  function Placed(bits: seq<bool>, i: nat): bv8
    requires |bits| <= 8 && i <= 8
  {
    PackByte(bits) << i
  }

  lemma PlacedNothing(s: seq<bool>)
    ensures Placed(s[0..0], 8) == 0
  {
    assert s[0..0] == [];
  }

  lemma PlacedAll(bits: seq<bool>)
    requires |bits| <= 8
    ensures Placed(bits, 0) == PackByte(bits)
  {}

  /** The driver's update of a byte: OR the bit, shifted i places left, into x. */
  function OrBit(x: bv8, bitValue: bv8, i: nat): bv8
    requires i < 8
  {
    x | (bitValue << i)
  }

  /**
    The shift-in step: with the first n bits of a byte placed at the top of x,
    OR-ing bit n in at position i = 7 - n places the first n + 1 bits.
  */
  lemma ShiftInBit(s: seq<bool>, a: nat, n: nat, i: nat, x: bv8, b: bv8)
    requires n + i == 7 && a + n < |s|
    requires x == Placed(s[a..a + n], i + 1)
    requires b == if s[a + n] then 1 else 0
    ensures OrBit(x, b, i) == Placed(s[a..a + n + 1], i)
  {
    PackByteSnoc(s, a, n);
    ShiftInStep(PackByte(s[a..a + n]), b, 8 - n);
  }

  lemma ShiftInStep(v: bv8, b: bv8, n: nat)
    requires 1 <= n <= 8 && b <= 1
    ensures (v << n) | (b << (n - 1)) == ((v << 1) | b) << (n - 1)
  {}

  lemma DoubleByte(y: bv8, b: bv8)
    requires y as int < 128 && b <= 1
    ensures ((y << 1) | b) as int == 2 * (y as int) + b as int
  {}

  /** The packed byte is the number the bits denote. */
  lemma {:induction false} PackByteValue(bits: seq<bool>)
    requires |bits| <= 8
    ensures PackByte(bits) as int == BitsValue(bits)
    decreases |bits|
  {
    if bits != [] {
      var init := bits[..|bits| - 1];
      PackByteValue(init);
      assert BitsValue(init) < 128 by {
        assert Pow2(7) == 128;
        PowMonotone(|init|, 7);
      }
      var y := PackByte(init);
      var b: bv8 := if bits[|bits| - 1] then 1 else 0;
      assert PackByte(bits) == (y << 1) | b;
      DoubleByte(y, b);
    }
  }

  lemma {:induction false} PowMonotone(m: nat, n: nat)
    requires m <= n
    ensures Pow2(m) <= Pow2(n)
    decreases n
  {
    if m < n {
      PowMonotone(m, n - 1);
    }
  }

  /** The assembly of the three bytes into the driver's int, high byte first. */
  function Assemble(d2: bv8, d1: bv8, d0: bv8): bv32
  {
    ((d2 as bv32) << 16) | ((d1 as bv32) << 8) | (d0 as bv32)
  }

  lemma AssembleValue(d2: bv8, d1: bv8, d0: bv8)
    ensures Assemble(d2, d1, d0) as int == d2 as int * 0x1_0000 + d1 as int * 0x100 + d0 as int
  {
    assert Assemble(d2, d1, d0) == ((d2 as bv32) << 16) | ((d1 as bv32) << 8) | (d0 as bv32);
  }

  lemma FlipTop(x: bv8)
    ensures (x ^ 0x80) as int == if x as int >= 0x80 then x as int - 0x80 else x as int + 0x80
  {}

  /**
    Inverting the top bit of the most significant byte and assembling the three
    bytes gives the reading of the 24 bits they were shifted in from.
  */
  lemma ReadingFromBytes(frame: seq<bool>, d2: bv8, d1: bv8, d0: bv8)
    requires |frame| == 24
    requires d2 == PackByte(frame[0..8])
    requires d1 == PackByte(frame[8..16])
    requires d0 == PackByte(frame[16..24])
    ensures Assemble(d2 ^ 0x80, d1, d0) as int == Reading(frame)
  {
    PackByteValue(frame[0..8]);
    PackByteValue(frame[8..16]);
    PackByteValue(frame[16..24]);
    assert frame[0..8] == frame[..8] && frame[16..24] == frame[16..];
    ReadingFromByteValues(frame, d2, d1, d0);
  }

  lemma ReadingFromByteValues(frame: seq<bool>, d2: bv8, d1: bv8, d0: bv8)
    requires |frame| == 24
    requires d2 as int == BitsValue(frame[..8])
    requires d1 as int == BitsValue(frame[8..16])
    requires d0 as int == BitsValue(frame[16..])
    ensures Assemble(d2 ^ 0x80, d1, d0) as int == Reading(frame)
  {
    BytesValue(frame);
    AssembleValue(d2 ^ 0x80, d1, d0);
    FlipTop(d2);
    FlippedAssembly(BitsValue(frame), d2 as int, d1 as int, d0 as int, (d2 ^ 0x80) as int);
  }

  /**
    The bytes of a 24-bit code, with 0x80 added to or taken from the top one so
    as to invert its top bit, make up the signed value plus 2^23.
  */
  lemma FlippedAssembly(raw: int, a2: int, a1: int, a0: int, f2: int)
    requires 0 <= a2 < 0x100 && 0 <= a1 < 0x100 && 0 <= a0 < 0x100
    requires raw == a2 * 0x1_0000 + a1 * 0x100 + a0
    requires f2 == if a2 >= 0x80 then a2 - 0x80 else a2 + 0x80
    ensures 0 <= raw < 0x100_0000
    ensures f2 * 0x1_0000 + a1 * 0x100 + a0 == ToSigned24(raw) + 0x80_0000
  {
    if a2 >= 0x80 {
      assert f2 * 0x1_0000 == a2 * 0x1_0000 - 0x80_0000;
    } else {
      assert f2 * 0x1_0000 == a2 * 0x1_0000 + 0x80_0000;
    }
  }

  /** The 24 bits denote their three bytes, most significant first. */
  lemma BytesValue(frame: seq<bool>)
    requires |frame| == 24
    ensures BitsValue(frame) == BitsValue(frame[..8]) * 0x1_0000 + BitsValue(frame[8..16]) * 0x100 + BitsValue(frame[16..])
  {
    Pow2Constants();
    assert frame == frame[..8] + frame[8..16] + frame[16..];
    BitsValueAppend(frame[..8], frame[8..16]);
    BitsValueAppend(frame[..8] + frame[8..16], frame[16..]);
  }
}
