/**
  The HX711 load-cell converter driver. One object owns the PD_SCK (power down
  and serial clock) output and the DOUT (serial data) input, and keeps the gain
  code, the tare offset and the scale.
*/
module Hx711 {
  import opened Bits
  import opened Sample
  import opened LineTrace
  import opened Averaging

  /**
    The number of trailing clock pulses that selects a requested gain: 128 and
    64 select channel A, 32 selects channel B. Any other request keeps `current`.
  */
  function GainCode(gain: int, current: nat): nat
  {
    if gain == 128 then 1
    else if gain == 64 then 3
    else if gain == 32 then 2
    else current
  }

  /** The gain a trailing-pulse count selects for the next conversion, 0 for none. */
  function GainOfCode(code: nat): int
  {
    if code == 1 then 128
    else if code == 3 then 64
    else if code == 2 then 32
    else 0
  }

  /** The three gains get three different codes, each of which selects its gain back. */
  lemma GainCodeRoundTrip(gain: int, current: nat)
    ensures gain in {128, 64, 32} ==> GainOfCode(GainCode(gain, current)) == gain
    ensures gain !in {128, 64, 32} ==> GainCode(gain, current) == current
  {}

  /** The values of n read cycles over the script s, in order. */
  function Readings(s: seq<bool>, n: nat): (r: seq<int>)
    requires CanReadTimes(s, n)
    ensures |r| == n
    ensures forall k :: 0 <= k < n ==> 0 <= r[k] < 0x100_0000
    ensures AllInts(r)
  {
    if n == 0 then [] else [Reading(Frame(s))] + Readings(Rest(s), n - 1)
  }

  /** The k-th reading is the value of the frame the k-th cycle finds on DOUT. */
  lemma {:induction false} ReadingsAreFrames(s: seq<bool>, n: nat, k: nat)
    requires CanReadTimes(s, n) && k < n
    ensures CanReadTimes(s, k) && CanRead(ScriptAfter(s, k))
    ensures Readings(s, n)[k] == Reading(Frame(ScriptAfter(s, k)))
    decreases k
  {
    if k > 0 {
      ReadingsAreFrames(Rest(s), n - 1, k - 1);
    }
  }

  /** The values of i + 1 cycles are those of i cycles and then that of cycle i. */
  lemma {:induction false} ReadingsSnoc(s: seq<bool>, i: nat)
    requires CanReadTimes(s, i + 1)
    ensures CanReadTimes(s, i) && CanRead(ScriptAfter(s, i))
    ensures Readings(s, i + 1) == Readings(s, i) + [Reading(Frame(ScriptAfter(s, i)))]
    decreases i
  {
    ScriptAfterSnoc(s, i);
    if i > 0 {
      ReadingsSnoc(Rest(s), i - 1);
    }
  }

  /** Cycle i of `times` follows on from the first i. */
  lemma NextCycle(s: seq<bool>, times: nat, pulses: nat, i: nat)
    requires CanReadTimes(s, times) && i < times
    ensures CanReadTimes(s, i) && CanReadTimes(s, i + 1) && CanRead(ScriptAfter(s, i))
    ensures ScriptAfter(s, i + 1) == Rest(ScriptAfter(s, i))
    ensures Readings(s, i + 1) == Readings(s, i) + [Reading(Frame(ScriptAfter(s, i)))]
    ensures ReadsTrace(s, pulses, i + 1) == ReadsTrace(s, pulses, i) + ReadTrace(ScriptAfter(s, i), pulses)
  {
    CanReadTimesSplit(s, times, i + 1);
    ScriptAfterSnoc(s, i);
    ReadingsSnoc(s, i);
    ReadsTraceSnoc(s, pulses, i);
  }

  /** Up to 128 reads are averaged exactly: the truncated mean, itself a possible reading. */
  lemma ReadAverageIsMean(s: seq<bool>, n: nat)
    requires 0 < n <= 128 && CanReadTimes(s, n)
    ensures Average(Readings(s, n)) == Sum(Readings(s, n)) / n
    ensures 0 <= Average(Readings(s, n)) < 0x100_0000
  {
    AverageIsMean(Readings(s, n), 0, 0xFF_FFFF);
  }

  /** If the chip presents the same reading to each of up to 128 cycles, the average is that reading. */
  lemma SteadyChipAverage(s: seq<bool>, n: nat, v: int)
    requires 0 < n <= 128 && CanReadTimes(s, n)
    requires forall k :: 0 <= k < n ==>
      CanReadTimes(s, k) && CanRead(ScriptAfter(s, k)) && Reading(Frame(ScriptAfter(s, k))) == v
    ensures Average(Readings(s, n)) == v
  {
    var r := Readings(s, n);
    forall k | 0 <= k < n
      ensures r[k] == v
    {
      ReadingsAreFrames(s, n, k);
    }
    assert 0 <= v < 0x100_0000 by {
      assert r[0] == v;
    }
    ReadingsProductFits(n, v);
    ConstantAverage(r, v);
  }

  /** Up to 128 copies of a reading add up without leaving the int range. */
  lemma ReadingsProductFits(n: nat, v: int)
    requires 0 < n <= 128 && 0 <= v < 0x100_0000
    ensures IsInt(n * v)
  {
    MulMonotone(n, 128, v);
  }

  /** data[m] as Read fills it: the bits shifted in (2 - m) bytes after the first. */
  function DataByte(u: seq<bool>, m: int): bv8
    requires 0 <= m < 3 && 24 <= |u|
  {
    PackByte(u[8 * (2 - m)..8 * (3 - m)])
  }

  /** Where byte j of the data starts and ends in the script. */
  lemma ByteSlices(u: seq<bool>, j: int)
    requires 0 <= j < 3 && 24 <= |u|
    ensures u[8 * (2 - j)..][..8] == u[8 * (2 - j)..8 * (3 - j)]
    ensures u[8 * (2 - j)..][8..] == u[8 * (3 - j)..]
    ensures ShiftTrace(u[..8 * (3 - j)]) == ShiftTrace(u[..8 * (2 - j)]) + ShiftTrace(u[8 * (2 - j)..8 * (3 - j)])
  {
    ShiftTraceNext(u, 8 * (2 - j), 8);
  }

  /** A frame, byte by byte, within the script that follows the last busy poll. */
  lemma FrameSlices(s: seq<bool>)
    requires CanRead(s)
    ensures var u := s[BusyPrefix(s) + 1..];
      && |u| >= 24
      && Frame(s) == u[..24]
      && Frame(s)[0..8] == u[0..8] && Frame(s)[8..16] == u[8..16] && Frame(s)[16..24] == u[16..24]
      && Rest(s) == u[24..]
  {}

  /** The driver object: its calibration state and the two lines it owns. */

  class HX711 {
    /** How many clock pulses follow the 24 data bits; 0 until a listed gain is set. */
    var gain: nat
    /** The tare baseline, a 64-bit signed integer. */
    var offset: int
    /** The divisor into physical units; stored only. */
    var scale: real
    /** The level last written to PD_SCK. */
    var clock: bool
    /** Every write of PD_SCK and read of DOUT so far, in order. */
    var trace: seq<LineEvent>
    /** The DOUT levels the chip has still to present, in order. */
    var levels: seq<bool>

    ghost predicate Valid()
      reads this
    {
      && gain <= 3
      && IsLong(offset)
      && clock == ClockAfter(trace, false)
    }

    /**
      Takes the lines (PD_SCK starts low), selects the gain, which performs one
      read cycle, and clears the calibration.
    */
    constructor (chip: seq<bool>, requestedGain: int := 128)
      requires 0 <= requestedGain < 256
      requires CanRead(chip)
      ensures Valid()
      ensures gain == GainCode(requestedGain, 0)
      ensures offset == 0 && scale == 1.0
      ensures clock == false
      ensures trace == [ClockWrite(false)] + ReadTrace(chip, gain)
      ensures levels == Rest(chip)
    {
      gain := 0;
      offset := 0;
      scale := 0.0;
      clock := false;
      trace := [];
      levels := chip;
      new;
      SetGain(requestedGain);
      offset := 0;
      scale := 1.0;
    }

    /** Drives PD_SCK to `level`. */
    method WriteClock(level: bool)
      requires Valid()
      modifies this`clock, this`trace
      ensures Valid()
      ensures clock == level
      ensures trace == old(trace) + [ClockWrite(level)]
    {
      clock := level;
      trace := trace + [ClockWrite(level)];
    }

    /** Reads DOUT: the next level the chip presents. */
    method ReadData() returns (level: bool)
      requires Valid() && levels != []
      modifies this`trace, this`levels
      ensures Valid()
      ensures level == old(levels)[0]
      ensures levels == old(levels)[1..]
      ensures trace == old(trace) + [DataRead(level)]
    {
      level := levels[0];
      levels := levels[1..];
      assert (trace + [DataRead(level)])[..|trace|] == trace;
      trace := trace + [DataRead(level)];
    }

    /** Drives PD_SCK low and answers whether DOUT is low, that is, a result is ready. */
    method Ready() returns (ready: bool)
      requires Valid() && levels != []
      modifies this`clock, this`trace, this`levels
      ensures Valid()
      ensures ready == !old(levels)[0]
      ensures levels == old(levels)[1..]
      ensures trace == old(trace) + [ClockWrite(false), DataRead(old(levels)[0])]
      ensures clock == false
    {
      WriteClock(false);
      var bit := ReadData();
      ready := !bit;
    }

    /**
      Maps the requested gain to its trailing-pulse count, keeping the old count
      for any other value, then performs a read cycle so the chip takes it up.
    */
    method SetGain(requested: int)
      requires Valid() && 0 <= requested < 256 && CanRead(levels)
      modifies this`gain, this`clock, this`trace, this`levels
      ensures Valid()
      ensures gain == GainCode(requested, old(gain))
      ensures trace == old(trace) + [ClockWrite(false)] + ReadTrace(old(levels), gain)
      ensures levels == Rest(old(levels))
      ensures clock == false
    {
      if requested == 128 {
        gain := 1;
      } else if requested == 64 {
        gain := 3;
      } else if requested == 32 {
        gain := 2;
      }
      WriteClock(false);
      var _ := Read();
    }

    /** Polls Ready until DOUT goes low. */
    method WaitReady()
      requires Valid() && CanRead(levels)
      modifies this`clock, this`trace, this`levels
      ensures Valid()
      ensures levels == old(levels)[BusyPrefix(old(levels)) + 1..]
      ensures trace == old(trace) + PollTrace(old(levels)[..BusyPrefix(old(levels)) + 1])
    {
      ghost var s, t := levels, trace;
      assert s[..0] == [];
      var ready := Poll(s, t, 0);
      ghost var polls := 1;
      while !ready
        invariant Valid()
        invariant 1 <= polls <= BusyPrefix(s) + 1
        invariant levels == s[polls..]
        invariant trace == t + PollTrace(s[..polls])
        invariant ready <==> polls == BusyPrefix(s) + 1
        modifies this`clock, this`trace, this`levels
        decreases |levels|
      {
        ready := Poll(s, t, polls);
        polls := polls + 1;
      }
    }

    /**
      One turn of the polling loop: a call of Ready at the given place of the
      script, which answers true exactly at the end of the busy prefix.
    */
    method Poll(ghost s: seq<bool>, ghost t: seq<LineEvent>, ghost polls: nat) returns (ready: bool)
      requires Valid() && polls <= BusyPrefix(s) < |s|
      requires levels == s[polls..] && trace == t + PollTrace(s[..polls])
      modifies this`clock, this`trace, this`levels
      ensures Valid()
      ensures levels == s[polls + 1..]
      ensures trace == t + PollTrace(s[..polls + 1])
      ensures ready <==> polls == BusyPrefix(s)
    {
      PollTraceSnoc(s, polls);
      BusyLevel(s, polls);
      AppendAssoc(t, PollTrace(s[..polls]), [ClockWrite(false), DataRead(s[polls])]);
      ready := Ready();
    }

    /**
      Shifts eight bits into data[j], most significant first: for each, PD_SCK
      high, read DOUT, OR the bit into place, PD_SCK low.
    */
    method ShiftInByte(data: array<bv8>, j: int)
      requires Valid() && 0 <= j < data.Length && data[j] == 0 && 8 <= |levels|
      modifies data, this`clock, this`trace, this`levels
      ensures Valid()
      ensures data[j] == PackByte(old(levels)[..8])
      ensures forall m :: 0 <= m < data.Length && m != j ==> data[m] == old(data[m])
      ensures levels == old(levels)[8..]
      ensures trace == old(trace) + ShiftTrace(old(levels)[..8])
    {
      ghost var u, t := levels, trace;
      PlacedNothing(u);
      var i := 8;
      while i != 0
        invariant Valid()
        invariant 0 <= i <= 8
        invariant levels == u[8 - i..]
        invariant trace == t + ShiftTrace(u[..8 - i])
        invariant data[j] == Placed(u[0..8 - i], i)
        invariant forall m :: 0 <= m < data.Length && m != j ==> data[m] == old(data[m])
        modifies data, this`clock, this`trace, this`levels
      {
        i := i - 1;
        ShiftBit(data, j, i, u, t, 7 - i);
      }
      PlacedAll(u[0..8]);
      assert u[0..8] == u[..8];
    }

    /**
      One turn of the shift-in loop: PD_SCK high, read DOUT, OR the bit into
      data[j] at bit i, PD_SCK low.
    */
    method ShiftBit(data: array<bv8>, j: int, i: int, ghost u: seq<bool>, ghost t: seq<LineEvent>, ghost n: nat)
      requires Valid() && 0 <= j < data.Length && 0 <= i < 8 && n + i == 7 && 8 <= |u|
      requires levels == u[n..] && trace == t + ShiftTrace(u[..n])
      requires data[j] == Placed(u[0..n], i + 1)
      modifies data, this`clock, this`trace, this`levels
      ensures Valid()
      ensures levels == u[n + 1..]
      ensures trace == t + ShiftTrace(u[..n + 1])
      ensures data[j] == Placed(u[0..n + 1], i)
      ensures forall m :: 0 <= m < data.Length && m != j ==> data[m] == old(data[m])
    {
      ShiftTraceStep(t, u, n);
      assert u[n..][1..] == u[n + 1..];
      WriteClock(true);
      var bit := ReadData();
      var bitValue: bv8 := if bit then 1 else 0;
      ShiftInBit(u, 0, n, i, data[j], bitValue);
      data[j] := OrBit(data[j], bitValue, i);
      WriteClock(false);
    }

    /** Shifts the 24 data bits into three bytes, data[2] first. */
    method ShiftInData() returns (data: array<bv8>)
      requires Valid() && 24 <= |levels|
      modifies this`clock, this`trace, this`levels
      ensures Valid()
      ensures fresh(data) && data.Length == 3
      ensures forall m :: 0 <= m < 3 ==> data[m] == DataByte(old(levels), m)
      ensures levels == old(levels)[24..]
      ensures trace == old(trace) + ShiftTrace(old(levels)[..24])
    {
      ghost var u, t := levels, trace;
      data := new bv8[3];
      var j := 3;
      while j != 0
        invariant Valid()
        invariant 0 <= j <= 3
        invariant levels == u[8 * (3 - j)..]
        invariant trace == t + ShiftTrace(u[..8 * (3 - j)])
        invariant j <= 2 ==> data[2] == DataByte(u, 2)
        invariant j <= 1 ==> data[1] == DataByte(u, 1)
        invariant j <= 0 ==> data[0] == DataByte(u, 0)
        modifies data, this`clock, this`trace, this`levels
      {
        j := j - 1;
        ShiftByteAt(data, j, u, t);
      }
    }

    /** One turn of ShiftInData's loop: clears data[j] and shifts data byte j into it. */
    method ShiftByteAt(data: array<bv8>, j: int, ghost u: seq<bool>, ghost t: seq<LineEvent>)
      requires Valid() && data.Length == 3 && 0 <= j < 3 && 24 <= |u|
      requires levels == u[8 * (2 - j)..] && trace == t + ShiftTrace(u[..8 * (2 - j)])
      modifies data, this`clock, this`trace, this`levels
      ensures Valid()
      ensures levels == u[8 * (3 - j)..]
      ensures trace == t + ShiftTrace(u[..8 * (3 - j)])
      ensures data[j] == DataByte(u, j)
      ensures forall m :: 0 <= m < 3 && m != j ==> data[m] == old(data[m])
    {
      data[j] := 0;
      ByteSlices(u, j);
      AppendAssoc(t, ShiftTrace(u[..8 * (2 - j)]), ShiftTrace(u[8 * (2 - j)..8 * (3 - j)]));
      ShiftInByte(data, j);
    }

    /** Gives `gain` more clock pulses, which select the channel and gain of the next conversion. */
    method PulseGain()
      requires Valid()
      modifies this`clock, this`trace
      ensures Valid()
      ensures trace == old(trace) + PulseTrace(gain)
    {
      ghost var t := trace;
      var k := 0;
      while k < gain
        invariant Valid()
        invariant 0 <= k <= gain
        invariant trace == t + PulseTrace(k)
        modifies this`clock, this`trace
      {
        WriteClock(true);
        WriteClock(false);
        k := k + 1;
      }
    }

    /**
      Waits until the chip is ready, shifts in 24 bits, most significant byte and
      bit first, gives `gain` more clock pulses, and returns the result with the
      top bit inverted.
    */
    method Read() returns (result: int)
      requires Valid() && CanRead(levels)
      modifies this`clock, this`trace, this`levels
      ensures Valid()
      ensures result == Reading(Frame(old(levels)))
      ensures levels == Rest(old(levels))
      ensures trace == old(trace) + ReadTrace(old(levels), gain)
      ensures clock == false
    {
      ghost var s, t := levels, trace;
      FrameSlices(s);
      WaitReady();
      var data := ShiftInData();
      PulseGain();

      ghost var d2, d1, d0 := data[2], data[1], data[0];
      data[2] := data[2] ^ 0x80;
      result := Assemble(data[2], data[1], data[0]) as int;

      ReadingFromBytes(Frame(s), d2, d1, d0);
      AppendAssoc(t, PollTrace(s[..BusyPrefix(s) + 1]), ShiftTrace(Frame(s)));
      AppendAssoc(t, PollTrace(s[..BusyPrefix(s) + 1]) + ShiftTrace(Frame(s)), PulseTrace(gain));
      ClockAfterAppend(t, ReadTrace(s, gain), false);
      ReadTraceShape(s, gain, ClockAfter(t, false));
    }

    /**
      One turn of ReadAverage's loop: Read, as cycle i of a run of `times` cycles
      over the script s that began with the events t, added to the int sum.
    */
    method ReadCycle(ghost s: seq<bool>, ghost t: seq<LineEvent>, ghost times: nat, ghost i: nat, sum: int)
      returns (next: int)
      requires Valid() && CanReadTimes(s, times) && i < times
      requires CanReadTimes(s, i) && levels == ScriptAfter(s, i) && trace == t + ReadsTrace(s, gain, i)
      requires sum == WrappedSum(Readings(s, i))
      modifies this`clock, this`trace, this`levels
      ensures Valid() && clock == false
      ensures CanReadTimes(s, i + 1) && levels == ScriptAfter(s, i + 1)
      ensures trace == t + ReadsTrace(s, gain, i + 1)
      ensures next == WrappedSum(Readings(s, i + 1))
    {
      NextCycle(s, times, gain, i);
      AppendAssoc(t, ReadsTrace(s, gain, i), ReadTrace(levels, gain));
      var r := Read();
      WrappedSumSnoc(Readings(s, i), r);
      next := AddInt(sum, r);
    }

    /** Reads `times` times and returns the sum, an int, divided by `times`. */
    method ReadAverage(times: int := 10) returns (average: int)
      requires Valid() && 0 < times < 256 && CanReadTimes(levels, times)
      modifies this`clock, this`trace, this`levels
      ensures Valid()
      ensures average == Average(Readings(old(levels), times))
      ensures levels == ScriptAfter(old(levels), times)
      ensures trace == old(trace) + ReadsTrace(old(levels), gain, times)
      ensures clock == false
    {
      ghost var s, t := levels, trace;
      var sum := 0;
      var i := 0;
      while i < times
        invariant Valid()
        invariant 0 <= i <= times
        invariant CanReadTimes(s, i)
        invariant levels == ScriptAfter(s, i)
        invariant trace == t + ReadsTrace(s, gain, i)
        invariant sum == WrappedSum(Readings(s, i))
        invariant i > 0 ==> clock == false
        modifies this`clock, this`trace, this`levels
      {
        sum := ReadCycle(s, t, times, i, sum);
        i := i + 1;
      }
      average := TruncDiv(sum, times);
      AverageOfSum(Readings(s, times), sum);
    }

    /** ReadAverage's average less the offset, in 64-bit arithmetic. */
    method GetValue(times: int := 1) returns (value: int)
      requires Valid() && 0 < times < 256 && CanReadTimes(levels, times)
      modifies this`clock, this`trace, this`levels
      ensures Valid()
      ensures value == SubLong(Average(Readings(old(levels), times)), offset)
      ensures IsInt(offset) ==> value == Average(Readings(old(levels), times)) - offset
      ensures levels == ScriptAfter(old(levels), times)
      ensures trace == old(trace) + ReadsTrace(old(levels), gain, times)
    {
      var average := ReadAverage(times);
      value := SubLong(average, offset);
    }

    /** Takes the average of `times` reads as the new tare offset. */
    method Tare(times: int := 10)
      requires Valid() && 0 < times < 256 && CanReadTimes(levels, times)
      modifies this`offset, this`clock, this`trace, this`levels
      ensures Valid()
      ensures offset == Average(Readings(old(levels), times))
      ensures levels == ScriptAfter(old(levels), times)
      ensures trace == old(trace) + ReadsTrace(old(levels), gain, times)
    {
      offset := ReadAverage(times);
    }

    /** Sets the tare offset directly. */
    method SetOffset(value: int)
      requires Valid() && IsLong(value)
      modifies this`offset
      ensures Valid() && offset == value
    {
      offset := value;
    }

    /** Sets the scale directly. */
    method SetScale(value: real)
      requires Valid()
      modifies this`scale
      ensures Valid() && scale == value
    {
      scale := value;
    }

    /** Drives PD_SCK low, then high, and leaves it high: the chip powers down. */
    method PowerDown()
      requires Valid()
      modifies this`clock, this`trace
      ensures Valid()
      ensures clock == true
      ensures trace == old(trace) + [ClockWrite(false), ClockWrite(true)]
    {
      WriteClock(false);
      WriteClock(true);
    }

    /** Drives PD_SCK low: the chip wakes up. */
    method PowerUp()
      requires Valid()
      modifies this`clock, this`trace
      ensures Valid()
      ensures clock == false
      ensures trace == old(trace) + [ClockWrite(false)]
    {
      WriteClock(false);
    }
  }
}
