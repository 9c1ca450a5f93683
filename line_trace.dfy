/**
  The two lines between the driver and the HX711: PD_SCK, which the driver
  writes, and DOUT, which it reads. What the chip presents on DOUT is a script
  of levels, one consumed per read; what the driver does is a log of events.
*/
module LineTrace {
  import opened Bits

  /** One action on the lines: a write of PD_SCK or a read of DOUT, with its level. */
  datatype LineEvent = ClockWrite(level: bool) | DataRead(level: bool)

  /** The PD_SCK level after the events, when it stood at `init` before them. */
  function ClockAfter(t: seq<LineEvent>, init: bool): bool
  {
    if t == [] then init
    else if t[|t| - 1].ClockWrite? then t[|t| - 1].level
    else ClockAfter(t[..|t| - 1], init)
  }

  /** The DOUT levels read while PD_SCK stood at `phase`, in the order read. */
  function SampledAt(t: seq<LineEvent>, init: bool, phase: bool): seq<bool>
  {
    if t == [] then []
    else
      var prev := t[..|t| - 1];
      var e := t[|t| - 1];
      SampledAt(prev, init, phase) + (if e.DataRead? && ClockAfter(prev, init) == phase then [e.level] else [])
  }

  /** How many times PD_SCK was driven high. */
  function HighWrites(t: seq<LineEvent>): nat
  {
    if t == [] then 0
    else HighWrites(t[..|t| - 1]) + (if t[|t| - 1] == ClockWrite(true) then 1 else 0)
  }

  lemma {:induction false} ClockAfterAppend(a: seq<LineEvent>, b: seq<LineEvent>, init: bool)
    ensures ClockAfter(a + b, init) == ClockAfter(b, ClockAfter(a, init))
    decreases |b|
  {
    if b == [] {
      assert a + b == a;
    } else {
      assert (a + b)[..|a + b| - 1] == a + b[..|b| - 1];
      ClockAfterAppend(a, b[..|b| - 1], init);
    }
  }

  lemma {:induction false} SampledAtAppend(a: seq<LineEvent>, b: seq<LineEvent>, init: bool, phase: bool)
    ensures SampledAt(a + b, init, phase) == SampledAt(a, init, phase) + SampledAt(b, ClockAfter(a, init), phase)
    decreases |b|
  {
    if b == [] {
      assert a + b == a;
    } else {
      var b' := b[..|b| - 1];
      assert (a + b)[..|a + b| - 1] == a + b';
      SampledAtAppend(a, b', init, phase);
      ClockAfterAppend(a, b', init);
    }
  }

  lemma {:induction false} HighWritesAppend(a: seq<LineEvent>, b: seq<LineEvent>)
    ensures HighWrites(a + b) == HighWrites(a) + HighWrites(b)
    decreases |b|
  {
    if b == [] {
      assert a + b == a;
    } else {
      assert (a + b)[..|a + b| - 1] == a + b[..|b| - 1];
      HighWritesAppend(a, b[..|b| - 1]);
    }
  }

  // ---------------------------------------------------------------------------
  // The script of DOUT levels seen by one read cycle

  /** How many high ("conversion in progress") levels come before the first low one. */
  function BusyPrefix(s: seq<bool>): (n: nat)
    ensures n <= |s|
  {
    if s == [] || !s[0] then 0 else 1 + BusyPrefix(s[1..])
  }

  /** The busy prefix is all high, and it stops at a low level or at the end. */
  lemma {:induction false} BusyPrefixLevels(s: seq<bool>)
    ensures forall i :: 0 <= i < BusyPrefix(s) ==> s[i]
    ensures BusyPrefix(s) < |s| ==> !s[BusyPrefix(s)]
  {
    if s != [] && s[0] {
      BusyPrefixLevels(s[1..]);
    }
  }

  /** Polling at a place within the busy prefix reads high exactly while the prefix lasts. */
  lemma BusyLevel(s: seq<bool>, p: nat)
    requires p <= BusyPrefix(s) < |s|
    ensures s[p] <==> p < BusyPrefix(s)
  {
    BusyPrefixLevels(s);
  }

  /** The chip turns ready within the script and then has 24 data bits to shift out. */
  predicate CanRead(s: seq<bool>)
  {
    BusyPrefix(s) + 25 <= |s|
  }

  /** The 24 data bits that follow the first low level. */
  function Frame(s: seq<bool>): (frame: seq<bool>)
    requires CanRead(s)
    ensures |frame| == 24
  {
    s[BusyPrefix(s) + 1 .. BusyPrefix(s) + 25]
  }

  /** What is left of the script after one read cycle. */
  function Rest(s: seq<bool>): (rest: seq<bool>)
    requires CanRead(s)
    ensures |rest| < |s|
  {
    s[BusyPrefix(s) + 25..]
  }

  /** The script lasts for n read cycles in a row. */
  predicate CanReadTimes(s: seq<bool>, n: nat)
  {
    n == 0 || (CanRead(s) && CanReadTimes(Rest(s), n - 1))
  }

  /** What is left of the script after n read cycles. */
  function ScriptAfter(s: seq<bool>, n: nat): seq<bool>
    requires CanReadTimes(s, n)
  {
    if n == 0 then s else ScriptAfter(Rest(s), n - 1)
  }

  // ---------------------------------------------------------------------------
  // The events of one read cycle

  /** Readiness polls: each drives PD_SCK low, then reads DOUT. */
  function PollTrace(samples: seq<bool>): seq<LineEvent>
  {
    if samples == [] then []
    else PollTrace(samples[..|samples| - 1]) + [ClockWrite(false), DataRead(samples[|samples| - 1])]
  }

  /** Shifting bits in: for each, PD_SCK high, read DOUT, PD_SCK low. */
  function ShiftTrace(bits: seq<bool>): seq<LineEvent>
  {
    if bits == [] then []
    else ShiftTrace(bits[..|bits| - 1]) + [ClockWrite(true), DataRead(bits[|bits| - 1]), ClockWrite(false)]
  }

  /** n clock pulses with no reads: PD_SCK high, then low. */
  function PulseTrace(n: nat): seq<LineEvent>
  {
    if n == 0 then [] else PulseTrace(n - 1) + [ClockWrite(true), ClockWrite(false)]
  }

  /**
    One read cycle: poll until DOUT is low, shift in the 24 data bits, then give
    `pulses` more clock pulses.
  */
  function ReadTrace(s: seq<bool>, pulses: nat): seq<LineEvent>
    requires CanRead(s)
  {
    PollTrace(s[..BusyPrefix(s) + 1]) + ShiftTrace(Frame(s)) + PulseTrace(pulses)
  }

  /** n read cycles in a row: the first n - 1, then the last one where they left off. */
  function ReadsTrace(s: seq<bool>, pulses: nat, n: nat): seq<LineEvent>
    requires CanReadTimes(s, n)
  {
    if n == 0 then []
    else
      ScriptAfterSnoc(s, n - 1);
      ReadsTrace(s, pulses, n - 1) + ReadTrace(ScriptAfter(s, n - 1), pulses)
  }

  /** One more poll extends the poll events by its clock write and its read. */
  lemma PollTraceSnoc(s: seq<bool>, n: nat)
    requires n < |s|
    ensures PollTrace(s[..n + 1]) == PollTrace(s[..n]) + [ClockWrite(false), DataRead(s[n])]
  {
    assert s[..n + 1][..n] == s[..n];
  }

  /** One more bit extends the shift events by its pulse and its read. */
  lemma ShiftTraceSnoc(s: seq<bool>, n: nat)
    requires n < |s|
    ensures ShiftTrace(s[..n + 1]) == ShiftTrace(s[..n]) + [ClockWrite(true), DataRead(s[n]), ClockWrite(false)]
  {
    assert s[..n + 1][..n] == s[..n];
  }

  /** Shifting in a prefix of the script, then the next k bits. */
  lemma ShiftTraceNext(u: seq<bool>, p: nat, k: nat)
    requires p + k <= |u|
    ensures u[p..][..k] == u[p..p + k]
    ensures u[p..][k..] == u[p + k..]
    ensures ShiftTrace(u[..p + k]) == ShiftTrace(u[..p]) + ShiftTrace(u[p..p + k])
  {
    assert u[..p + k] == u[..p] + u[p..p + k];
    ShiftTraceAppend(u[..p], u[p..p + k]);
  }

  lemma {:induction false} ShiftTraceAppend(a: seq<bool>, b: seq<bool>)
    ensures ShiftTrace(a + b) == ShiftTrace(a) + ShiftTrace(b)
    decreases |b|
  {
    if b == [] {
      assert a + b == a;
    } else {
      var init := b[..|b| - 1];
      ShiftTraceAppend(a, init);
      assert (a + b)[..|a + b| - 1] == a + init;
      assert (a + b)[|a + b| - 1] == b[|b| - 1];
    }
  }

  /** The three events of one shifted-in bit, written one at a time after t. */
  lemma ShiftTraceStep(t: seq<LineEvent>, s: seq<bool>, n: nat)
    requires n < |s|
    ensures t + ShiftTrace(s[..n + 1])
         == ((t + ShiftTrace(s[..n]) + [ClockWrite(true)]) + [DataRead(s[n])]) + [ClockWrite(false)]
  {
    ShiftTraceSnoc(s, n);
  }

  lemma AppendAssoc(a: seq<LineEvent>, b: seq<LineEvent>, c: seq<LineEvent>)
    ensures (a + b) + c == a + (b + c)
  {}

  /** The first i of n read cycles are read cycles too, and the script lasts for the others. */
  lemma {:induction false} CanReadTimesSplit(s: seq<bool>, n: nat, i: nat)
    requires CanReadTimes(s, n) && i <= n
    ensures CanReadTimes(s, i)
    ensures CanReadTimes(ScriptAfter(s, i), n - i)
    decreases i
  {
    if i > 0 {
      assert CanRead(s) && CanReadTimes(Rest(s), n - 1);
      CanReadTimesSplit(Rest(s), n - 1, i - 1);
      assert ScriptAfter(s, i) == ScriptAfter(Rest(s), i - 1);
    }
  }

  /** Cycle i + 1 starts where cycle i leaves off. */
  lemma {:induction false} ScriptAfterSnoc(s: seq<bool>, i: nat)
    requires CanReadTimes(s, i + 1)
    ensures CanReadTimes(s, i) && CanRead(ScriptAfter(s, i))
    ensures ScriptAfter(s, i + 1) == Rest(ScriptAfter(s, i))
    decreases i
  {
    CanReadTimesSplit(s, i + 1, i);
    if i > 0 {
      ScriptAfterSnoc(Rest(s), i - 1);
    }
  }

  /** The events of i + 1 cycles are those of i cycles and then those of cycle i. */
  lemma {:induction false} ReadsTraceSnoc(s: seq<bool>, pulses: nat, i: nat)
    requires CanReadTimes(s, i + 1)
    ensures CanReadTimes(s, i) && CanRead(ScriptAfter(s, i))
    ensures ReadsTrace(s, pulses, i + 1) == ReadsTrace(s, pulses, i) + ReadTrace(ScriptAfter(s, i), pulses)
    decreases i
  {
    ScriptAfterSnoc(s, i);
  }

  // ---------------------------------------------------------------------------
  // What each part of a read cycle does on the lines

  /** Every poll reads DOUT with the clock low, and the clock is left low. */
  lemma {:induction false} PollTraceShape(samples: seq<bool>, init: bool)
    ensures ClockAfter(PollTrace(samples), init) == (if samples == [] then init else false)
    ensures SampledAt(PollTrace(samples), init, false) == samples
    ensures SampledAt(PollTrace(samples), init, true) == []
    ensures HighWrites(PollTrace(samples)) == 0
    decreases |samples|
  {
    if samples != [] {
      var init' := samples[..|samples| - 1];
      var tail := [ClockWrite(false), DataRead(samples[|samples| - 1])];
      PollTraceShape(init', init);
      var lvl := ClockAfter(PollTrace(init'), init);
      ClockAfterAppend(PollTrace(init'), tail, init);
      SampledAtAppend(PollTrace(init'), tail, init, false);
      SampledAtAppend(PollTrace(init'), tail, init, true);
      HighWritesAppend(PollTrace(init'), tail);
      assert tail[..1] == [ClockWrite(false)];
      assert [ClockWrite(false)][..0] == [];
      assert samples == init' + [samples[|samples| - 1]];
    }
  }

  /** Every data bit is read with the clock high, one per pulse, and the clock is left low. */
  lemma {:induction false} ShiftTraceShape(bits: seq<bool>, init: bool)
    ensures ClockAfter(ShiftTrace(bits), init) == (if bits == [] then init else false)
    ensures SampledAt(ShiftTrace(bits), init, true) == bits
    ensures SampledAt(ShiftTrace(bits), init, false) == []
    ensures HighWrites(ShiftTrace(bits)) == |bits|
    decreases |bits|
  {
    if bits != [] {
      var init' := bits[..|bits| - 1];
      var tail := [ClockWrite(true), DataRead(bits[|bits| - 1]), ClockWrite(false)];
      ShiftTraceShape(init', init);
      ClockAfterAppend(ShiftTrace(init'), tail, init);
      SampledAtAppend(ShiftTrace(init'), tail, init, false);
      SampledAtAppend(ShiftTrace(init'), tail, init, true);
      HighWritesAppend(ShiftTrace(init'), tail);
      ShiftPulseShape(bits[|bits| - 1], ClockAfter(ShiftTrace(init'), init));
      assert bits == init' + [bits[|bits| - 1]];
    }
  }

  /** One shift pulse: PD_SCK high, read DOUT, PD_SCK low. */
  lemma ShiftPulseShape(b: bool, init: bool)
    ensures var pulse := [ClockWrite(true), DataRead(b), ClockWrite(false)];
      && ClockAfter(pulse, init) == false
      && SampledAt(pulse, init, true) == [b]
      && SampledAt(pulse, init, false) == []
      && HighWrites(pulse) == 1
  {
    var pulse := [ClockWrite(true), DataRead(b), ClockWrite(false)];
    var high := [ClockWrite(true)];
    var sample := high + [DataRead(b)];
    assert pulse[..2] == sample && sample[..1] == high && high[..0] == [];
    assert ClockAfter(high, init);
    assert SampledAt(high, init, true) == [] && SampledAt(high, init, false) == [];
    assert SampledAt(sample, init, true) == [b] && SampledAt(sample, init, false) == [];
    assert HighWrites(high) == 1 && HighWrites(sample) == 1;
  }

  /** Trailing pulses read nothing, drive the clock high n times and leave it low. */
  lemma {:induction false} PulseTraceShape(n: nat, init: bool)
    ensures ClockAfter(PulseTrace(n), init) == (if n == 0 then init else false)
    ensures SampledAt(PulseTrace(n), init, true) == []
    ensures SampledAt(PulseTrace(n), init, false) == []
    ensures HighWrites(PulseTrace(n)) == n
  {
    if n > 0 {
      var tail := [ClockWrite(true), ClockWrite(false)];
      PulseTraceShape(n - 1, init);
      ClockAfterAppend(PulseTrace(n - 1), tail, init);
      SampledAtAppend(PulseTrace(n - 1), tail, init, false);
      SampledAtAppend(PulseTrace(n - 1), tail, init, true);
      HighWritesAppend(PulseTrace(n - 1), tail);
      assert tail[..1] == [ClockWrite(true)];
      assert [ClockWrite(true)][..0] == [];
    }
  }

  /**
    A read cycle polls with the clock low until the first low DOUT level, reads
    exactly the 24 data bits each with the clock high, drives the clock high
    24 + pulses times in all, and leaves it low.
  */
  lemma ReadTraceShape(s: seq<bool>, pulses: nat, init: bool)
    requires CanRead(s)
    ensures HighWrites(ReadTrace(s, pulses)) == 24 + pulses
    ensures ClockAfter(ReadTrace(s, pulses), init) == false
    ensures SampledAt(ReadTrace(s, pulses), init, true) == Frame(s)
    ensures SampledAt(ReadTrace(s, pulses), init, false) == s[..BusyPrefix(s) + 1]
    ensures var polled := SampledAt(ReadTrace(s, pulses), init, false);
      && |polled| >= 1 && !polled[|polled| - 1]
      && forall i :: 0 <= i < |polled| - 1 ==> polled[i]
  {
    var polls := PollTrace(s[..BusyPrefix(s) + 1]);
    var shift := ShiftTrace(Frame(s));
    var pulse := PulseTrace(pulses);
    BusyPrefixLevels(s);
    PollTraceShape(s[..BusyPrefix(s) + 1], init);
    ShiftTraceShape(Frame(s), false);
    PulseTraceShape(pulses, false);
    ClockAfterAppend(polls, shift, init);
    ClockAfterAppend(polls + shift, pulse, init);
    HighWritesAppend(polls, shift);
    HighWritesAppend(polls + shift, pulse);
    SampledAtAppend(polls, shift, init, true);
    SampledAtAppend(polls + shift, pulse, init, true);
    SampledAtAppend(polls, shift, init, false);
    SampledAtAppend(polls + shift, pulse, init, false);
  }

  /** n read cycles drive the clock high n * (24 + pulses) times. */
  lemma {:induction false} ReadsTraceHighWrites(s: seq<bool>, pulses: nat, n: nat)
    requires CanReadTimes(s, n)
    ensures HighWrites(ReadsTrace(s, pulses, n)) == n * (24 + pulses)
    decreases n
  {
    if n > 0 {
      ScriptAfterSnoc(s, n - 1);
      var earlier, last := ReadsTrace(s, pulses, n - 1), ReadTrace(ScriptAfter(s, n - 1), pulses);
      assert ReadsTrace(s, pulses, n) == earlier + last;
      ReadsTraceHighWrites(s, pulses, n - 1);
      ReadTraceShape(ScriptAfter(s, n - 1), pulses, false);
      HighWritesAppend(earlier, last);
      MulStep(n, 24 + pulses);
    }
  }
}
