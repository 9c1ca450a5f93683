# HX711 load-cell converter driver, modelled in Dafny

This project models the Netduino driver for the HX711, a 24-bit analog-to-digital
converter for load cells (class `HX711` in `Alonf.Netduino.Sensors/HX711.cs`).
The driver owns two lines:

- PD_SCK, the power-down and serial clock output it writes;
- DOUT, the serial data input it reads.

It keeps three pieces of state: a gain code, a tare offset and a scale.

The lines are modelled as data kept in the driver object (`Hx711.HX711`):

- `clock` is the level last written to PD_SCK.
- `levels` is the script of DOUT levels the chip still has to present. Each read of DOUT consumes one level.
- `trace` logs every PD_SCK write and DOUT read, in order.

Each driver operation is an imperative method over these fields and `gain`,
`offset` and `scale`. Read's three-byte buffer is an `array<bv8>` filled in place
by the same countdown loops as the driver. Each method's contract states:

- the new trace, as a function of the old script;
- the value returned, as a function of the old script;
- what is left of the script.

Lemmas then prove what these functions mean:

- Readiness polls sample DOUT with the clock low.
- Each of the 24 data bits is sampled in its own clock-high phase and lands at bit 23 − k of the result.
- A read cycle drives the clock high 24 + gain times and leaves it low.
- The result is the chip's two's-complement value plus 2^23, so it always lies in [0, 2^24).

The averaging arithmetic follows C# exactly:

- an unchecked 32-bit `int` sum;
- a division that truncates toward zero;
- a 64-bit `long` subtraction in GetValue.

With at most 128 reads the sum cannot wrap, and the average is the truncated mean
of the reads. With 129 reads of the largest value, 2^24 − 1, the sum wraps and
the average comes out negative (`Averaging.AverageOverflows`). The driver accepts
any byte as the number of reads, and the model keeps this behaviour as written.

The files are:

- `bits.dfy`: bit strings and the numbers they denote.
- `sample.dfy`: one 24-bit conversion result and how the driver packs it.
- `line_trace.dfy`: the line events of polling, shifting in and pulsing.
- `averaging.dfy`: C# `int`/`long` arithmetic and the average.
- `hx711.dfy`: the driver class.

## Model

| member | source | states |
|---|---|---|
| Hx711.HX711.constructor | Alonf.Netduino.Sensors/HX711.cs:18-25 | The requested gain defaults to 128. The gain code is what SetGain makes of the requested gain from code 0. Offset is 0, scale is 1 and the clock is low. The lines saw one clock-low write followed by a full read cycle. |
| Hx711.HX711.Ready | Alonf.Netduino.Sensors/HX711.cs:30-38 | Drives PD_SCK low, then reads one DOUT level, and answers true exactly when that level is low. Only the clock, the log and the script change. |
| Hx711.HX711.SetGain | Alonf.Netduino.Sensors/HX711.cs:43-59 | The new gain code is 1, 3 or 2 for a request of 128, 64 or 32, and the old code otherwise. The lines then see a clock-low write and one read cycle with the new code. |
| Hx711.GainCodeRoundTrip | Alonf.Netduino.Sensors/HX711.cs:45-56 | Each of 128, 64 and 32 gets a pulse count that selects it back. Any other request leaves the current code unchanged. |
| Hx711.HX711.WaitReady | Alonf.Netduino.Sensors/HX711.cs:65-67 | Polls until DOUT reads low. It consumes exactly the busy levels and the first low level, and logs one poll for each. |
| Hx711.HX711.ShiftInByte | Alonf.Netduino.Sensors/HX711.cs:74-82 | data[j] ends up holding the next eight DOUT levels, first one in the top bit. The other bytes are unchanged. Each bit is logged as clock high, read, clock low. |
| Hx711.HX711.ShiftInData | Alonf.Netduino.Sensors/HX711.cs:69-83 | Fills a new 3-byte buffer from the next 24 levels, data[2] first. Each byte holds its own eight levels. |
| Hx711.HX711.PulseGain | Alonf.Netduino.Sensors/HX711.cs:86-90 | Adds exactly `gain` high/low clock pulses to the log and reads nothing. |
| Hx711.HX711.Read | Alonf.Netduino.Sensors/HX711.cs:61-94 | Returns the reading of the 24 bits after the first low DOUT level. Consumes exactly one read cycle of the script and logs exactly that cycle's events. Leaves the clock low. |
| Sample.ReadingFromBytes | Alonf.Netduino.Sensors/HX711.cs:91-92 | Inverting the top bit of data[2] and assembling data[2], data[1] and data[0] high byte first gives the reading of the 24 shifted-in bits. |
| Sample.PackByteValue | Alonf.Netduino.Sensors/HX711.cs:75-82 | The byte the shift-in loop builds denotes the same number as its bits, read most significant first. |
| Sample.ShiftInBit | Alonf.Netduino.Sensors/HX711.cs:80 | OR-ing bit n of a byte in at position 7 − n extends the bits already placed at the top by that one bit. |
| Sample.ReadingFlipsSignBit | Alonf.Netduino.Sensors/HX711.cs:91-93 | The chip's signed 24-bit value plus 2^23 is the 24 bits with the first (sign) bit inverted. |
| Sample.ReadingBitPlacement | Alonf.Netduino.Sensors/HX711.cs:69-93 | The k-th sampled bit is bit 23 − k of the result. Only the first bit arrives inverted. |
| Sample.ReadingInjective | Alonf.Netduino.Sensors/HX711.cs:91-93 | Different 24-bit frames give different results. |
| Sample.ReadingFrameFor | Alonf.Netduino.Sensors/HX711.cs:91-93 | Every value in [0, 2^24) is the result of the frame FrameFor gives for it, so Read can return any value in that range. |
| Sample.ReadingExamples | Alonf.Netduino.Sensors/HX711.cs:91-93 | Worked results: the chip's −2^23 reads 0, its 0 reads 2^23, 2^23 − 1 reads 2^24 − 1, −1 reads 2^23 − 1, and 0x123456 reads 0x923456. |
| LineTrace.BusyPrefixLevels | Alonf.Netduino.Sensors/HX711.cs:65-67 | The levels the polling loop skips are all high, and the one it stops at is low. |
| LineTrace.PollTraceShape | Alonf.Netduino.Sensors/HX711.cs:30-38 | Every poll reads DOUT with the clock low. Polls drive the clock high zero times and leave it low. |
| LineTrace.ShiftTraceShape | Alonf.Netduino.Sensors/HX711.cs:74-82 | Each shifted-in bit is read with the clock high, one read per pulse, in order. No read happens with the clock low, and the clock is left low. |
| LineTrace.PulseTraceShape | Alonf.Netduino.Sensors/HX711.cs:86-90 | The trailing pulses drive the clock high n times, read nothing and leave the clock low. |
| LineTrace.ReadTraceShape | Alonf.Netduino.Sensors/HX711.cs:61-94 | A read cycle drives the clock high 24 + gain times. With the clock high it reads exactly the 24 data bits. With the clock low it reads only the polled levels, high until the last one, which is low. It leaves the clock low. |
| LineTrace.ReadsTraceHighWrites | Alonf.Netduino.Sensors/HX711.cs:99-101 | n read cycles drive the clock high n × (24 + gain) times. |
| Hx711.HX711.ReadAverage | Alonf.Netduino.Sensors/HX711.cs:97-104 | `times` defaults to 10. Performs exactly `times` read cycles. Returns the wrapped int sum of their readings divided by `times`, truncated toward zero. |
| Hx711.ReadingsAreFrames | Alonf.Netduino.Sensors/HX711.cs:100-101 | The k-th value ReadAverage adds up is the reading of the frame the k-th cycle finds on DOUT. |
| Averaging.AddIntWraps | Alonf.Netduino.Sensors/HX711.cs:101 | The `+=` on the int sum is the exact sum wrapped into 32-bit two's complement. |
| Averaging.WrappedSumIsWrappedTotal | Alonf.Netduino.Sensors/HX711.cs:99-101 | Accumulating read by read with wrap-around gives the true total, wrapped once. |
| Averaging.TruncDivBounds | Alonf.Netduino.Sensors/HX711.cs:103 | The int division bounds the quotient q by q·d ≤ a < q·d + d for a ≥ 0, and q·d − d < a ≤ q·d for a < 0. That is division truncated toward zero. |
| Averaging.TruncDivIsQuotient | Alonf.Netduino.Sensors/HX711.cs:103 | The int division is the Euclidean quotient of the magnitude of a, carrying the sign of a. |
| Averaging.TruncDivExact | Alonf.Netduino.Sensors/HX711.cs:103 | Dividing n·v by n gives v, for either sign of v. |
| Averaging.AverageIsMean | Alonf.Netduino.Sensors/HX711.cs:97-104 | For at most 128 reads in [lo, hi] within [0, 2^24), the average is the exact sum divided by the count, and lies in [lo, hi]. |
| Averaging.ConstantAverage | Alonf.Netduino.Sensors/HX711.cs:97-104 | When every read is v and the total fits an int, the average is v. |
| Averaging.AverageOverflows | Alonf.Netduino.Sensors/HX711.cs:99-103 | 129 reads of 2^24 − 1 wrap the int sum, and the average is negative although every read is positive. |
| Hx711.ReadAverageIsMean | Alonf.Netduino.Sensors/HX711.cs:97-104 | For up to 128 read cycles, ReadAverage's result is the truncated mean of the readings and is itself in [0, 2^24). |
| Hx711.SteadyChipAverage | Alonf.Netduino.Sensors/HX711.cs:97-104 | If every one of up to 128 cycles finds a frame with the same reading v, ReadAverage returns v. |
| Hx711.HX711.GetValue | Alonf.Netduino.Sensors/HX711.cs:108-111 | `times` defaults to 1. Returns ReadAverage's result minus the offset in 64-bit long arithmetic. Whenever the offset is an int, this is the exact difference. |
| Averaging.SubLongWraps | Alonf.Netduino.Sensors/HX711.cs:110 | The long subtraction is the exact difference wrapped into 64-bit two's complement. |
| Hx711.HX711.Tare | Alonf.Netduino.Sensors/HX711.cs:124-128 | `times` defaults to 10. The offset becomes ReadAverage's result for the same reads. Gain and scale are untouched. |
| Hx711.HX711.SetOffset | Alonf.Netduino.Sensors/HX711.cs:120 | The offset becomes the given long. |
| Hx711.HX711.SetScale | Alonf.Netduino.Sensors/HX711.cs:121 | The scale becomes the given value. |
| Hx711.HX711.PowerDown | Alonf.Netduino.Sensors/HX711.cs:131-135 | Writes PD_SCK low, then high, and leaves it high. Offset, scale and gain are untouched. |
| Hx711.HX711.PowerUp | Alonf.Netduino.Sensors/HX711.cs:138-141 | Writes PD_SCK low and leaves it low. Offset, scale and gain are untouched. |

## Left out

- The GPIO classes `OutputPort` and `InputPort`: they are foreign hardware calls. The model replaces them by the clock field, the DOUT script and the event log.
- Timing: the model has no clock. This covers pulse widths, the time PD_SCK may stay high before the chip powers down, and the warning that a debugger can disturb readings.
- The static sharing of the two lines between all driver objects: each model object owns its own lines, and interference between objects is not modelled.
- GetUnits and the arithmetic on `Scale`: they are double-precision floating point. The scale is a `real` that is stored and never used.
- GetValue: returns the 64-bit difference as an integer. The conversion of that long to `double` is floating point and is not modelled.
- Read: requires that the script holds a whole read cycle (the chip turns ready, then presents 24 bits). A chip that never turns ready keeps the driver's polling loop spinning forever, and the model does not represent that.
- ReadAverage: requires `times > 0`. With 0 the C# division throws, and the model does not represent exceptions. The same holds for GetValue and Tare, which call it.
- The demo program under `HX711WeightReadingSample` is not part of this model: it is I/O and timing around the driver.
