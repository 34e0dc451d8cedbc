# Handset protocol auto-detection (ExpressLRS transmitter, ESP32)

This project models `AutoDetect`, the placeholder handset that an ExpressLRS transmitter
runs on its RC signal pin until it knows whether the attached radio speaks PPM or CRSF.
Each poll (`handleInput`) takes at most one block of RMT capture items from the ring
buffer. Each item is scored into the signed counter `input_detect`:

- +1 for a long pulse: either duration above 12800 ticks.
- -1 for a short pulse: otherwise, either duration non-zero and below 3200 ticks.
- 0 for anything else.

The source writes these thresholds as 400 us and 100 us times a nominal 32 ticks per
microsecond. The RMT clock divisor is `80 / 32`, which integer division truncates to 2, so
the 80 MHz clock actually gives 40 ticks per microsecond. The real thresholds are therefore
320 us and 80 us (`ActualThresholds`). The model reasons in ticks only.

After the whole block, a counter above 100 selects PPM and one below -100 selects CRSF.
The detector then uninstalls the RMT driver and builds the chosen handler. It gives the
handler the RC-data callback, the parameter-update callback and the other four callbacks,
starts it, then sets its packet interval, and makes it the process-wide `handset`. An empty
poll clears a non-zero counter once the unsigned test `now - 1000 > lastDetect` holds.

Files:

- `Wrappers.dfy`: the `Option` type.
- `Handset.dfy`: the handler as seen from outside. A handler is its protocol plus the
  calls it received, in order. `Replay` says what a handler holds after those calls.
- `AutoDetect.dfy`: the thresholds in RMT ticks, the per-item classification, the counter
  over a block, the decision, the unsigned idle test and the `AutoDetect` class. Its
  `HandleInput` loop mirrors the C++ loop. A `Board` object stands for the global `handset`
  pointer, the RMT driver's installed state and an ordered trace of install, uninstall and
  construct events.

Time is `millis()` passed in as a `uint32` parameter, and the idle test is unsigned 32-bit
subtraction (`IdleExpired`). Four cases cover every pair of `now` and `lastDetect`:

- `now` at least 1000 and no wrap of `millis()` since the last block: the test means "more
  than 1000 ms since the last block" (`IdleExpiredAfterFirstSecond`).
- `now` below 1000 and no wrap since the last block (the first second after boot): the
  subtraction wraps, so every empty poll counts as idle, even 1 ms after a block
  (`IdleExpiredDuringFirstSecond`).
- `now` below 1000 and `millis()` wrapped since the last block: the wrapped subtraction
  measures the time across the wrap, so the test again means "more than 1000 ms since the
  last block" (`IdleExpiredAcrossWrapDuringFirstSecond`).
- `now` at least 1000 and `millis()` wrapped since the last block (after about 49.7 days of
  uptime): an empty poll never counts as idle until the clock passes the last block's time
  again (`IdleNeverExpiresAfterClockWrap`).

The received length is in bytes: a block carries `lengthBytes / 4` items (`Block.WellFormed`).

Three facts about the code are worth stating plainly:

- The code gives each item at most one vote, and the long-pulse test wins. The two
  durations of an item are not voted independently.
- Long pulses push the counter up toward PPM. Short pulses push it down toward CRSF.
- The decision reads the counter after the whole block, not at the first item that crosses
  the margin.

## Model

| member | source | states |
|---|---|---|
| `AutoDetection.ThresholdsInTicks` | src/lib/Handset/AutoDetect.cpp:13-17 | the RMT clock divisor is 80/32 = 2 by integer division, and the thresholds are 12800 and 3200 ticks |
| `AutoDetection.ActualThresholds` | src/lib/Handset/AutoDetect.cpp:13-17 | with the truncated divisor the 80 MHz clock gives 40 ticks per microsecond, not the nominal 32, so the thresholds are 320 us and 80 us |
| `AutoDetection.Classify` | src/lib/Handset/AutoDetect.cpp:76-86 | an item is a long pulse iff some duration exceeds 12800 ticks. It gives no evidence iff both durations are 0 or in [3200, 12800]. A short pulse has a duration in (0, 3200). The three outcomes exclude each other, so there is one vote at most and the long test wins |
| `AutoDetection.NetVotesIsLongMinusShort` | src/lib/Handset/AutoDetect.cpp:73-87 | the counter moves over a block by the number of long-pulse items minus the number of short-pulse items, and every item is exactly one of the three kinds |
| `AutoDetection.NetVotes` | src/lib/Handset/AutoDetect.cpp:73-87 | the counter's net change over a block: +1 per long-pulse item, -1 per short-pulse item, 0 otherwise (the `++` and `--` at lines 78 and 85); a block of n items moves the counter by at most n in either direction |
| `AutoDetection.InertBatchLeavesCounter` | src/lib/Handset/AutoDetect.cpp:73-87 | items whose durations are all 0 or in [3200, 12800] leave the counter unchanged |
| `AutoDetection.NetVotesAppend` | src/lib/Handset/AutoDetect.cpp:73-87 | scoring two consecutive stretches of a block adds up to scoring the whole block |
| `AutoDetection.UniformBatch` | src/lib/Handset/AutoDetect.cpp:73-87 | a block whose items all give the same evidence moves the counter by its length times that vote |
| `AutoDetection.Decide` | src/lib/Handset/AutoDetect.cpp:88-99 | CRSF iff counter < -100, PPM iff counter > 100, no decision iff the counter is in [-100, 100]; the outcomes are mutually exclusive |
| `AutoDetection.Sub32` | src/lib/Handset/AutoDetect.cpp:103 | unsigned 32-bit subtraction: the plain difference when it is non-negative, otherwise wrapped by 2^32 |
| `AutoDetection.IdleExpired` | src/lib/Handset/AutoDetect.cpp:103 | the unsigned test `now - 1000 > lastDetect` as written: compared against `now - 1000` when `now` is at least 1000, and against the wrapped `now + 2^32 - 1000` otherwise |
| `AutoDetection.IdleExpiredAfterFirstSecond` | src/lib/Handset/AutoDetect.cpp:103 | once `now` is at least 1000, the idle test holds iff `now - lastDetect > 1000` as plain integers, which is elapsed time only while the clock has not wrapped since the last block |
| `AutoDetection.IdleExpiredDuringFirstSecond` | src/lib/Handset/AutoDetect.cpp:103 | while `now` is below 1000 the subtraction wraps, so the idle test holds for any earlier last block, even 1 ms earlier |
| `AutoDetection.IdleExpiredAcrossWrapDuringFirstSecond` | src/lib/Handset/AutoDetect.cpp:103 | while `now` is below 1000 and `millis()` has wrapped since the last block, the test holds iff more than 1000 ms passed across the wrap |
| `AutoDetection.IdleNeverExpiresAfterClockWrap` | src/lib/Handset/AutoDetect.cpp:103 | once `millis()` has wrapped past the last block's time and `now` is at least 1000, the idle test never holds |
| `AutoDetection.AutoDetect.Begin` | src/lib/Handset/AutoDetect.cpp:15-29 | installs the RMT driver, recorded as an install event, and leaves the counter at 0 |
| `AutoDetection.AutoDetect.End` | src/lib/Handset/AutoDetect.cpp:31-34 | uninstalls the RMT driver and builds no handler |
| `AutoDetection.AutoDetect.IsArmed` | src/lib/Handset/AutoDetect.cpp:36-39 | the detector never reports armed |
| `AutoDetection.AutoDetect.MigrateTo` | src/lib/Handset/AutoDetect.cpp:41-50 | gives the newly built handler the RC-data callback, the parameter-update callback, the other four callbacks, Begin and the packet interval, in that order. The detector becomes terminally Migrated and the global handset becomes that handler, which holds exactly the registration |
| `AutoDetection.AutoDetect.StartPPM` | src/lib/Handset/AutoDetect.cpp:52-55 | constructs a PPM handler, recorded as a construct event, and hands over to it |
| `AutoDetection.AutoDetect.StartCRSF` | src/lib/Handset/AutoDetect.cpp:57-60 | constructs a CRSF handler, recorded as a construct event, and hands over to it |
| `AutoDetection.AutoDetect.HandleInput` | src/lib/Handset/AutoDetect.cpp:62-109 | with a block: `lastDetect := now` and the counter moves by the block's net votes. If the post-block counter leaves [-100, 100], the RMT driver is uninstalled before the handler is constructed and the hand-over happens; otherwise nothing else changes. With no block: `lastDetect` and the board are unchanged, no decision is taken, and the counter becomes 0 iff the unsigned idle test holds and it was non-zero. While detecting, the counter stays in [-100, 100] after every poll |
| `Handset.NewHandler` | src/lib/Handset/AutoDetect.cpp:52-60 | a newly constructed handler holds no callbacks, no interval and is not started |
| `Handset.Deliver` | src/lib/Handset/AutoDetect.cpp:43-47 | a handler that receives one more call holds what it held with that call applied on top |
| `Handset.HandoffDeliversRegistration` | src/lib/Handset/AutoDetect.cpp:41-47 | round trip: a new handler given the hand-over calls holds exactly the detector's six callbacks and packet interval, and is started |
| `Handset.HandoffPrefixes` | src/lib/Handset/AutoDetect.cpp:43-47 | the handler is started only once all six callbacks are in place, and before its packet interval is set |
| `AutoDetection.FreshDetectorDecisions` | src/lib/Handset/AutoDetect.cpp:73-99 | from a cleared counter, a block of 101 long pulses decides PPM and one of 101 short pulses decides CRSF; 100 of either decide nothing |
| `AutoDetection.DecisionUsesPostBatchValue` | src/lib/Handset/AutoDetect.cpp:73-99 | 101 long pulses followed by 101 short pulses in one block decide nothing, although the first 101 alone would decide PPM |
| `AutoDetection.PowerOnWithPPM` | src/lib/Handset/AutoDetect.cpp:62-99 | Begin and then one 404-byte block of long pulses leave a started PPM handler holding the registration. The board trace is install, uninstall, construct |
| `AutoDetection.BeginThenEnd` | src/lib/Handset/AutoDetect.cpp:15-39 | Begin then End: never armed, the detector stays the current handset, and the trace is install then uninstall |
| `AutoDetection.SignalLostClearsCounter` | src/lib/Handset/AutoDetect.cpp:62-108 | a counter left at 3 by a block is cleared by an empty poll 1001 ms later, and detection goes on |

## Left out

- RMT driver configuration (clock divisor, filter, idle threshold, ring-buffer handle, `rmt_rx_start`): hardware I/O. Install and uninstall appear only as events in the board trace.
- The ring-buffer receive and the return of the block: foreign calls. The received block is the `rx` parameter, and `None` stands for a null pointer. The code hands the block back to the ring buffer (line 70) before it reads the items (lines 73-87); the model treats `rx` as an immutable value, so it assumes that memory is not overwritten while the loop reads it.
- `millis()`: the `now` parameter.
- `DBGLN` logging.
- The internals of `PPMHandset` and `CRSFHandset`: a handler is its protocol and the log of calls it receives.
- `delete this` and pointer ownership. They become the terminal `Migrated` phase plus assignment of the board's `handset`. Every detector method requires the `Detecting` phase, because calling a deleted object is undefined.
- The RMT item bit layout (level bits, 15-bit duration fields): durations are naturals.
- The callback setters and fields of the `Handset` base class, and the `AutoDetect` header: they are not part of this model. The setters only store values, so `registration` stands for what they stored. The constructor assumes that both `lastDetect` and `input_detect` start at 0.
- The width of `input_detect`: it is an unbounded integer. `HandleInput` keeps it within [-100, 100] between polls, and one block moves it by at most its item count (`NetVotes`). The driver is installed with a 1000-byte ring buffer (line 24), so a block holds at most 250 items and the counter stays within [-350, 350]: no overflow arises. The model's `Block` itself does not bound its size.
- The idle window: the model promises only the code's unsigned test `now - 1000 > lastDetect`, not "more than 1000 ms since the last block". The two differ during the first second after boot and after `millis()` wraps, as the lemmas above show.
