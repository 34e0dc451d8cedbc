/** The transmitter-side handset auto-detector: it watches the RC signal pin through the
    RMT capture peripheral, scores each captured item as evidence for PPM or for CRSF,
    and once the score leaves [-100, 100] after a batch it hands every registered callback
    to a newly built PPM or CRSF handler and retires itself. */
module AutoDetection {
  import opened Wrappers
  import opened Handset

  /** The nominal RMT resolution the thresholds are written in: 32 ticks per microsecond. */
  const RmtTicksPerUs: nat := 32
  /** RMT clock divisor from the 80 MHz APB clock; integer division. */
  const ClockDivisor: nat := 80 / RmtTicksPerUs
  /** A duration above this many ticks (nominally 400 us) is a long pulse. */
  const LongPulseTicks: nat := 400 * RmtTicksPerUs
  /** A non-zero duration below this many ticks (nominally 100 us) is a short pulse. */
  const ShortPulseTicks: nat := 100 * RmtTicksPerUs
  /** The 80 MHz clock divided by ClockDivisor: the real number of ticks per microsecond. */
  const ActualTicksPerUs: nat := 80 / ClockDivisor
  /** The counter must leave [-DecisionMargin, DecisionMargin] for a decision. */
  const DecisionMargin: int := 100
  /** An empty poll this long after the last batch clears the counter. */
  const IdleResetMs: nat := 1000
  /** One RMT item occupies four bytes of the ring buffer. */
  const BytesPerItem: nat := 4

  const Uint32Modulus: int := 0x1_0000_0000
  newtype uint32 = x: int | 0 <= x < 0x1_0000_0000

  lemma ThresholdsInTicks()
    ensures ClockDivisor == 2 && LongPulseTicks == 12800 && ShortPulseTicks == 3200
  {
  }

  /** Because the divisor is truncated, the capture runs at 40 ticks per microsecond, not 32:
      the long threshold is really 320 us and the short one 80 us. */
  lemma ActualThresholds()
    ensures ActualTicksPerUs == 40 && ActualTicksPerUs != RmtTicksPerUs
    ensures LongPulseTicks == 320 * ActualTicksPerUs && ShortPulseTicks == 80 * ActualTicksPerUs
  {
  }

  /** One RMT capture item: two consecutive level durations, in ticks. */
  datatype Item = Item(duration0: nat, duration1: nat)

  /** A block received from the RMT ring buffer: its items and its length in bytes. */
  datatype Block = Block(items: seq<Item>, lengthBytes: nat) {
    predicate WellFormed() {
      |items| == lengthBytes / BytesPerItem
    }
  }

  /** What one item says about the signal. */
  datatype Evidence = LongPulse | ShortPulse | NoEvidence

  /** A duration that is evidence for neither protocol: zero, or between the thresholds. */
  predicate Inert(d: nat) {
    d == 0 || ShortPulseTicks <= d <= LongPulseTicks
  }

  /** Each item gives at most one vote; the long-pulse test takes priority. */
  function Classify(it: Item): (e: Evidence)
    ensures e == LongPulse <==> it.duration0 > 12800 || it.duration1 > 12800
    ensures e == NoEvidence <==> Inert(it.duration0) && Inert(it.duration1)
    ensures e == ShortPulse ==> 0 < it.duration0 < 3200 || 0 < it.duration1 < 3200
  {
    if it.duration0 > LongPulseTicks || it.duration1 > LongPulseTicks then LongPulse
    else if (it.duration0 < ShortPulseTicks && it.duration0 != 0) ||
            (it.duration1 < ShortPulseTicks && it.duration1 != 0) then ShortPulse
    else NoEvidence
  }

  /** How one piece of evidence moves the counter. */
  function Vote(e: Evidence): int
  {
    match e
    case LongPulse => 1
    case ShortPulse => -1
    case NoEvidence => 0
  }

  /** The net change of the counter over a batch: +1 per long-pulse item, -1 per short-pulse
      item, 0 otherwise. A batch of n items moves the counter by at most n either way. */
  function NetVotes(items: seq<Item>): (r: int)
    ensures -|items| <= r <= |items|
  {
    if items == [] then 0
    else NetVotes(items[..|items| - 1]) + Vote(Classify(items[|items| - 1]))
  }

  /** The number of items in a batch that give evidence `e`. */
  function Count(items: seq<Item>, e: Evidence): nat
  {
    if items == [] then 0
    else Count(items[..|items| - 1], e) + (if Classify(items[|items| - 1]) == e then 1 else 0)
  }

  /** The counter moves by the number of long pulses minus the number of short pulses,
      and every item is exactly one of the three kinds. */
  lemma {:induction false} NetVotesIsLongMinusShort(items: seq<Item>)
    ensures NetVotes(items) == Count(items, LongPulse) - Count(items, ShortPulse)
    ensures Count(items, LongPulse) + Count(items, ShortPulse) + Count(items, NoEvidence) == |items|
  {
    if items != [] {
      NetVotesIsLongMinusShort(items[..|items| - 1]);
    }
  }

  /** Items whose durations are all zero or between the thresholds leave the counter unchanged. */
  lemma {:induction false} InertBatchLeavesCounter(items: seq<Item>)
    requires forall i :: 0 <= i < |items| ==> Inert(items[i].duration0) && Inert(items[i].duration1)
    ensures NetVotes(items) == 0
  {
    if items != [] {
      InertBatchLeavesCounter(items[..|items| - 1]);
    }
  }

  /** Counting over two consecutive stretches of a batch adds up. */
  lemma {:induction false} NetVotesAppend(a: seq<Item>, b: seq<Item>)
    ensures NetVotes(a + b) == NetVotes(a) + NetVotes(b)
  {
    if b != [] {
      assert (a + b)[..|a + b| - 1] == a + b[..|b| - 1];
      NetVotesAppend(a, b[..|b| - 1]);
    } else {
      assert a + b == a;
    }
  }

  /** A batch whose items all give the same evidence moves the counter by its length times that vote. */
  lemma {:induction false} UniformBatch(items: seq<Item>, e: Evidence)
    requires forall i :: 0 <= i < |items| ==> Classify(items[i]) == e
    ensures NetVotes(items) == |items| * Vote(e)
  {
    if items != [] {
      UniformBatch(items[..|items| - 1], e);
    }
  }

  /** The decision taken on the counter's value after a batch. */
  function Decide(counter: int): (d: Option<Protocol>)
    ensures d == Some(CRSF) <==> counter < -100
    ensures d == Some(PPM) <==> counter > 100
    ensures d == None <==> -100 <= counter <= 100
  {
    if counter < -DecisionMargin then Some(CRSF)
    else if counter > DecisionMargin then Some(PPM)
    else None
  }

  /** Unsigned 32-bit subtraction, as `millis()` arithmetic does it. */
  function Sub32(a: uint32, b: nat): (r: uint32)
    ensures r as int == if a as int >= b then a as int - b else a as int - b + Uint32Modulus
    requires b < Uint32Modulus
  {
    ((a as int - b) % Uint32Modulus) as uint32
  }

  /** The idle test of an empty poll, as written: `now - 1000 > lastDetect` in unsigned arithmetic. */
  function IdleExpired(now: uint32, lastDetect: uint32): (expired: bool)
    ensures expired <==> if now as int >= 1000 then now as int - 1000 > lastDetect as int
                         else now as int + Uint32Modulus - 1000 > lastDetect as int
  {
    Sub32(now, IdleResetMs) > lastDetect
  }

  /** Once the clock has passed one second, and while `millis()` has not wrapped since the last
      batch (lastDetect <= now), the test means more than one second since the last batch. */
  lemma IdleExpiredAfterFirstSecond(now: uint32, lastDetect: uint32)
    requires now as int >= 1000
    ensures IdleExpired(now, lastDetect) <==> now as int - lastDetect as int > 1000
  {
  }

  /** During the first second the subtraction wraps, so any empty poll counts as idle,
      even one a millisecond after the last batch. */
  lemma IdleExpiredDuringFirstSecond(now: uint32, lastDetect: uint32)
    requires now as int < 1000 && lastDetect <= now
    ensures IdleExpired(now, lastDetect)
  {
  }

  /** During the first second after a wrap of `millis()` (now < lastDetect), the wrapped
      subtraction measures the time across the wrap: the test holds iff more than one second
      passed since the last batch. */
  lemma IdleExpiredAcrossWrapDuringFirstSecond(now: uint32, lastDetect: uint32)
    requires now as int < 1000 && now < lastDetect
    ensures IdleExpired(now, lastDetect) <==> now as int + Uint32Modulus - lastDetect as int > 1000
  {
  }

  /** Once `millis()` has wrapped since the last batch (now < lastDetect) and `now` has reached
      1000, an empty poll never counts as idle, however long ago the batch was. */
  lemma IdleNeverExpiresAfterClockWrap(now: uint32, lastDetect: uint32)
    requires 1000 <= now as int < lastDetect as int
    ensures !IdleExpired(now, lastDetect)
  {
  }

  /** Where the detector is: still detecting, or retired in favour of a handler. */
  datatype Phase = Detecting | Migrated(protocol: Protocol)

  /** What the process-wide `handset` pointer designates. */
  datatype Current = Detector(detector: AutoDetect) | Installed(handler: Handler)

  /** Hardware and ownership events on the board, in order. */
  datatype BoardEvent = RmtInstall | RmtUninstall | Construct(protocol: Protocol)

  /** Process-wide state outside the detector: the global `handset` pointer,
      whether the RMT driver is installed on the RC signal channel, and an event trace. */
  class Board {
    var handset: Current
    var rmtInstalled: bool
    var events: seq<BoardEvent>

    constructor (initial: Current)
      ensures handset == initial && !rmtInstalled && events == []
    {
      handset := initial;
      rmtInstalled := false;
      events := [];
    }
  }

  class AutoDetect {
    /** The signed evidence counter, `input_detect`. */
    var inputDetect: int
    /** The `millis()` value of the last poll that received a block. */
    var lastDetect: uint32
    var phase: Phase
    /** The callbacks and packet interval registered on this handset by the application. */
    var registration: Registration

    /** While detecting, the counter never sits beyond the decision margin after a poll. */
    ghost predicate Valid()
      reads this
    {
      phase == Detecting ==> -DecisionMargin <= inputDetect <= DecisionMargin
    }

    constructor (r: Registration)
      ensures Valid() && phase == Detecting && registration == r
      ensures inputDetect == 0 && lastDetect == 0
    {
      inputDetect := 0;
      lastDetect := 0;
      phase := Detecting;
      registration := r;
    }

    /** Starts RMT capture on the signal pin and clears the counter. */
    method Begin(board: Board)
      requires phase == Detecting
      modifies this`inputDetect, board`rmtInstalled, board`events
      ensures Valid() && inputDetect == 0
      ensures board.rmtInstalled && board.events == old(board.events) + [RmtInstall]
    {
      board.rmtInstalled := true;
      board.events := board.events + [RmtInstall];
      inputDetect := 0;
    }

    /** Stops RMT capture; no handler is built. */
    method End(board: Board)
      requires phase == Detecting
      modifies board`rmtInstalled, board`events
      ensures !board.rmtInstalled && board.events == old(board.events) + [RmtUninstall]
    {
      board.rmtInstalled := false;
      board.events := board.events + [RmtUninstall];
    }

    /** Arming is meaningless before a protocol is chosen. */
    function IsArmed(): (armed: bool)
      ensures !armed
    {
      false
    }

    /** Copies every registration onto the newly built handler `that` in a fixed order,
        retires this detector and makes the handler the current handset. */
    method MigrateTo(that: Handler, board: Board)
      requires phase == Detecting && board.handset == Detector(this)
      requires that.received == []
      modifies this`phase, board`handset
      ensures phase == Migrated(that.protocol)
      ensures board.handset == Installed(Handler(that.protocol, HandoffCalls(registration)))
      ensures View(board.handset.handler) == Holds(registration)
      ensures board.events == old(board.events)
    {
      var h := Deliver(that, SetRCDataCallback(registration.rcData));
      h := Deliver(h, RegisterParameterUpdateCallback(registration.parameterUpdate));
      h := Deliver(h, RegisterCallbacks(registration.connected, registration.disconnected,
                                        registration.modelUpdate, registration.bindingCommand));
      h := Deliver(h, HandsetCall.Begin);
      h := Deliver(h, SetPacketInterval(registration.packetInterval));
      phase := Migrated(that.protocol);
      board.handset := Installed(h);
      HandoffDeliversRegistration(that.protocol, registration);
    }

    /** Builds a PPM handler and hands over to it. */
    method StartPPM(board: Board)
      requires phase == Detecting && board.handset == Detector(this)
      modifies this`phase, board`handset, board`events
      ensures phase == Migrated(PPM)
      ensures board.handset == Installed(Handler(PPM, HandoffCalls(registration)))
      ensures board.events == old(board.events) + [Construct(PPM)]
    {
      var that := NewHandler(PPM);
      board.events := board.events + [Construct(PPM)];
      MigrateTo(that, board);
    }

    /** Builds a CRSF handler and hands over to it. */
    method StartCRSF(board: Board)
      requires phase == Detecting && board.handset == Detector(this)
      modifies this`phase, board`handset, board`events
      ensures phase == Migrated(CRSF)
      ensures board.handset == Installed(Handler(CRSF, HandoffCalls(registration)))
      ensures board.events == old(board.events) + [Construct(CRSF)]
    {
      var that := NewHandler(CRSF);
      board.events := board.events + [Construct(CRSF)];
      MigrateTo(that, board);
    }

    /** One poll. `rx` is what the non-blocking ring-buffer receive returned (None: nothing)
        and `now` is `millis()`. A received block is scored item by item; the decision is
        taken on the counter after the whole block. An empty poll long after the last block
        clears a non-zero counter. */
    method HandleInput(rx: Option<Block>, now: uint32, board: Board)
      requires phase == Detecting && Valid()
      requires board.handset == Detector(this)
      requires rx.Some? ==> rx.value.WellFormed()
      modifies this`inputDetect, this`lastDetect, this`phase, board
      ensures Valid() && registration == old(registration)
      ensures rx.None? ==>
        && phase == Detecting
        && lastDetect == old(lastDetect)
        && inputDetect == (if IdleExpired(now, old(lastDetect)) && old(inputDetect) != 0 then 0
                           else old(inputDetect))
        && unchanged(board)
      ensures rx.Some? ==>
        && lastDetect == now
        && inputDetect == old(inputDetect) + NetVotes(rx.value.items)
        && match Decide(inputDetect)
           case None =>
             phase == Detecting && unchanged(board)
           case Some(p) =>
             && phase == Migrated(p)
             && board.handset == Installed(Handler(p, HandoffCalls(registration)))
             && !board.rmtInstalled
             && board.events == old(board.events) + [RmtUninstall, Construct(p)]
    {
      if rx.Some? {
        var block := rx.value;
        lastDetect := now;
        var length := block.lengthBytes / BytesPerItem;
        var i := 0;
        while i < length
          invariant 0 <= i <= length
          invariant phase == Detecting && lastDetect == now && registration == old(registration)
          invariant inputDetect == old(inputDetect) + NetVotes(block.items[..i])
          invariant unchanged(board)
        {
          var item := block.items[i];
          if item.duration0 > LongPulseTicks || item.duration1 > LongPulseTicks {
            inputDetect := inputDetect + 1;
          } else if (item.duration0 < ShortPulseTicks && item.duration0 != 0) ||
                    (item.duration1 < ShortPulseTicks && item.duration1 != 0) {
            inputDetect := inputDetect - 1;
          }
          assert block.items[..i + 1][..i] == block.items[..i];
          i := i + 1;
        }
        assert block.items[..length] == block.items;
        if inputDetect < -DecisionMargin {
          board.rmtInstalled := false;
          board.events := board.events + [RmtUninstall];
          StartCRSF(board);
        } else if inputDetect > DecisionMargin {
          board.rmtInstalled := false;
          board.events := board.events + [RmtUninstall];
          StartPPM(board);
        }
      } else {
        if IdleExpired(now, lastDetect) && inputDetect != 0 {
          inputDetect := 0;
        }
      }
    }
  }

  /** A batch of items, each with one duration of 14400 ticks and one zero duration. */
  function LongTrain(n: nat): seq<Item>
  {
    seq(n, _ => Item(14400, 0))
  }

  /** A batch of items, each with two durations of 1600 ticks. */
  function ShortTrain(n: nat): seq<Item>
  {
    seq(n, _ => Item(1600, 1600))
  }

  /** From a cleared counter, 101 long pulses decide PPM and 101 short pulses decide CRSF,
      while 100 of either decide nothing. */
  lemma FreshDetectorDecisions()
    ensures Decide(NetVotes(LongTrain(101))) == Some(PPM)
    ensures Decide(NetVotes(ShortTrain(101))) == Some(CRSF)
    ensures Decide(NetVotes(LongTrain(100))) == None
    ensures Decide(NetVotes(ShortTrain(100))) == None
  {
    UniformBatch(LongTrain(101), LongPulse);
    UniformBatch(ShortTrain(101), ShortPulse);
    UniformBatch(LongTrain(100), LongPulse);
    UniformBatch(ShortTrain(100), ShortPulse);
  }

  /** The decision looks only at the counter after the whole batch: a batch whose first
      101 items would have crossed the PPM margin, followed by 101 short pulses, decides nothing. */
  lemma DecisionUsesPostBatchValue()
    ensures Decide(NetVotes(LongTrain(101))) == Some(PPM)
    ensures Decide(NetVotes(LongTrain(101) + ShortTrain(101))) == None
  {
    UniformBatch(LongTrain(101), LongPulse);
    UniformBatch(ShortTrain(101), ShortPulse);
    NetVotesAppend(LongTrain(101), ShortTrain(101));
  }

  /** Power-on with a PPM transmitter: after Begin, one block of 101 long pulses
      (404 bytes) hands the application's registration to a started PPM handler. */
  method PowerOnWithPPM(r: Registration) returns (h: Handler, events: seq<BoardEvent>)
    ensures h == Handler(PPM, HandoffCalls(r)) && View(h) == Holds(r)
    ensures events == [RmtInstall, RmtUninstall, Construct(PPM)]
  {
    var detector := new AutoDetect(r);
    var board := new Board(Detector(detector));
    detector.Begin(board);
    UniformBatch(LongTrain(101), LongPulse);
    detector.HandleInput(Some(Block(LongTrain(101), 404)), 5000, board);
    h := board.handset.handler;
    events := board.events;
    HandoffDeliversRegistration(PPM, r);
  }

  /** Begin followed by End: the detector is never armed and no handler is built. */
  method BeginThenEnd(r: Registration) returns (armed: bool, current: Current, events: seq<BoardEvent>)
    ensures !armed && current.Detector?
    ensures events == [RmtInstall, RmtUninstall]
  {
    var detector := new AutoDetect(r);
    var board := new Board(Detector(detector));
    detector.Begin(board);
    detector.End(board);
    armed := detector.IsArmed();
    current := board.handset;
    events := board.events;
  }

  /** A counter left non-zero by a block is cleared by an empty poll more than a second
      later, and the detector keeps detecting. */
  method SignalLostClearsCounter(r: Registration) returns (before: int, after: int, phase: Phase)
    ensures before == 3 && after == 0 && phase == Detecting
  {
    var detector := new AutoDetect(r);
    var board := new Board(Detector(detector));
    detector.Begin(board);
    UniformBatch(LongTrain(3), LongPulse);
    detector.HandleInput(Some(Block(LongTrain(3), 12)), 20000, board);
    before := detector.inputDetect;
    detector.HandleInput(None, 21001, board);
    after := detector.inputDetect;
    phase := detector.phase;
  }
}
