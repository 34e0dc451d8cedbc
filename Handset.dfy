/** The protocol handlers the auto-detector hands over to, seen from the outside only:
    a handler is known by its protocol and by the calls it has received, in order. */
module Handset {
  import opened Wrappers

  /** Identity of a callback (a function pointer) the application registered.
      The detector stores and forwards callbacks; it never invokes them. */
  datatype Callback = Callback(id: nat)

  datatype Protocol = PPM | CRSF

  /** What the application registered on the current handset before the hand-over:
      the six callbacks and the requested RC packet interval. */
  datatype Registration = Registration(
    rcData: Callback,
    parameterUpdate: Callback,
    connected: Callback,
    disconnected: Callback,
    modelUpdate: Callback,
    bindingCommand: Callback,
    packetInterval: int)

  /** The calls the detector makes on the handler it builds. */
  datatype HandsetCall =
    | SetRCDataCallback(rcData: Callback)
    | RegisterParameterUpdateCallback(parameterUpdate: Callback)
    | RegisterCallbacks(connected: Callback, disconnected: Callback,
                        modelUpdate: Callback, bindingCommand: Callback)
    | Begin
    | SetPacketInterval(interval: int)

  /** A PPM or CRSF handler; its internals are not part of this model. */
  datatype Handler = Handler(protocol: Protocol, received: seq<HandsetCall>)

  /** A freshly constructed handler that has received nothing yet. */
  function NewHandler(p: Protocol): (h: Handler)
    ensures h.protocol == p && View(h) == Unconfigured
  {
    Handler(p, [])
  }

  /** The handler `h` after it has received call `c`. */
  function Deliver(h: Handler, c: HandsetCall): (r: Handler)
    ensures r.protocol == h.protocol
    ensures View(r) == Apply(View(h), c)
  {
    var r := Handler(h.protocol, h.received + [c]);
    assert r.received[..|r.received| - 1] == h.received;
    r
  }

  /** What a handler holds: the last value each setter stored, and whether it was started. */
  datatype HandlerView = HandlerView(
    rcData: Option<Callback>,
    parameterUpdate: Option<Callback>,
    connected: Option<Callback>,
    disconnected: Option<Callback>,
    modelUpdate: Option<Callback>,
    bindingCommand: Option<Callback>,
    packetInterval: Option<int>,
    started: bool)

  const Unconfigured := HandlerView(None, None, None, None, None, None, None, false)

  /** The effect of one call on what a handler holds. */
  function Apply(v: HandlerView, c: HandsetCall): HandlerView
  {
    match c
    case SetRCDataCallback(cb) => v.(rcData := Some(cb))
    case RegisterParameterUpdateCallback(cb) => v.(parameterUpdate := Some(cb))
    case RegisterCallbacks(con, dis, model, bind) =>
      v.(connected := Some(con), disconnected := Some(dis),
         modelUpdate := Some(model), bindingCommand := Some(bind))
    case Begin => v.(started := true)
    case SetPacketInterval(i) => v.(packetInterval := Some(i))
  }

  /** What a handler holds after receiving `calls` in order, starting unconfigured. */
  function Replay(calls: seq<HandsetCall>): HandlerView
  {
    if calls == [] then Unconfigured
    else Apply(Replay(calls[..|calls| - 1]), calls[|calls| - 1])
  }

  function View(h: Handler): HandlerView
  {
    Replay(h.received)
  }

  /** The calls the detector makes on the new handler during the hand-over, in order. */
  function HandoffCalls(r: Registration): seq<HandsetCall>
  {
    [ SetRCDataCallback(r.rcData),
      RegisterParameterUpdateCallback(r.parameterUpdate),
      RegisterCallbacks(r.connected, r.disconnected, r.modelUpdate, r.bindingCommand),
      Begin,
      SetPacketInterval(r.packetInterval) ]
  }

  /** The handler holds exactly what was registered on the detector, and it was started. */
  function Holds(r: Registration): HandlerView
  {
    HandlerView(Some(r.rcData), Some(r.parameterUpdate), Some(r.connected), Some(r.disconnected),
                Some(r.modelUpdate), Some(r.bindingCommand), Some(r.packetInterval), true)
  }

  /** Receiving one more call applies it on top of what the handler already holds. */
  lemma ReplaySnoc(calls: seq<HandsetCall>, c: HandsetCall)
    ensures Replay(calls + [c]) == Apply(Replay(calls), c)
  {
    assert (calls + [c])[..|calls|] == calls;
  }

  /** Round trip of the hand-over: a new handler that receives the hand-over calls
      ends up holding exactly the detector's callbacks and packet interval, and is started. */
  lemma HandoffDeliversRegistration(p: Protocol, r: Registration)
    ensures View(Handler(p, HandoffCalls(r))) == Holds(r)
  {
    var calls := HandoffCalls(r);
    HandoffPrefixes(r);
    ReplaySnoc(calls[..4], calls[4]);
    assert calls == calls[..4] + [calls[4]];
  }

  /** The handler is started only after every callback is in place,
      and its packet interval is set only after it was started. */
  lemma HandoffPrefixes(r: Registration)
    ensures var before := Replay(HandoffCalls(r)[..3]);
            !before.started && before.packetInterval.None? &&
            before.rcData == Some(r.rcData) && before.parameterUpdate == Some(r.parameterUpdate) &&
            before.connected == Some(r.connected) && before.disconnected == Some(r.disconnected) &&
            before.modelUpdate == Some(r.modelUpdate) && before.bindingCommand == Some(r.bindingCommand)
    ensures Replay(HandoffCalls(r)[..4]) == Replay(HandoffCalls(r)[..3]).(started := true)
  {
    var calls := HandoffCalls(r);
    ReplaySnoc([], calls[0]);
    assert calls[..1] == [] + [calls[0]];
    ReplaySnoc(calls[..1], calls[1]);
    assert calls[..2] == calls[..1] + [calls[1]];
    ReplaySnoc(calls[..2], calls[2]);
    assert calls[..3] == calls[..2] + [calls[2]];
    ReplaySnoc(calls[..3], calls[3]);
    assert calls[..4] == calls[..3] + [calls[3]];
  }
}
