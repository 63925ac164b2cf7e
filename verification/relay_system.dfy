/**
 * The relay as a transition system: every handler call, every timer and every
 * closing of a socket is one step, and time passes only up to the next timer.
 */
module RelaySystem {
  import opened Wrappers
  import opened Sockets
  import opened Connections
  import opened WsHandler
  import Registry

  /**
   * What an observer of one socket wrote down. The relay never reads it:
   * the frames received so far, the last routing message handled, the partner
   * and how many frames had been received when the two were paired, and the
   * time of the last ping and whether a pong followed it.
   */
  datatype Track = Track(
    received: seq<Frame>,
    route: Option<Routing>,
    peer: Option<SocketId>,
    mark: nat,
    pingedAt: nat,
    answered: bool)

  datatype System = System(relay: Relay, log: map<SocketId, Track>)

  datatype Event =
    | Opened(ws: SocketId)
    | Message(ws: SocketId, frame: Frame, stamp: string)
    | Pong(ws: SocketId)
    | Errored(ws: SocketId)
    | PeerClosing(ws: SocketId)
    | CloseEvent(ws: SocketId)
    | Tick(id: TimerId)
    | Expire(id: TimerId)
    | Elapse(ms: nat)
    | Reclaim(cutoff: string)
    | DeleteName(name: string)

  const FreshTrack := Track([], None, None, 0, 0, true)

  function TrackOf(s: System, ws: SocketId): Track {
    if ws in s.log then s.log[ws] else FreshTrack
  }

  function PhaseIn(s: System, ws: SocketId): Phase {
    PhaseOf(s.relay.world.net, ws)
  }

  function InitialSystem(table: Registry.Table): System {
    System(Relay(World(table, EmptyManager(), map[]), map[], map[], 0, map[], 0, 0, []), map[])
  }

  predicate Enabled(s: System, e: Event) {
    match e
    case Opened(ws) => ws !in s.relay.world.net
    case Message(ws, _, _) => !PhaseIn(s, ws).Closed?
    case Pong(ws) => !PhaseIn(s, ws).Closed?
    case Errored(ws) => !PhaseIn(s, ws).Closed?
    case PeerClosing(ws) => !PhaseIn(s, ws).Closed?
    case CloseEvent(ws) => !PhaseIn(s, ws).Closed?
    case Tick(id) => id in s.relay.timers && s.relay.timers[id].Interval? && s.relay.timers[id].due == s.relay.now
    case Expire(id) => id in s.relay.timers && s.relay.timers[id].Timeout? && s.relay.timers[id].due == s.relay.now
    case Elapse(ms) => forall id :: id in s.relay.timers ==> s.relay.now + ms <= s.relay.timers[id].due
    case Reclaim(_) => true
    case DeleteName(_) => true
  }

  /** The routing message this frame is handled as, if it is. */
  function RouteOf(cfg: Config, s: System, ws: SocketId, frame: Frame): Option<Routing> {
    if StateOf(s.relay, ws).paired || frame.isBinary then None
    else
      var msg := cfg.parse(frame.data);
      if msg.Register? || msg.Connect? then Some(msg) else None
  }

  /** The waiting server this message claims, if it claims one. */
  function ClaimOf(cfg: Config, s: System, ws: SocketId, frame: Frame): Option<SocketId> {
    var route := RouteOf(cfg, s, ws, frame);
    if route.Some? && route.value.Connect? && route.value.username in s.relay.world.table then
      Lookup(s.relay.world.manager.waiting, route.value.username)
    else None
  }

  function LogMessage(cfg: Config, s: System, ws: SocketId, frame: Frame): map<SocketId, Track> {
    var t := TrackOf(s, ws);
    var route := RouteOf(cfg, s, ws, frame);
    var t1 := t.(received := t.received + [frame], route := if route.Some? then route else t.route);
    var claim := ClaimOf(cfg, s, ws, frame);
    if claim.None? then s.log[ws := t1]
    else
      var log1 := s.log[ws := t1.(peer := claim, mark := |t1.received|)];
      var u := if claim.value in log1 then log1[claim.value] else FreshTrack;
      log1[claim.value := u.(peer := Some(ws), mark := |u.received|)]
  }

  function Step(cfg: Config, s: System, e: Event): System
    requires Enabled(s, e)
  {
    var r := s.relay;
    var net := r.world.net;
    match e
    case Opened(ws) =>
      System(r.(world := r.world.(net := net[ws := Socket(Open, [])])), s.log[ws := FreshTrack])
    case Message(ws, frame, stamp) =>
      System(OnMessage(cfg, r, ws, frame, stamp), LogMessage(cfg, s, ws, frame))
    case Pong(ws) =>
      System(OnPong(r, ws), s.log[ws := TrackOf(s, ws).(answered := true)])
    case Errored(ws) => s.(relay := Attach(r, ws))
    case PeerClosing(ws) => s.(relay := r.(world := r.world.(net := StartClose(net, ws))))
    case CloseEvent(ws) =>
      s.(relay := OnClose(r.(world := r.world.(net := net[ws := net[ws].(phase := Closed)])), ws))
    case Tick(id) =>
      var t := r.timers[id];
      System(
        OnTick(cfg, r, id),
        if RecordAt(r, t.ref).paired then s.log
        else s.log[t.ws := TrackOf(s, t.ws).(pingedAt := r.now, answered := false)])
    case Expire(id) => s.(relay := OnTimeout(r, id))
    case Elapse(ms) => s.(relay := r.(now := r.now + ms))
    case Reclaim(cutoff) => s.(relay := r.(world := r.world.(table := Registry.Reclaim(r.world.table, cutoff))))
    case DeleteName(name) => s.(relay := r.(world := r.world.(table := r.world.table - {name})))
  }

  /** The environment assumption: a socket sends one routing message in its life. */
  predicate Disciplined(cfg: Config, s: System, e: Event) {
    e.Message? && RouteOf(cfg, s, e.ws, e.frame).Some? ==> TrackOf(s, e.ws).route.None?
  }

  ghost predicate IsRun(cfg: Config, states: seq<System>, events: seq<Event>) {
    && |states| == |events| + 1
    && (exists table :: states[0] == InitialSystem(table))
    && forall i :: 0 <= i < |events| ==>
         Enabled(states[i], events[i]) && states[i + 1] == Step(cfg, states[i], events[i])
  }

  ghost predicate IsDisciplinedRun(cfg: Config, states: seq<System>, events: seq<Event>) {
    && IsRun(cfg, states, events)
    && forall i :: 0 <= i < |events| ==> Disciplined(cfg, states[i], events[i])
  }

  /** A run that ends in `s`. */
  ghost predicate Reaches(cfg: Config, states: seq<System>, events: seq<Event>, s: System) {
    IsRun(cfg, states, events) && states[|events|] == s
  }

  lemma ExtendRun(cfg: Config, states: seq<System>, events: seq<Event>, s: System, e: Event)
    requires Reaches(cfg, states, events, s) && Enabled(s, e)
    ensures Reaches(cfg, states + [Step(cfg, s, e)], events + [e], Step(cfg, s, e))
  {
    var states', events' := states + [Step(cfg, s, e)], events + [e];
    forall i | 0 <= i < |events'|
      ensures Enabled(states'[i], events'[i]) && states'[i + 1] == Step(cfg, states'[i], events'[i])
    {
      if i < |events| {
        assert states'[i] == states[i] && events'[i] == events[i] && states'[i + 1] == states[i + 1];
      }
    }
    assert states'[0] == states[0];
  }
}
