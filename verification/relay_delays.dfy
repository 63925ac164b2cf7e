/** Why a pong must be due before the next ping. */
module RelayDelays {
  import opened Wrappers
  import opened Sockets
  import opened Connections
  import opened WsHandler
  import opened RelaySystem
  import opened RelayLinks
  import opened RelayKeepalive
  import opened RelayTheorems
  import Registry
  import Usernames

  type Timers = map<TimerId, Timer>

  /** A disciplined run that ends in `s`. */
  ghost predicate Reached(cfg: Config, states: seq<System>, events: seq<Event>, s: System) {
    Reaches(cfg, states, events, s) && IsDisciplinedRun(cfg, states, events)
  }

  lemma Extend(cfg: Config, states: seq<System>, events: seq<Event>, s: System, e: Event)
    requires Reached(cfg, states, events, s) && Enabled(s, e) && Disciplined(cfg, s, e)
    ensures Reached(cfg, states + [Step(cfg, s, e)], events + [e], Step(cfg, s, e))
  {
    ExtendRun(cfg, states, events, s, e);
    hide Step, Disciplined, Enabled;
  }

  /** The frame registers a valid name. */
  predicate Registers(cfg: Config, frame: Frame) {
    && !frame.isBinary && cfg.parse(frame.data).Register?
    && Usernames.IsValidRelayUsername(cfg.parse(frame.data).username)
  }

  /** An open, registered, unpaired socket that is pinged by `tick`, with all timers there are. */
  ghost predicate Pinged(s: System, ws: SocketId, tick: TimerId, timers: Timers) {
    && ws in s.relay.stateOf && s.relay.stateOf[ws] in s.relay.records
    && PhaseIn(s, ws).Open? && TrackOf(s, ws).route.Some?
    && !StateOf(s.relay, ws).paired && StateOf(s.relay, ws).pingInterval == Some(tick)
    && s.relay.timers == timers && tick in timers
    && timers[tick].Interval? && timers[tick].ws == ws && timers[tick].ref == s.relay.stateOf[ws]
    && forall id :: id in timers ==> id < s.relay.nextTimer
  }

  function Later(cfg: Config, timers: Timers, tick: TimerId): Timers
    requires tick in timers && timers[tick].Interval?
  {
    timers[tick := timers[tick].(due := timers[tick].due + cfg.pingIntervalMs)]
  }

  lemma ElapseStep(cfg: Config, s: System, ws: SocketId, tick: TimerId, timers: Timers, ms: nat)
    requires Pinged(s, ws, tick, timers) && forall id :: id in timers ==> s.relay.now + ms <= timers[id].due
    ensures Enabled(s, Elapse(ms))
    ensures var s' := Step(cfg, s, Elapse(ms));
      && Pinged(s', ws, tick, timers) && s'.relay.now == s.relay.now + ms
      && TrackOf(s', ws) == TrackOf(s, ws) && StateOf(s'.relay, ws) == StateOf(s.relay, ws)
  {
  }

  /** A ping arms a new pong timer, whatever became of the last one. */
  lemma TickStep(cfg: Config, s: System, ws: SocketId, tick: TimerId, timers: Timers)
    requires Pinged(s, ws, tick, timers) && timers[tick].due == s.relay.now
    ensures Enabled(s, Tick(tick))
    ensures var s', pong := Step(cfg, s, Tick(tick)), s.relay.nextTimer;
      && Pinged(s', ws, tick,
                Later(cfg, timers, tick)[pong := Timeout(ws, s.relay.stateOf[ws], s.relay.now + cfg.pongTimeoutMs)])
      && s'.relay.now == s.relay.now && s'.relay.stateOf == s.relay.stateOf
      && StateOf(s'.relay, ws).pongTimeout == Some(pong)
  {
    var s', pong := Step(cfg, s, Tick(tick)), s.relay.nextTimer;
    assert s'.relay.timers ==
      Later(cfg, timers, tick)[pong := Timeout(ws, s.relay.stateOf[ws], s.relay.now + cfg.pongTimeoutMs)];
  }

  /** A pong clears the pong timer that the record names, and no other. */
  lemma PongStep(cfg: Config, s: System, ws: SocketId, tick: TimerId, timers: Timers)
    requires Pinged(s, ws, tick, timers)
    requires StateOf(s.relay, ws).pongTimeout.Some? && StateOf(s.relay, ws).pongTimeout.value != tick
    ensures Enabled(s, Pong(ws))
    ensures var s' := Step(cfg, s, Pong(ws));
      && Pinged(s', ws, tick, timers - {StateOf(s.relay, ws).pongTimeout.value})
      && s'.relay.now == s.relay.now && s'.relay.stateOf == s.relay.stateOf
      && TrackOf(s', ws).answered && StateOf(s'.relay, ws).pongTimeout.None?
  {
  }

  /** A ping that is answered at once changes nothing but the time of the next one. */
  lemma AnsweredTick(
    cfg: Config, states: seq<System>, events: seq<Event>, s: System, ws: SocketId, tick: TimerId, timers: Timers)
    returns (states': seq<System>, events': seq<Event>, s': System)
    requires Reached(cfg, states, events, s) && Pinged(s, ws, tick, timers) && timers[tick].due == s.relay.now
    ensures Reached(cfg, states', events', s') && Pinged(s', ws, tick, Later(cfg, timers, tick))
    ensures s'.relay.now == s.relay.now && s'.relay.stateOf == s.relay.stateOf
    ensures TrackOf(s', ws).answered && StateOf(s'.relay, ws).pongTimeout.None?
  {
    var pong, later := s.relay.nextTimer, Later(cfg, timers, tick);
    TickStep(cfg, s, ws, tick, timers);
    hide Pinged, Step;
    var s1 := Step(cfg, s, Tick(tick));
    Extend(cfg, states, events, s, Tick(tick));
    var with := later[pong := Timeout(ws, s.relay.stateOf[ws], s.relay.now + cfg.pongTimeoutMs)];
    TimersFresh(s, ws, tick, timers);
    PongStep(cfg, s1, ws, tick, with);
    Extend(cfg, states + [s1], events + [Tick(tick)], s1, Pong(ws));
    s' := Step(cfg, s1, Pong(ws));
    states', events' := states + [s1] + [s'], events + [Tick(tick)] + [Pong(ws)];
    assert with - {pong} == later;
  }

  lemma TimersFresh(s: System, ws: SocketId, tick: TimerId, timers: Timers)
    requires Pinged(s, ws, tick, timers)
    ensures s.relay.nextTimer !in timers && tick != s.relay.nextTimer
  {
  }

  /** The socket has answered every ping, but a pong timer that its record no longer names is still set. */
  ghost predicate Orphaned(cfg: Config, s: System, ws: SocketId, tick: TimerId, orphan: TimerId) {
    && orphan != tick && orphan in s.relay.timers
    && Pinged(s, ws, tick, s.relay.timers) && TrackOf(s, ws).answered && StateOf(s.relay, ws).pongTimeout.None?
    && s.relay.timers.Keys == {tick, orphan}
    && s.relay.timers[tick].due == s.relay.now + cfg.pingIntervalMs
    && s.relay.timers[orphan].Timeout? && s.relay.timers[orphan].ws == ws && s.relay.now <= s.relay.timers[orphan].due
  }

  /** An orphaned timer goes off in the end, however many pings are answered before. */
  lemma {:induction false} OrphanFires(
    cfg: Config, states: seq<System>, events: seq<Event>, s: System, ws: SocketId, tick: TimerId, orphan: TimerId)
    returns (states': seq<System>, events': seq<Event>, s': System)
    requires 0 < cfg.pingIntervalMs && Reached(cfg, states, events, s) && Orphaned(cfg, s, ws, tick, orphan)
    ensures Reached(cfg, states', events', s') && Enabled(s', Expire(orphan)) && s'.relay.timers[orphan].ws == ws
    ensures TrackOf(s', ws).answered && PhaseIn(s', ws).Open?
    decreases s.relay.timers[orphan].due - s.relay.now
  {
    var timers, left := s.relay.timers, s.relay.timers[orphan].due - s.relay.now;
    var ms := if left <= cfg.pingIntervalMs then left else cfg.pingIntervalMs;
    ElapseStep(cfg, s, ws, tick, timers, ms);
    Extend(cfg, states, events, s, Elapse(ms));
    var s1 := Step(cfg, s, Elapse(ms));
    if left <= cfg.pingIntervalMs {
      states', events', s' := states + [s1], events + [Elapse(ms)], s1;
    } else {
      var states2, events2, s2 := AnsweredTick(cfg, states + [s1], events + [Elapse(ms)], s1, ws, tick, timers);
      states', events', s' := OrphanFires(cfg, states2, events2, s2, ws, tick, orphan);
    }
  }

  lemma OpenStep(cfg: Config, ws: SocketId)
    ensures var s0 := InitialSystem(map[]);
      Enabled(s0, Opened(ws)) &&
      var s := Step(cfg, s0, Opened(ws));
      && Kept(s) && s.log == map[ws := FreshTrack]
      && s.relay.now == 0 && s.relay.timers == map[] && s.relay.nextTimer == 0
      && PhaseIn(s, ws).Open? && s.relay.world.table == map[] && s.relay.world.manager == EmptyManager()
      && StateOf(s.relay, ws) == FreshState && s.relay.stateOf == map[]
  {
    OpenedShape(cfg, InitialSystem(map[]), ws);
  }

  /** A first registration under a valid name starts the pings. */
  lemma RegisterStep(cfg: Config, s: System, ws: SocketId, frame: Frame)
    requires Records(s.relay) && PhaseIn(s, ws).Open? && TrackOf(s, ws).route.None?
    requires StateOf(s.relay, ws) == FreshState
    requires s.relay.now == 0 && s.relay.timers == map[] && s.relay.nextTimer == 0
    requires s.relay.world.table == map[] && s.relay.world.manager == EmptyManager()
    requires Registers(cfg, frame)
    ensures Enabled(s, Message(ws, frame, "")) && Disciplined(cfg, s, Message(ws, frame, ""))
    ensures var s' := Step(cfg, s, Message(ws, frame, ""));
      && ws in s'.relay.stateOf
      && Pinged(s', ws, 0, map[0 := Interval(ws, s'.relay.stateOf[ws], cfg.pingIntervalMs)]) && s'.relay.now == 0
  {
    var msg := cfg.parse(frame.data);
    FreshRoutes(cfg, s, ws, frame);
    hide OnRegister, OnMessage, LogMessage, RouteOf, Records;
    RoutedMessage(cfg, s, ws, frame, "");
    RegisterStarts(cfg, s.relay, ws, msg);
    RegisterNotes(cfg, s, ws, frame);
  }

  /** The relay after a first registration. */
  lemma RegisterStarts(cfg: Config, r: Relay, ws: SocketId, msg: Routing)
    requires Records(r) && PhaseOf(r.world.net, ws).Open? && StateOf(r, ws) == FreshState
    requires r.now == 0 && r.timers == map[] && r.nextTimer == 0 && r.world.table == map[]
    requires r.world.manager == EmptyManager()
    requires msg.Register? && Usernames.IsValidRelayUsername(msg.username)
    ensures var r' := OnRegister(cfg, Attach(r, ws), ws, msg, "");
      && ws in r'.stateOf && r'.stateOf[ws] in r'.records && r'.now == 0 && r'.nextTimer == 1
      && r'.timers == map[0 := Interval(ws, r'.stateOf[ws], cfg.pingIntervalMs)]
      && !StateOf(r', ws).paired && StateOf(r', ws).pingInterval == Some(0) && PhaseOf(r'.world.net, ws).Open?
  {
    var r0 := Attach(r, ws);
    AttachView(r, ws);
    RegisterStaysOpen(cfg, r0, ws, msg);
    hide OnRegister, AfterRegister;
    RegisteredTimers(cfg, r0, ws, msg, "");
    RegisterView(cfg, r0, ws, msg, "");
  }

  lemma FreshRoutes(cfg: Config, s: System, ws: SocketId, frame: Frame)
    requires StateOf(s.relay, ws) == FreshState && !frame.isBinary && cfg.parse(frame.data).Register?
    ensures RouteOf(cfg, s, ws, frame) == Some(cfg.parse(frame.data))
  {
  }

  lemma RegisterStaysOpen(cfg: Config, r: Relay, ws: SocketId, msg: Routing)
    requires msg.Register? && ws in r.stateOf && r.world.table == map[] && r.world.manager == EmptyManager()
    requires Usernames.IsValidRelayUsername(msg.username) && PhaseOf(r.world.net, ws).Open?
    ensures PhaseOf(OnRegister(cfg, r, ws, msg, "").world.net, ws).Open?
    ensures AfterRegister(r.world, ws, msg.username, msg.installId, msg.metadata, "").1.Registered?
  {
  }

  /** One ping unanswered until the next comes: the record forgets its timer. */
  lemma SecondPing(cfg: Config, ws: SocketId, frame: Frame)
    returns (states: seq<System>, events: seq<Event>, s: System, orphan: TimerId)
    requires cfg.pingIntervalMs <= cfg.pongTimeoutMs && Registers(cfg, frame)
    ensures Reached(cfg, states, events, s) && Orphaned(cfg, s, ws, 0, orphan)
  {
    var interval := cfg.pingIntervalMs;
    var s0 := InitialSystem(map[]);
    OpenStep(cfg, ws);
    var s1 := Step(cfg, s0, Opened(ws));
    assert Reached(cfg, [s0], [], s0);
    Extend(cfg, [s0], [], s0, Opened(ws));
    RegisterStep(cfg, s1, ws, frame);
    Extend(cfg, [s0] + [s1], [] + [Opened(ws)], s1, Message(ws, frame, ""));
    var s2 := Step(cfg, s1, Message(ws, frame, ""));
    states, events := [s0] + [s1] + [s2], [] + [Opened(ws)] + [Message(ws, frame, "")];
    var timers := map[0 := Interval(ws, s2.relay.stateOf[ws], interval)];
    states, events, s, orphan := PingsCross(cfg, states, events, s2, ws, timers);
  }

  lemma PingsCross(cfg: Config, states: seq<System>, events: seq<Event>, s: System, ws: SocketId, timers: Timers)
    returns (states': seq<System>, events': seq<Event>, s': System, orphan: TimerId)
    requires cfg.pingIntervalMs <= cfg.pongTimeoutMs
    requires Reached(cfg, states, events, s) && Pinged(s, ws, 0, timers) && s.relay.now == 0
    requires timers == map[0 := Interval(ws, s.relay.stateOf[ws], cfg.pingIntervalMs)]
    ensures Reached(cfg, states', events', s') && Orphaned(cfg, s', ws, 0, orphan)
  {
    hide Step, Pinged;
    var interval := cfg.pingIntervalMs;
    ElapseStep(cfg, s, ws, 0, timers, interval);
    Extend(cfg, states, events, s, Elapse(interval));
    var s1 := Step(cfg, s, Elapse(interval));
    TickStep(cfg, s1, ws, 0, timers);
    TimersFresh(s1, ws, 0, timers);
    Extend(cfg, states + [s1], events + [Elapse(interval)], s1, Tick(0));
    var s2 := Step(cfg, s1, Tick(0));
    orphan := s1.relay.nextTimer;
    var timers2 := Later(cfg, timers, 0)[orphan := Timeout(ws, s1.relay.stateOf[ws], interval + cfg.pongTimeoutMs)];
    ElapseStep(cfg, s2, ws, 0, timers2, interval);
    Extend(cfg, states + [s1] + [s2], events + [Elapse(interval)] + [Tick(0)], s2, Elapse(interval));
    var s3 := Step(cfg, s2, Elapse(interval));
    states', events', s' := AnsweredTick(
      cfg, states + [s1] + [s2] + [s3], events + [Elapse(interval)] + [Tick(0)] + [Elapse(interval)],
      s3, ws, 0, timers2);
    PingedTimers(s', ws, 0, Later(cfg, timers2, 0));
  }

  lemma PingedTimers(s: System, ws: SocketId, tick: TimerId, timers: Timers)
    requires Pinged(s, ws, tick, timers)
    ensures s.relay.timers == timers
  {
  }

  /**
   * With a pong timeout of at least the ping interval, some disciplined run
   * closes an open socket although the last ping to it was answered: the
   * bound on the delays cannot be dropped. For equal delays that run has the
   * second tick before the pong timeout that is due at the same instant; a
   * runtime that always runs the older timer first does not have it.
   */
  lemma LongTimeoutsAreNotEarned(cfg: Config, ws: SocketId, frame: Frame)
    returns (states: seq<System>, events: seq<Event>, orphan: TimerId)
    requires 0 < cfg.pingIntervalMs <= cfg.pongTimeoutMs && Registers(cfg, frame)
    ensures IsDisciplinedRun(cfg, states, events) && |events| > 0 && events[|events| - 1] == Expire(orphan)
    ensures var before, last := states[|events| - 1], states[|events|];
      && orphan in before.relay.timers && before.relay.timers[orphan].ws == ws
      && TrackOf(before, ws).answered && PhaseIn(before, ws).Open? && PhaseIn(last, ws).Closing?
  {
    var states1, events1, s1, timer := SecondPing(cfg, ws, frame);
    orphan := timer;
    var states2, events2, s2 := OrphanFires(cfg, states1, events1, s1, ws, 0, orphan);
    Extend(cfg, states2, events2, s2, Expire(orphan));
    states, events := states2 + [Step(cfg, s2, Expire(orphan))], events2 + [Expire(orphan)];
  }

  /** The close event clears the timers that the record names, and the orphaned one stays. */
  lemma OrphanStays(cfg: Config, s: System, ws: SocketId, tick: TimerId, orphan: TimerId)
    requires Orphaned(cfg, s, ws, tick, orphan)
    ensures Enabled(s, CloseEvent(ws))
    ensures var s' := Step(cfg, s, CloseEvent(ws));
      && s'.relay.timers == map[orphan := s.relay.timers[orphan]] && s'.relay.now == s.relay.now && s'.log == s.log
  {
    assert s.relay.timers - {tick} == map[orphan := s.relay.timers[orphan]];
    hide AfterClose;
  }

  /** Without an interval time stands still while a socket is pinged; the orphaned timer goes off after its close. */
  lemma LateTimeoutsAreNotEarned(cfg: Config, ws: SocketId, frame: Frame)
    returns (states: seq<System>, events: seq<Event>, orphan: TimerId)
    requires cfg.pingIntervalMs <= cfg.pongTimeoutMs && Registers(cfg, frame)
    ensures IsDisciplinedRun(cfg, states, events) && |events| > 0 && events[|events| - 1] == Expire(orphan)
    ensures !Earned(cfg, states[|events| - 1], orphan)
  {
    if cfg.pingIntervalMs > 0 {
      states, events, orphan := LongTimeoutsAreNotEarned(cfg, ws, frame);
    } else {
      var states1, events1, s1, timer := SecondPing(cfg, ws, frame);
      orphan := timer;
      OrphanStays(cfg, s1, ws, 0, orphan);
      Extend(cfg, states1, events1, s1, CloseEvent(ws));
      var s2 := Step(cfg, s1, CloseEvent(ws));
      var ms := s1.relay.timers[orphan].due - s1.relay.now;
      assert TrackOf(s2, ws).answered && Enabled(s2, Elapse(ms));
      hide Orphaned;
      Extend(cfg, states1 + [s2], events1 + [CloseEvent(ws)], s2, Elapse(ms));
      var s3 := Step(cfg, s2, Elapse(ms));
      Extend(cfg, states1 + [s2] + [s3], events1 + [CloseEvent(ws)] + [Elapse(ms)], s3, Expire(orphan));
      states := states1 + [s2] + [s3] + [Step(cfg, s3, Expire(orphan))];
      events := events1 + [CloseEvent(ws)] + [Elapse(ms)] + [Expire(orphan)];
    }
  }

  lemma MessageSetsNoTimer(cfg: Config, r: Relay, ws: SocketId, frame: Frame, stamp: string)
    requires !Registers(cfg, frame) && r.timers == map[]
    ensures OnMessage(cfg, r, ws, frame, stamp).timers == map[]
  {
    hide OnConnect, AfterRegister;
    var r0 := Attach(r, ws);
    if !StateOf(r0, ws).paired && !frame.isBinary {
      match cfg.parse(frame.data)
      case Register(_, _, _) => InvalidIsRejected(r0.world, ws, cfg.parse(frame.data), stamp);
      case Connect(_) => ConnectSetsNoTimer(r0, ws, cfg.parse(frame.data), stamp);
      case _ =>
    }
  }

  lemma InvalidIsRejected(w: World, ws: SocketId, msg: Routing, stamp: string)
    requires msg.Register? && !Usernames.IsValidRelayUsername(msg.username)
    ensures AfterRegister(w, ws, msg.username, msg.installId, msg.metadata, stamp).1.Rejected?
  {
  }

  lemma ConnectSetsNoTimer(r: Relay, ws: SocketId, msg: Routing, stamp: string)
    requires ws in r.stateOf && msg.Connect? && r.timers == map[]
    ensures OnConnect(r, ws, msg, stamp).timers == map[]
  {
    hide AfterConnect;
  }

  lemma StepSetsNoTimer(cfg: Config, s: System, e: Event)
    requires (forall frame :: !Registers(cfg, frame)) && Enabled(s, e) && s.relay.timers == map[]
    ensures Step(cfg, s, e).relay.timers == map[]
  {
    hide OnMessage;
    if e.Message? {
      MessageSetsNoTimer(cfg, s.relay, e.ws, e.frame, e.stamp);
    }
  }

  lemma {:induction false} NoTimers(cfg: Config, states: seq<System>, events: seq<Event>, i: nat)
    requires (forall frame :: !Registers(cfg, frame)) && IsRun(cfg, states, events) && i < |states|
    ensures states[i].relay.timers == map[]
  {
    if i == 0 {
      var table :| states[0] == InitialSystem(table);
    } else {
      NoTimers(cfg, states, events, i - 1);
      StepSetsNoTimer(cfg, states[i - 1], events[i - 1]);
    }
  }

  /** Event `i` of a disciplined run is a pong timeout. */
  ghost predicate Expires(cfg: Config, states: seq<System>, events: seq<Event>, i: nat) {
    IsDisciplinedRun(cfg, states, events) && i < |events| && events[i].Expire?
  }

  /** In every disciplined run, every pong timeout that goes off is earned. */
  ghost predicate AlwaysEarned(cfg: Config) {
    forall states, events: seq<Event>, i: nat ::
      Expires(cfg, states, events, i) ==> Earned(cfg, states[i], events[i].id)
  }

  /** The exact delays: the timeout is shorter than the interval, or no frame registers a name at all. */
  lemma EarnedExactly(cfg: Config)
    ensures AlwaysEarned(cfg) <==>
      cfg.pongTimeoutMs < cfg.pingIntervalMs || forall frame :: !Registers(cfg, frame)
  {
    if cfg.pongTimeoutMs < cfg.pingIntervalMs {
      forall states, events: seq<Event>, i: nat | Expires(cfg, states, events, i)
        ensures Earned(cfg, states[i], events[i].id)
      {
        TimeoutIsEarned(cfg, states, events, i);
      }
    } else if frame :| Registers(cfg, frame) {
      var states, events, orphan := LateTimeoutsAreNotEarned(cfg, 0, frame);
      assert Expires(cfg, states, events, |events| - 1);
    } else {
      forall states, events: seq<Event>, i: nat ensures !Expires(cfg, states, events, i)
      {
        if Expires(cfg, states, events, i) {
          NoTimers(cfg, states, events, i);
        }
      }
    }
    hide Step, Earned, Registers;
  }
}
