/** Pings, pongs and timeouts of waiting sockets, with their real bounds. */
module RelayKeepalive {
  import opened Wrappers
  import opened Sockets
  import opened Connections
  import opened WsHandler
  import opened RelaySystem
  import opened ConnectionIndex
  import opened RelayShape
  import opened RelayLinks
  import Registry

  /** The handler's delays: a pong must come before the next ping. */
  predicate Delays(cfg: Config) {
    cfg.pongTimeoutMs < cfg.pingIntervalMs
  }

  predicate IsInterval(r: Relay, id: TimerId, ws: SocketId) {
    id in r.timers && r.timers[id].Interval? && r.timers[id].ws == ws
  }

  predicate IsTimeout(r: Relay, id: TimerId, ws: SocketId) {
    id in r.timers && r.timers[id].Timeout? && r.timers[id].ws == ws
  }

  /** The socket's record names a pong timer that has not fired. */
  predicate Pending(r: Relay, ws: SocketId) {
    StateOf(r, ws).pongTimeout.Some? && StateOf(r, ws).pongTimeout.value in r.timers
  }

  /** A timer is named by the record of its socket, which is not paired, and it is not overdue. */
  ghost predicate TimerAt(cfg: Config, r: Relay, id: TimerId) {
    id in r.timers ==>
      var t := r.timers[id];
      && id < r.nextTimer && t.ws in r.stateOf && r.stateOf[t.ws] == t.ref
      && !StateOf(r, t.ws).paired && r.now <= t.due
      && (t.Interval? ==> StateOf(r, t.ws).pingInterval == Some(id) && t.due <= r.now + cfg.pingIntervalMs)
      && (t.Timeout? ==> StateOf(r, t.ws).pongTimeout == Some(id))
  }

  /** A record names timers of its own socket, and none before the socket's routing message. */
  ghost predicate CardAt(r: Relay, ws: SocketId, t: Track) {
    ws in r.stateOf ==>
      var st := StateOf(r, ws);
      && (st.pingInterval.Some? ==> IsInterval(r, st.pingInterval.value, ws))
      && (st.pongTimeout.Some? ==>
           && st.pongTimeout.value < r.nextTimer && st.pingInterval.Some?
           && (st.pongTimeout.value in r.timers ==> IsTimeout(r, st.pongTimeout.value, ws)))
      && (t.route.None? ==> st.pingInterval.None? && st.pongTimeout.None?)
  }

  /** The next tick comes one interval after the ping that is still unanswered. */
  ghost predicate PingedAt(cfg: Config, r: Relay, ws: SocketId, t: Track) {
    (ws in r.stateOf && StateOf(r, ws).pingInterval.Some? && StateOf(r, ws).pingInterval.value in r.timers
     && Pending(r, ws)) ==>
      && r.timers[StateOf(r, ws).pongTimeout.value].due == t.pingedAt + cfg.pongTimeoutMs
      && r.timers[StateOf(r, ws).pingInterval.value].due == t.pingedAt + cfg.pingIntervalMs
      && !t.answered && t.pingedAt <= r.now
  }

  ghost predicate SocketAlive(cfg: Config, r: Relay, ws: SocketId, t: Track) {
    CardAt(r, ws, t) && PingedAt(cfg, r, ws, t)
  }

  ghost predicate Alive(cfg: Config, s: System) {
    && (forall id: TimerId :: TimerAt(cfg, s.relay, id))
    && (forall ws: SocketId :: SocketAlive(cfg, s.relay, ws, TrackOf(s, ws)))
  }

  /** What must not differ for a socket outside `touched`. */
  ghost predicate Apart(s: System, s': System, touched: set<SocketId>) {
    && s'.relay.now == s.relay.now && s.relay.nextTimer <= s'.relay.nextTimer
    && (forall id: TimerId :: (id in s'.relay.timers && s'.relay.timers[id].ws !in touched)
          <==> (id in s.relay.timers && s.relay.timers[id].ws !in touched))
    && (forall id: TimerId :: id in s'.relay.timers && s'.relay.timers[id].ws !in touched ==>
          s'.relay.timers[id] == s.relay.timers[id])
    && (forall id: TimerId :: id in s'.relay.timers && id < s.relay.nextTimer ==>
          id in s.relay.timers && s'.relay.timers[id].ws == s.relay.timers[id].ws)
    && forall ws: SocketId :: ws !in touched ==>
         && (ws in s'.relay.stateOf <==> ws in s.relay.stateOf)
         && (ws in s.relay.stateOf ==> s'.relay.stateOf[ws] == s.relay.stateOf[ws])
         && StateOf(s'.relay, ws) == StateOf(s.relay, ws)
         && TrackOf(s', ws).route == TrackOf(s, ws).route
         && TrackOf(s', ws).pingedAt == TrackOf(s, ws).pingedAt
         && TrackOf(s', ws).answered == TrackOf(s, ws).answered
  }

  lemma ApartTimerAlive(cfg: Config, s: System, s': System, touched: set<SocketId>, id: TimerId)
    requires Alive(cfg, s) && Apart(s, s', touched)
    requires id in s'.relay.timers && s'.relay.timers[id].ws !in touched
    ensures TimerAt(cfg, s'.relay, id)
  {
    assert TimerAt(cfg, s.relay, id);
  }

  lemma ApartSocketAlive(cfg: Config, s: System, s': System, touched: set<SocketId>, ws: SocketId)
    requires Alive(cfg, s) && Apart(s, s', touched) && ws !in touched
    ensures SocketAlive(cfg, s'.relay, ws, TrackOf(s', ws))
  {
    assert SocketAlive(cfg, s.relay, ws, TrackOf(s, ws));
  }

  /** Only the touched sockets have to be looked at again. */
  lemma AliveFrom(cfg: Config, s: System, s': System, touched: set<SocketId>)
    requires Alive(cfg, s) && Apart(s, s', touched)
    requires forall id: TimerId :: id in s'.relay.timers && s'.relay.timers[id].ws in touched ==>
      TimerAt(cfg, s'.relay, id)
    requires forall ws: SocketId :: ws in touched ==> SocketAlive(cfg, s'.relay, ws, TrackOf(s', ws))
    ensures Alive(cfg, s')
  {
    forall id: TimerId ensures TimerAt(cfg, s'.relay, id) {
      if id in s'.relay.timers && s'.relay.timers[id].ws !in touched {
        ApartTimerAlive(cfg, s, s', touched, id);
      }
    }
    forall ws: SocketId ensures SocketAlive(cfg, s'.relay, ws, TrackOf(s', ws)) {
      if ws !in touched {
        ApartSocketAlive(cfg, s, s', touched, ws);
      }
    }
  }

  /** Records, timers, clock and notes are as they were; phases may have moved on. */
  lemma StillAlive(cfg: Config, s: System, s': System)
    requires Alive(cfg, s) && Apart(s, s', {})
    ensures Alive(cfg, s')
  {
    AliveFrom(cfg, s, s', {});
  }

  // ---- Time, timers and pongs ----

  lemma ElapseAlive(cfg: Config, s: System, ms: nat)
    requires Alive(cfg, s) && Enabled(s, Elapse(ms))
    ensures Alive(cfg, Step(cfg, s, Elapse(ms)))
  {
    var s' := Step(cfg, s, Elapse(ms));
    forall id: TimerId ensures TimerAt(cfg, s'.relay, id) {
      assert TimerAt(cfg, s.relay, id);
    }
    forall ws: SocketId ensures SocketAlive(cfg, s'.relay, ws, TrackOf(s', ws)) {
      assert SocketAlive(cfg, s.relay, ws, TrackOf(s, ws));
    }
  }

  lemma ExpireAlive(cfg: Config, s: System, id: TimerId)
    requires Alive(cfg, s) && Enabled(s, Expire(id))
    ensures Alive(cfg, Step(cfg, s, Expire(id)))
  {
    var s' := Step(cfg, s, Expire(id));
    var ws := s.relay.timers[id].ws;
    assert TimerAt(cfg, s.relay, id) && SocketAlive(cfg, s.relay, ws, TrackOf(s, ws));
    forall i: TimerId | i in s'.relay.timers && s'.relay.timers[i].ws == ws ensures TimerAt(cfg, s'.relay, i) {
      assert TimerAt(cfg, s.relay, i);
    }
    AliveFrom(cfg, s, s', {ws});
  }

  /** While a pong timer is pending the next ping is still to come. */
  lemma PendingBeforePing(cfg: Config, s: System, ws: SocketId)
    requires Delays(cfg) && Alive(cfg, s) && ws in s.relay.stateOf && Pending(s.relay, ws)
    ensures StateOf(s.relay, ws).pingInterval.Some? && StateOf(s.relay, ws).pingInterval.value in s.relay.timers
    ensures s.relay.now < s.relay.timers[StateOf(s.relay, ws).pingInterval.value].due
  {
    assert SocketAlive(cfg, s.relay, ws, TrackOf(s, ws));
    assert TimerAt(cfg, s.relay, StateOf(s.relay, ws).pongTimeout.value);
  }

  /** A tick finds no pong timer pending: the next ping comes after the last timeout. */
  lemma TickFindsNoPending(cfg: Config, s: System, id: TimerId)
    requires Delays(cfg) && Alive(cfg, s) && Enabled(s, Tick(id))
    ensures var ws := s.relay.timers[id].ws;
      && !Pending(s.relay, ws) && ws in s.relay.stateOf && s.relay.stateOf[ws] == s.relay.timers[id].ref
      && !StateOf(s.relay, ws).paired && StateOf(s.relay, ws).pingInterval == Some(id) && id < s.relay.nextTimer
  {
    var ws := s.relay.timers[id].ws;
    assert TimerAt(cfg, s.relay, id) && SocketAlive(cfg, s.relay, ws, TrackOf(s, ws));
    if Pending(s.relay, ws) {
      PendingBeforePing(cfg, s, ws);
    }
  }

  lemma TickEffect(cfg: Config, s: System, id: TimerId)
    requires Records(s.relay) && Enabled(s, Tick(id)) && id < s.relay.nextTimer
    requires var ws := s.relay.timers[id].ws;
      ws in s.relay.stateOf && s.relay.stateOf[ws] == s.relay.timers[id].ref && !StateOf(s.relay, ws).paired
    ensures var r, r' := s.relay, Step(cfg, s, Tick(id)).relay;
      var t := r.timers[id];
      && r'.world == r.world && r'.now == r.now && r'.nextTimer == r.nextTimer + 1 && r'.stateOf == r.stateOf
      && r'.timers == r.timers[r.nextTimer := Timeout(t.ws, t.ref, r.now + cfg.pongTimeoutMs)]
                              [id := t.(due := t.due + cfg.pingIntervalMs)]
      && forall x :: StateOf(r', x) ==
           if x == t.ws then StateOf(r, x).(pongTimeout := Some(r.nextTimer)) else StateOf(r, x)
    ensures var ws := s.relay.timers[id].ws;
      Step(cfg, s, Tick(id)).log == s.log[ws := TrackOf(s, ws).(pingedAt := s.relay.now, answered := false)]
  {
    var ws := s.relay.timers[id].ws;
    SetRecordView(s.relay, ws, StateOf(s.relay, ws).(pongTimeout := Some(s.relay.nextTimer)));
  }

  lemma TickedTimers(cfg: Config, s: System, id: TimerId)
    requires Delays(cfg) && Records(s.relay) && Alive(cfg, s) && Enabled(s, Tick(id))
    ensures var s' := Step(cfg, s, Tick(id));
      forall i: TimerId :: i in s'.relay.timers && s'.relay.timers[i].ws == s.relay.timers[id].ws ==>
        TimerAt(cfg, s'.relay, i)
  {
    TickFindsNoPending(cfg, s, id);
    TickEffect(cfg, s, id);
    var s' := Step(cfg, s, Tick(id));
    forall i: TimerId | i in s'.relay.timers && s'.relay.timers[i].ws == s.relay.timers[id].ws
      ensures TimerAt(cfg, s'.relay, i)
    {
      assert TimerAt(cfg, s.relay, i);
    }
  }

  lemma TickedSocket(cfg: Config, s: System, id: TimerId)
    requires Delays(cfg) && Records(s.relay) && Alive(cfg, s) && Enabled(s, Tick(id))
    ensures var s', ws := Step(cfg, s, Tick(id)), s.relay.timers[id].ws;
      SocketAlive(cfg, s'.relay, ws, TrackOf(s', ws))
  {
    TickFindsNoPending(cfg, s, id);
    TickEffect(cfg, s, id);
    assert SocketAlive(cfg, s.relay, s.relay.timers[id].ws, TrackOf(s, s.relay.timers[id].ws));
  }

  lemma TickApart(cfg: Config, s: System, id: TimerId)
    requires Delays(cfg) && Records(s.relay) && Alive(cfg, s) && Enabled(s, Tick(id))
    ensures Apart(s, Step(cfg, s, Tick(id)), {s.relay.timers[id].ws})
  {
    hide OnTick, Alive, Records;
    TickFindsNoPending(cfg, s, id);
    TickEffect(cfg, s, id);
    TimersAreOld(cfg, s);
  }

  lemma TimersAreOld(cfg: Config, s: System)
    requires Alive(cfg, s)
    ensures forall i: TimerId :: i in s.relay.timers ==> i < s.relay.nextTimer
  {
    forall i: TimerId | i in s.relay.timers ensures i < s.relay.nextTimer {
      assert TimerAt(cfg, s.relay, i);
    }
  }

  lemma TickAlive(cfg: Config, s: System, id: TimerId)
    requires Delays(cfg) && Records(s.relay) && Alive(cfg, s) && Enabled(s, Tick(id))
    ensures Alive(cfg, Step(cfg, s, Tick(id)))
  {
    TickedTimers(cfg, s, id);
    TickedSocket(cfg, s, id);
    TickApart(cfg, s, id);
    AliveFrom(cfg, s, Step(cfg, s, Tick(id)), {s.relay.timers[id].ws});
  }

  lemma PongEffect(cfg: Config, s: System, ws: SocketId)
    requires Records(s.relay) && Enabled(s, Pong(ws))
    ensures var r, r' := s.relay, Step(cfg, s, Pong(ws)).relay;
      && r'.world == r.world && r'.now == r.now && r'.nextTimer == r.nextTimer
      && r'.timers == Drop(r.timers, StateOf(r, ws).pongTimeout)
      && r'.stateOf.Keys == r.stateOf.Keys + {ws} && (forall x :: x in r.stateOf ==> r'.stateOf[x] == r.stateOf[x])
      && forall x :: StateOf(r', x) ==
           if x == ws then StateOf(r, x).(lastPong := Some(r.now), pongTimeout := None) else StateOf(r, x)
    ensures Step(cfg, s, Pong(ws)).log == s.log[ws := TrackOf(s, ws).(answered := true)]
  {
    AttachView(s.relay, ws);
    var r0 := Attach(s.relay, ws);
    SetRecordView(r0, ws, StateOf(r0, ws).(lastPong := Some(r0.now), pongTimeout := None));
  }

  lemma PongedSocket(cfg: Config, s: System, ws: SocketId)
    requires Records(s.relay) && Alive(cfg, s) && Enabled(s, Pong(ws))
    ensures var s' := Step(cfg, s, Pong(ws)); SocketAlive(cfg, s'.relay, ws, TrackOf(s', ws))
  {
    PongEffect(cfg, s, ws);
    assert SocketAlive(cfg, s.relay, ws, TrackOf(s, ws));
    if StateOf(s.relay, ws).pingInterval.Some? {
      assert TimerAt(cfg, s.relay, StateOf(s.relay, ws).pingInterval.value);
    }
  }

  lemma PongedTimers(cfg: Config, s: System, ws: SocketId)
    requires Records(s.relay) && Alive(cfg, s) && Enabled(s, Pong(ws))
    ensures var s' := Step(cfg, s, Pong(ws));
      forall i: TimerId :: i in s'.relay.timers && s'.relay.timers[i].ws == ws ==> TimerAt(cfg, s'.relay, i)
  {
    PongEffect(cfg, s, ws);
    var s' := Step(cfg, s, Pong(ws));
    forall i: TimerId | i in s'.relay.timers && s'.relay.timers[i].ws == ws ensures TimerAt(cfg, s'.relay, i) {
      assert TimerAt(cfg, s.relay, i);
    }
  }

  lemma PongApart(cfg: Config, s: System, ws: SocketId)
    requires Records(s.relay) && Alive(cfg, s) && Enabled(s, Pong(ws))
    ensures Apart(s, Step(cfg, s, Pong(ws)), {ws})
  {
    PongEffect(cfg, s, ws);
    assert SocketAlive(cfg, s.relay, ws, TrackOf(s, ws));
    var named := StateOf(s.relay, ws).pongTimeout;
    assert named.Some? && named.value in s.relay.timers ==> s.relay.timers[named.value].ws == ws;
    DropApart(s, Step(cfg, s, Pong(ws)), ws, named);
  }

  /** Dropping a socket's own timer is nobody else's business. */
  lemma DropApart(s: System, s': System, ws: SocketId, id: Option<TimerId>)
    requires s'.relay.now == s.relay.now && s'.relay.nextTimer == s.relay.nextTimer
    requires s'.relay.timers == Drop(s.relay.timers, id)
    requires id.Some? && id.value in s.relay.timers ==> s.relay.timers[id.value].ws == ws
    requires s'.relay.stateOf.Keys == s.relay.stateOf.Keys + {ws}
    requires forall x :: x in s.relay.stateOf ==> s'.relay.stateOf[x] == s.relay.stateOf[x]
    requires forall x :: x != ws ==> StateOf(s'.relay, x) == StateOf(s.relay, x) && TrackOf(s', x) == TrackOf(s, x)
    requires s'.relay.world == s.relay.world
    ensures Apart(s, s', {ws})
  {
  }

  lemma PongAlive(cfg: Config, s: System, ws: SocketId)
    requires Records(s.relay) && Alive(cfg, s) && Enabled(s, Pong(ws))
    ensures Alive(cfg, Step(cfg, s, Pong(ws)))
  {
    PongedTimers(cfg, s, ws);
    PongedSocket(cfg, s, ws);
    PongApart(cfg, s, ws);
    AliveFrom(cfg, s, Step(cfg, s, Pong(ws)), {ws});
  }

  // ---- Sockets come and go ----

  lemma OpenedAlive(cfg: Config, s: System, ws: SocketId)
    requires Kept(s) && Alive(cfg, s) && Enabled(s, Opened(ws))
    ensures Alive(cfg, Step(cfg, s, Opened(ws)))
  {
    var s' := Step(cfg, s, Opened(ws));
    assert ws !in s.relay.stateOf;
    UnattachedHasNoTimers(cfg, s, ws);
    AliveFrom(cfg, s, s', {ws});
  }

  lemma UnattachedHasNoTimers(cfg: Config, s: System, ws: SocketId)
    requires Alive(cfg, s) && ws !in s.relay.stateOf
    ensures forall i: TimerId :: i in s.relay.timers ==> s.relay.timers[i].ws != ws
  {
    forall i: TimerId | i in s.relay.timers ensures s.relay.timers[i].ws != ws {
      assert TimerAt(cfg, s.relay, i);
    }
  }

  lemma PeerClosingAlive(cfg: Config, s: System, ws: SocketId)
    requires Alive(cfg, s) && Enabled(s, PeerClosing(ws))
    ensures Alive(cfg, Step(cfg, s, PeerClosing(ws)))
  {
    StillAlive(cfg, s, Step(cfg, s, PeerClosing(ws)));
  }

  lemma TableAlive(cfg: Config, s: System, e: Event)
    requires Alive(cfg, s) && Enabled(s, e) && (e.Reclaim? || e.DeleteName?)
    ensures Alive(cfg, Step(cfg, s, e))
  {
    StillAlive(cfg, s, Step(cfg, s, e));
  }

  /** A record may be created, and nothing else happens to its socket. */
  lemma AttachedAlive(cfg: Config, s: System, s': System, ws: SocketId)
    requires Records(s.relay) && Alive(cfg, s) && Apart(s, s', {ws})
    requires s'.relay.timers == s.relay.timers && s'.relay.nextTimer == s.relay.nextTimer
    requires s'.relay.stateOf == Attach(s.relay, ws).stateOf && s'.relay.records == Attach(s.relay, ws).records
    requires var t, t' := TrackOf(s, ws), TrackOf(s', ws);
      && t'.pingedAt == t.pingedAt && t'.answered == t.answered
      && (t'.route.None? ==> t.route.None?)
    ensures Alive(cfg, s')
  {
    AttachedState(s, s', ws);
    hide Attach, Records;
    assert SocketAlive(cfg, s.relay, ws, TrackOf(s, ws));
    forall i: TimerId | i in s'.relay.timers && s'.relay.timers[i].ws == ws ensures TimerAt(cfg, s'.relay, i) {
      assert TimerAt(cfg, s.relay, i);
    }
    hide TimerAt;
    AliveFrom(cfg, s, s', {ws});
  }

  lemma AttachedState(s: System, s': System, ws: SocketId)
    requires Records(s.relay)
    requires s'.relay.stateOf == Attach(s.relay, ws).stateOf && s'.relay.records == Attach(s.relay, ws).records
    ensures ws in s'.relay.stateOf && StateOf(s'.relay, ws) == StateOf(s.relay, ws)
    ensures ws in s.relay.stateOf ==> s'.relay.stateOf == s.relay.stateOf
  {
    AttachView(s.relay, ws);
    assert StateOf(s'.relay, ws) == StateOf(Attach(s.relay, ws), ws);
  }

  lemma AttachedApart(s: System, s': System, ws: SocketId)
    requires Records(s.relay) && s'.relay.timers == s.relay.timers && s'.relay.nextTimer == s.relay.nextTimer
    requires s'.relay.now == s.relay.now
    requires s'.relay.stateOf == Attach(s.relay, ws).stateOf && s'.relay.records == Attach(s.relay, ws).records
    requires forall x :: x != ws ==> TrackOf(s', x).(received := []) == TrackOf(s, x).(received := [])
    ensures Apart(s, s', {ws})
  {
    AttachView(s.relay, ws);
    assert forall x :: StateOf(s'.relay, x) == StateOf(Attach(s.relay, ws), x);
  }

  lemma ErroredAlive(cfg: Config, s: System, ws: SocketId)
    requires Records(s.relay) && Alive(cfg, s) && Enabled(s, Errored(ws))
    ensures Alive(cfg, Step(cfg, s, Errored(ws)))
  {
    AttachedApart(s, Step(cfg, s, Errored(ws)), ws);
    assert SocketAlive(cfg, s.relay, ws, TrackOf(s, ws));
    AttachedAlive(cfg, s, Step(cfg, s, Errored(ws)), ws);
  }

  /** A frame without routing meaning touches no timer. */
  lemma UnroutedTimers(cfg: Config, s: System, ws: SocketId, frame: Frame, stamp: string)
    requires Records(s.relay) && RouteOf(cfg, s, ws, frame).None?
    ensures var r', r0 := OnMessage(cfg, s.relay, ws, frame, stamp), Attach(s.relay, ws);
      && r'.timers == r0.timers && r'.nextTimer == r0.nextTimer && r'.now == r0.now
      && r'.stateOf == r0.stateOf && r'.records == r0.records
  {
    AttachView(s.relay, ws);
  }

  lemma UnroutedAlive(cfg: Config, s: System, ws: SocketId, frame: Frame, stamp: string)
    requires Kept(s) && Alive(cfg, s) && Enabled(s, Message(ws, frame, stamp)) && RouteOf(cfg, s, ws, frame).None?
    ensures Alive(cfg, Step(cfg, s, Message(ws, frame, stamp)))
  {
    var s' := Step(cfg, s, Message(ws, frame, stamp));
    UnroutedTimers(cfg, s, ws, frame, stamp);
    AttachedApart(s, s', ws);
    assert SocketAlive(cfg, s.relay, ws, TrackOf(s, ws));
    AttachedAlive(cfg, s, s', ws);
  }

  /** A refusal touches no timer either. */
  lemma RefusedTimers(cfg: Config, r: Relay, ws: SocketId, msg: Routing, stamp: string)
    requires msg.Register? || msg.Connect?
    requires msg.Register? ==> AfterRegister(r.world, ws, msg.username, msg.installId, msg.metadata, stamp).1.Rejected?
    requires msg.Connect? ==> AfterConnect(r.world, ws, msg.username, stamp).1.Refused?
    ensures var r0 := Attach(r, ws);
      var r' := if msg.Register? then OnRegister(cfg, r0, ws, msg, stamp) else OnConnect(r0, ws, msg, stamp);
      && r'.timers == r0.timers && r'.nextTimer == r0.nextTimer && r'.now == r0.now
      && r'.stateOf == r0.stateOf && r'.records == r0.records
  {
  }

  lemma RefusedAlive(cfg: Config, s: System, ws: SocketId, frame: Frame, stamp: string)
    requires Kept(s) && Alive(cfg, s) && Enabled(s, Message(ws, frame, stamp)) && ws in s.log
    requires RouteOf(cfg, s, ws, frame).Some?
    requires var msg := RouteOf(cfg, s, ws, frame).value;
      && (msg.Register? ==>
            AfterRegister(s.relay.world, ws, msg.username, msg.installId, msg.metadata, stamp).1.Rejected?)
      && (msg.Connect? ==> AfterConnect(s.relay.world, ws, msg.username, stamp).1.Refused?)
    ensures Alive(cfg, Step(cfg, s, Message(ws, frame, stamp)))
  {
    var s' := Step(cfg, s, Message(ws, frame, stamp));
    RoutedMessage(cfg, s, ws, frame, stamp);
    RefusedTimers(cfg, s.relay, ws, cfg.parse(frame.data), stamp);
    AttachedApart(s, s', ws);
    assert SocketAlive(cfg, s.relay, ws, TrackOf(s, ws));
    AttachedAlive(cfg, s, s', ws);
  }

  // ---- Registration, pairing and closing ----

  lemma RegisteredTimers(cfg: Config, r: Relay, ws: SocketId, msg: Routing, stamp: string)
    requires Records(r) && msg.Register? && ws in r.stateOf
    requires AfterRegister(r.world, ws, msg.username, msg.installId, msg.metadata, stamp).1.Registered?
    ensures var r' := OnRegister(cfg, r, ws, msg, stamp);
      && r'.timers == r.timers[r.nextTimer := Interval(ws, r.stateOf[ws], r.now + cfg.pingIntervalMs)]
      && r'.nextTimer == r.nextTimer + 1 && r'.now == r.now && r'.stateOf == r.stateOf
      && forall x :: StateOf(r', x) ==
           if x == ws
           then StateOf(r, x).(username := Some(msg.username), isServer := Some(true),
                               pingInterval := Some(r.nextTimer))
           else StateOf(r, x)
  {
    hide AfterRegister, Records;
    var st := StateOf(r, ws).(username := Some(msg.username), isServer := Some(true));
    var r1 := r.(world := AfterRegister(r.world, ws, msg.username, msg.installId, msg.metadata, stamp).0);
    SameRecords(r, r1);
    SetRecordView(r1, ws, st);
    var r2 := WithReply(SetRecord(r1, r.stateOf[ws], st), ws, ServerRegistered);
    SameRecords(SetRecord(r1, r.stateOf[ws], st), r2);
    SetRecordView(r2, ws, st.(pingInterval := Some(r2.nextTimer)));
  }

  /** The step of a successful registration, seen by the timers. */
  ghost predicate RegisteredStep(cfg: Config, s: System, s': System, ws: SocketId, name: string) {
    && ws in s'.relay.stateOf && (ws in s.relay.stateOf ==> s'.relay.stateOf[ws] == s.relay.stateOf[ws])
    && (forall x :: x != ws ==> (x in s'.relay.stateOf <==> x in s.relay.stateOf))
    && (forall x :: x != ws && x in s.relay.stateOf ==> s'.relay.stateOf[x] == s.relay.stateOf[x])
    && s'.relay.timers ==
       s.relay.timers[s.relay.nextTimer := Interval(ws, s'.relay.stateOf[ws], s.relay.now + cfg.pingIntervalMs)]
    && s'.relay.nextTimer == s.relay.nextTimer + 1 && s'.relay.now == s.relay.now
    && (forall x :: StateOf(s'.relay, x) ==
         if x == ws
         then StateOf(s.relay, x).(username := Some(name), isServer := Some(true),
                                   pingInterval := Some(s.relay.nextTimer))
         else StateOf(s.relay, x))
    && (forall x :: x != ws ==> TrackOf(s', x) == TrackOf(s, x))
    && TrackOf(s, ws).route.None? && TrackOf(s', ws).route.Some?
    && !StateOf(s.relay, ws).paired
  }

  lemma RegisteredStepAlive(cfg: Config, s: System, s': System, ws: SocketId, name: string)
    requires Alive(cfg, s) && RegisteredStep(cfg, s, s', ws, name)
    ensures Alive(cfg, s')
  {
    assert SocketAlive(cfg, s.relay, ws, TrackOf(s, ws));
    forall i: TimerId | i in s'.relay.timers && s'.relay.timers[i].ws == ws ensures TimerAt(cfg, s'.relay, i) {
      assert TimerAt(cfg, s.relay, i);
    }
    RegisteredApart(cfg, s, s', ws, name);
    AliveFrom(cfg, s, s', {ws});
  }

  lemma RegisteredApart(cfg: Config, s: System, s': System, ws: SocketId, name: string)
    requires Alive(cfg, s) && RegisteredStep(cfg, s, s', ws, name)
    ensures Apart(s, s', {ws})
  {
    forall i: TimerId | i in s.relay.timers ensures i < s.relay.nextTimer {
      assert TimerAt(cfg, s.relay, i);
    }
  }

  lemma RegisteredStepHolds(cfg: Config, s: System, ws: SocketId, frame: Frame, stamp: string)
    requires Records(s.relay) && TrackOf(s, ws).route.None?
    requires RouteOf(cfg, s, ws, frame).Some? && RouteOf(cfg, s, ws, frame).value.Register?
    requires var msg := RouteOf(cfg, s, ws, frame).value;
      AfterRegister(s.relay.world, ws, msg.username, msg.installId, msg.metadata, stamp).1.Registered?
    ensures var msg := RouteOf(cfg, s, ws, frame).value;
      RegisteredStep(
        cfg, s, System(OnRegister(cfg, Attach(s.relay, ws), ws, msg, stamp), LogMessage(cfg, s, ws, frame)),
        ws, msg.username)
  {
    hide OnRegister, AfterRegister, LogMessage, RouteOf, Records;
    var r := Attach(s.relay, ws);
    AttachView(s.relay, ws);
    RoutedIsUnpaired(cfg, s, ws, frame);
    RegisterNotes(cfg, s, ws, frame);
    RegisteredTimers(cfg, r, ws, RouteOf(cfg, s, ws, frame).value, stamp);
  }

  lemma RoutedIsUnpaired(cfg: Config, s: System, ws: SocketId, frame: Frame)
    requires RouteOf(cfg, s, ws, frame).Some?
    ensures !StateOf(s.relay, ws).paired
  {
  }

  /** A registration's notes: the route, and a sign of life now. */
  lemma RegisterNotes(cfg: Config, s: System, ws: SocketId, frame: Frame)
    requires RouteOf(cfg, s, ws, frame).Some? && RouteOf(cfg, s, ws, frame).value.Register?
    ensures var log' := LogMessage(cfg, s, ws, frame);
      && ws in log' && log'[ws].route.Some?
      && forall x :: x != ws ==> (x in log' <==> x in s.log) && (x in s.log ==> log'[x] == s.log[x])
  {
  }

  lemma RegisteredAlive(cfg: Config, s: System, ws: SocketId, frame: Frame, stamp: string)
    requires Records(s.relay) && Alive(cfg, s) && Enabled(s, Message(ws, frame, stamp)) && TrackOf(s, ws).route.None?
    requires RouteOf(cfg, s, ws, frame).Some? && RouteOf(cfg, s, ws, frame).value.Register?
    requires var msg := RouteOf(cfg, s, ws, frame).value;
      AfterRegister(s.relay.world, ws, msg.username, msg.installId, msg.metadata, stamp).1.Registered?
    ensures Alive(cfg, Step(cfg, s, Message(ws, frame, stamp)))
  {
    RoutedMessage(cfg, s, ws, frame, stamp);
    RegisteredStepHolds(cfg, s, ws, frame, stamp);
    RegisteredStepAlive(cfg, s, Step(cfg, s, Message(ws, frame, stamp)), ws, RouteOf(cfg, s, ws, frame).value.username);
  }

  lemma MarkPairedTimers(r: Relay, ws: SocketId, name: string, serverWs: SocketId)
    requires Records(r) && ws in r.stateOf && serverWs in r.stateOf && ws != serverWs
    ensures var r' := MarkPaired(r, ws, name, serverWs);
      && r'.timers == Drop(Drop(r.timers, StateOf(r, serverWs).pingInterval), StateOf(r, serverWs).pongTimeout)
      && r'.nextTimer == r.nextTimer && r'.now == r.now && r'.stateOf == r.stateOf && r'.world == r.world
      && forall x :: StateOf(r', x) ==
           if x == serverWs then StateOf(r, x).(paired := true, pingInterval := None, pongTimeout := None)
           else if x == ws then StateOf(r, x).(username := Some(name), isServer := Some(false), paired := true)
           else StateOf(r, x)
  {
    var st := StateOf(r, ws).(username := Some(name), isServer := Some(false), paired := true);
    SetRecordView(r, ws, st);
    var r1 := SetRecord(r, r.stateOf[ws], st);
    var sst := StateOf(r1, serverWs).(paired := true);
    SetRecordView(r1, serverWs, sst);
    StopPingView(SetRecord(r1, r.stateOf[serverWs], sst), serverWs);
  }

  /** The step of a pairing, seen by the timers. */
  ghost predicate ClaimedStep(s: System, s': System, ws: SocketId, serverWs: SocketId) {
    && ws != serverWs && serverWs in s.relay.stateOf && ws in s'.relay.stateOf
    && (forall x :: x != ws ==> (x in s'.relay.stateOf <==> x in s.relay.stateOf))
    && (forall x :: x in s.relay.stateOf ==> x in s'.relay.stateOf && s'.relay.stateOf[x] == s.relay.stateOf[x])
    && s'.relay.timers ==
         Drop(Drop(s.relay.timers, StateOf(s.relay, serverWs).pingInterval), StateOf(s.relay, serverWs).pongTimeout)
    && s'.relay.nextTimer == s.relay.nextTimer && s'.relay.now == s.relay.now
    && StateOf(s'.relay, serverWs) ==
         StateOf(s.relay, serverWs).(paired := true, pingInterval := None, pongTimeout := None)
    && StateOf(s'.relay, ws).paired && StateOf(s'.relay, ws).pingInterval == StateOf(s.relay, ws).pingInterval
    && StateOf(s'.relay, ws).pongTimeout == StateOf(s.relay, ws).pongTimeout
    && (forall x :: x != ws && x != serverWs ==> StateOf(s'.relay, x) == StateOf(s.relay, x))
    && (forall x :: x != ws && x != serverWs ==> TrackOf(s', x) == TrackOf(s, x))
    && TrackOf(s, ws).route.None?
  }

  /** Neither partner has a timer after the pairing. */
  lemma ClaimedHasNoTimers(cfg: Config, s: System, s': System, ws: SocketId, serverWs: SocketId, id: TimerId)
    requires Alive(cfg, s) && ClaimedStep(s, s', ws, serverWs) && id in s'.relay.timers
    ensures id in s.relay.timers && s'.relay.timers[id] == s.relay.timers[id]
    ensures s.relay.timers[id].ws != ws && s.relay.timers[id].ws != serverWs
  {
    assert TimerAt(cfg, s.relay, id);
    assert SocketAlive(cfg, s.relay, ws, TrackOf(s, ws));
  }

  lemma ClaimedApart(cfg: Config, s: System, s': System, ws: SocketId, serverWs: SocketId)
    requires Alive(cfg, s) && ClaimedStep(s, s', ws, serverWs)
    ensures Apart(s, s', {ws, serverWs})
  {
    assert SocketAlive(cfg, s.relay, serverWs, TrackOf(s, serverWs));
    forall id: TimerId | id in s'.relay.timers
      ensures id in s.relay.timers && s'.relay.timers[id] == s.relay.timers[id]
    {
      ClaimedHasNoTimers(cfg, s, s', ws, serverWs, id);
    }
  }

  lemma ClaimedStepAlive(cfg: Config, s: System, s': System, ws: SocketId, serverWs: SocketId)
    requires Alive(cfg, s) && ClaimedStep(s, s', ws, serverWs)
    ensures Alive(cfg, s')
  {
    assert SocketAlive(cfg, s.relay, ws, TrackOf(s, ws));
    assert SocketAlive(cfg, s.relay, serverWs, TrackOf(s, serverWs));
    forall i: TimerId | i in s'.relay.timers ensures s'.relay.timers[i].ws !in {ws, serverWs} {
      ClaimedHasNoTimers(cfg, s, s', ws, serverWs, i);
    }
    ClaimedApart(cfg, s, s', ws, serverWs);
    AliveFrom(cfg, s, s', {ws, serverWs});
  }

  lemma ClaimedTimers(r: Relay, ws: SocketId, msg: Routing, stamp: string)
    requires Records(r) && msg.Connect? && ws in r.stateOf
    requires msg.username in r.world.table && msg.username in r.world.manager.waiting
    requires var serverWs := r.world.manager.waiting[msg.username]; serverWs in r.stateOf && serverWs != ws
    ensures var r', serverWs := OnConnect(r, ws, msg, stamp), r.world.manager.waiting[msg.username];
      && r'.timers == Drop(Drop(r.timers, StateOf(r, serverWs).pingInterval), StateOf(r, serverWs).pongTimeout)
      && r'.nextTimer == r.nextTimer && r'.now == r.now && r'.stateOf == r.stateOf
      && (forall x :: StateOf(r', x) ==
           if x == serverWs then StateOf(r, x).(paired := true, pingInterval := None, pongTimeout := None)
           else if x == ws then StateOf(r, x).(username := Some(msg.username), isServer := Some(false), paired := true)
           else StateOf(r, x))
  {
    var (world, result) := AfterConnect(r.world, ws, msg.username, stamp);
    MarkPairedTimers(r.(world := world), ws, msg.username, result.serverWs);
  }

  lemma ClaimedStepHolds(cfg: Config, s: System, ws: SocketId, frame: Frame, stamp: string)
    requires Records(s.relay) && TrackOf(s, ws).route.None? && ClaimOf(cfg, s, ws, frame).Some?
    requires var serverWs := ClaimOf(cfg, s, ws, frame).value; serverWs != ws && serverWs in s.relay.stateOf
    ensures ClaimedStep(
      s, System(OnConnect(Attach(s.relay, ws), ws, RouteOf(cfg, s, ws, frame).value, stamp),
                LogMessage(cfg, s, ws, frame)),
      ws, ClaimOf(cfg, s, ws, frame).value)
  {
    hide OnConnect, LogMessage, RouteOf, Records, ClaimOf;
    ClaimNotes(cfg, s, ws, frame);
    AttachView(s.relay, ws);
    ClaimedTimers(Attach(s.relay, ws), ws, RouteOf(cfg, s, ws, frame).value, stamp);
  }

  /** A pairing's notes: no sign of life is taken from it. */
  lemma ClaimNotes(cfg: Config, s: System, ws: SocketId, frame: Frame)
    requires ClaimOf(cfg, s, ws, frame).Some? && ClaimOf(cfg, s, ws, frame).value != ws
    ensures var log', serverWs := LogMessage(cfg, s, ws, frame), ClaimOf(cfg, s, ws, frame).value;
      && ws in log' && serverWs in log'
      && forall x :: x != ws && x != serverWs ==> (x in log' <==> x in s.log) && (x in s.log ==> log'[x] == s.log[x])
    ensures RouteOf(cfg, s, ws, frame).Some?
    ensures var msg := RouteOf(cfg, s, ws, frame).value;
      && msg.Connect? && msg.username in s.relay.world.table && msg.username in s.relay.world.manager.waiting
      && s.relay.world.manager.waiting[msg.username] == ClaimOf(cfg, s, ws, frame).value
  {
  }

  lemma ClaimedAlive(cfg: Config, s: System, ws: SocketId, frame: Frame, stamp: string)
    requires Records(s.relay) && Alive(cfg, s) && Enabled(s, Message(ws, frame, stamp)) && TrackOf(s, ws).route.None?
    requires ClaimOf(cfg, s, ws, frame).Some?
    requires var serverWs := ClaimOf(cfg, s, ws, frame).value; serverWs != ws && serverWs in s.relay.stateOf
    ensures Alive(cfg, Step(cfg, s, Message(ws, frame, stamp)))
  {
    RoutedMessage(cfg, s, ws, frame, stamp);
    ClaimedStepHolds(cfg, s, ws, frame, stamp);
    ClaimedStepAlive(cfg, s, Step(cfg, s, Message(ws, frame, stamp)), ws, ClaimOf(cfg, s, ws, frame).value);
  }

  /** The step of a close event, seen by the timers. */
  ghost predicate ClosedStep(s: System, s': System, ws: SocketId) {
    && ws !in s'.relay.stateOf
    && (forall x :: x != ws ==> (x in s'.relay.stateOf <==> x in s.relay.stateOf))
    && (forall x :: x != ws && x in s.relay.stateOf ==> s'.relay.stateOf[x] == s.relay.stateOf[x])
    && s'.relay.timers ==
         Drop(Drop(s.relay.timers, StateOf(s.relay, ws).pingInterval), StateOf(s.relay, ws).pongTimeout)
    && s'.relay.nextTimer == s.relay.nextTimer && s'.relay.now == s.relay.now
    && (forall x :: x != ws ==> StateOf(s'.relay, x) == StateOf(s.relay, x))
    && s'.log == s.log
  }

  lemma ClosedStepAlive(cfg: Config, s: System, s': System, ws: SocketId)
    requires Alive(cfg, s) && ClosedStep(s, s', ws)
    ensures Alive(cfg, s') && forall id :: id in s'.relay.timers ==> s'.relay.timers[id].ws != ws
  {
    assert SocketAlive(cfg, s.relay, ws, TrackOf(s, ws));
    forall id: TimerId | id in s'.relay.timers ensures s'.relay.timers[id].ws != ws {
      assert TimerAt(cfg, s.relay, id);
    }
    AliveFrom(cfg, s, s', {ws});
  }

  lemma CloseTimers(r: Relay, ws: SocketId)
    requires Records(r)
    ensures var r' := OnClose(r, ws);
      && r'.timers == Drop(Drop(r.timers, StateOf(r, ws).pingInterval), StateOf(r, ws).pongTimeout)
      && r'.nextTimer == r.nextTimer && r'.now == r.now && r'.stateOf == Attach(r, ws).stateOf - {ws}
      && (forall x :: x != ws ==> StateOf(r', x) == StateOf(r, x))
  {
    AttachView(r, ws);
    StopPingView(Attach(r, ws), ws);
  }

  lemma ClosedAlive(cfg: Config, s: System, ws: SocketId)
    requires Records(s.relay) && Alive(cfg, s) && Enabled(s, CloseEvent(ws))
    ensures Alive(cfg, Step(cfg, s, CloseEvent(ws)))
    ensures forall id :: id in Step(cfg, s, CloseEvent(ws)).relay.timers ==>
      Step(cfg, s, CloseEvent(ws)).relay.timers[id].ws != ws
  {
    hide Records, OnClose, Alive;
    SameRecords(s.relay, SeenClosed(s.relay, ws));
    CloseTimers(SeenClosed(s.relay, ws), ws);
    ClosedStepAlive(cfg, s, Step(cfg, s, CloseEvent(ws)), ws);
  }

  /** A waiting server's record exists: it registered. */
  lemma WaitingIsAttached(s: System, name: string)
    requires Coherent(s) && name in s.relay.world.manager.waiting
    ensures s.relay.world.manager.waiting[name] in s.relay.stateOf
  {
    assert IsLive(ShapeOf(s), s.relay.world.manager.waiting[name]);
  }

  lemma RoutedKeepsAlive(cfg: Config, s: System, ws: SocketId, frame: Frame, stamp: string)
    requires Coherent(s) && Alive(cfg, s) && Enabled(s, Message(ws, frame, stamp)) && TrackOf(s, ws).route.None?
    requires RouteOf(cfg, s, ws, frame).Some?
    ensures Alive(cfg, Step(cfg, s, Message(ws, frame, stamp)))
  {
    var msg := RouteOf(cfg, s, ws, frame).value;
    BlankIsUnknown(s.relay.world.manager, ShapeOf(s), ws);
    if msg.Register? {
      if AfterRegister(s.relay.world, ws, msg.username, msg.installId, msg.metadata, stamp).1.Registered? {
        RegisteredAlive(cfg, s, ws, frame, stamp);
      } else {
        RefusedAlive(cfg, s, ws, frame, stamp);
      }
    } else if ClaimOf(cfg, s, ws, frame).Some? {
      WaitingIsAttached(s, msg.username);
      ClaimedAlive(cfg, s, ws, frame, stamp);
    } else {
      RefusedAlive(cfg, s, ws, frame, stamp);
    }
  }

  lemma StepKeepsAlive(cfg: Config, s: System, e: Event)
    requires Delays(cfg) && Coherent(s) && Alive(cfg, s) && Enabled(s, e) && Disciplined(cfg, s, e)
    ensures Alive(cfg, Step(cfg, s, e))
  {
    match e
    case Opened(ws) => OpenedAlive(cfg, s, ws);
    case Message(ws, frame, stamp) =>
      if RouteOf(cfg, s, ws, frame).Some? {
        RoutedKeepsAlive(cfg, s, ws, frame, stamp);
      } else {
        UnroutedAlive(cfg, s, ws, frame, stamp);
      }
    case Pong(ws) => PongAlive(cfg, s, ws);
    case Errored(ws) => ErroredAlive(cfg, s, ws);
    case PeerClosing(ws) => PeerClosingAlive(cfg, s, ws);
    case CloseEvent(ws) => ClosedAlive(cfg, s, ws);
    case Tick(id) => TickAlive(cfg, s, id);
    case Expire(id) => ExpireAlive(cfg, s, id);
    case Elapse(ms) => ElapseAlive(cfg, s, ms);
    case _ => TableAlive(cfg, s, e);
  }
}
