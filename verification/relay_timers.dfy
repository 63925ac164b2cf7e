/** What the timers do in every run, disciplined or not, whatever the delays are: silence is closed. */
module RelayTimers {
  import opened Wrappers
  import opened Sockets
  import opened Connections
  import opened WsHandler
  import opened RelaySystem
  import opened RelayLinks
  import opened RelayTelemetry
  import opened RelayTheorems

  /** A timer that is set is not overdue, and a tick is at most one interval away. */
  predicate TimelyAt(cfg: Config, r: Relay, id: TimerId) {
    id in r.timers ==>
      && id < r.nextTimer && r.now <= r.timers[id].due
      && (r.timers[id].Interval? ==> r.timers[id].due <= r.now + cfg.pingIntervalMs)
  }

  /** A record that names timers names its own; other timers that captured it may be set as well. */
  predicate OwnTimers(r: Relay, ref: nat) {
    ref in r.records ==>
      var st := r.records[ref];
      && (st.pingInterval.Some? ==> IsOwn(r, ref, st.pingInterval.value, true))
      && (st.pongTimeout.Some? ==> IsOwn(r, ref, st.pongTimeout.value, false))
  }

  predicate IsOwn(r: Relay, ref: nat, id: TimerId, isInterval: bool) {
    id < r.nextTimer && (id in r.timers ==> r.timers[id].ref == ref && r.timers[id].Interval? == isInterval)
  }

  ghost predicate Booked(cfg: Config, r: Relay) {
    && (forall id: TimerId :: TimelyAt(cfg, r, id))
    && (forall ref: nat :: OwnTimers(r, ref))
  }

  lemma AttachBooked(cfg: Config, r: Relay, ws: SocketId)
    requires Records(r) && Booked(cfg, r)
    ensures Booked(cfg, Attach(r, ws))
  {
    var r' := Attach(r, ws);
    forall id: TimerId ensures TimelyAt(cfg, r', id) {
      assert TimelyAt(cfg, r, id);
    }
    forall ref: nat ensures OwnTimers(r', ref) {
      assert OwnTimers(r, ref);
    }
  }

  lemma StopPingBooked(cfg: Config, r: Relay, ref: nat)
    requires Booked(cfg, r)
    ensures Booked(cfg, StopPing(r, ref))
  {
    var r' := StopPing(r, ref);
    forall id: TimerId ensures TimelyAt(cfg, r', id) {
      assert TimelyAt(cfg, r, id);
    }
    forall x: nat ensures OwnTimers(r', x) {
      assert OwnTimers(r, x);
    }
  }

  lemma StartPingBooked(cfg: Config, r: Relay, ws: SocketId, ref: nat)
    requires Booked(cfg, r)
    ensures Booked(cfg, StartPing(cfg, r, ws, ref))
  {
    var r' := StartPing(cfg, r, ws, ref);
    forall id: TimerId ensures TimelyAt(cfg, r', id) {
      assert TimelyAt(cfg, r, id);
    }
    forall x: nat ensures OwnTimers(r', x) {
      assert OwnTimers(r, x);
    }
  }

  /** Records may change as long as they name the same timers. */
  lemma SetRecordBooked(cfg: Config, r: Relay, ref: nat, st: ConnectionState)
    requires Booked(cfg, r)
    requires st.pingInterval == RecordAt(r, ref).pingInterval && st.pongTimeout == RecordAt(r, ref).pongTimeout
    ensures Booked(cfg, SetRecord(r, ref, st))
  {
    var r' := SetRecord(r, ref, st);
    forall id: TimerId ensures TimelyAt(cfg, r', id) {
      assert TimelyAt(cfg, r, id);
    }
    forall x: nat ensures OwnTimers(r', x) {
      assert OwnTimers(r, x);
    }
  }

  lemma SameBooked(cfg: Config, r: Relay, r': Relay)
    requires Booked(cfg, r) && r'.timers == r.timers && r'.nextTimer == r.nextTimer && r'.records == r.records
    requires r'.now == r.now
    ensures Booked(cfg, r')
  {
    forall id: TimerId ensures TimelyAt(cfg, r', id) {
      assert TimelyAt(cfg, r, id);
    }
    forall x: nat ensures OwnTimers(r', x) {
      assert OwnTimers(r, x);
    }
  }

  lemma RegisterBooked(cfg: Config, r: Relay, ws: SocketId, msg: Routing, stamp: string)
    requires Booked(cfg, r) && msg.Register? && ws in r.stateOf
    ensures Booked(cfg, OnRegister(cfg, r, ws, msg, stamp))
  {
    hide AfterRegister, Booked;
    var (world, result) := AfterRegister(r.world, ws, msg.username, msg.installId, msg.metadata, stamp);
    var r1, ref := r.(world := world), r.stateOf[ws];
    SameBooked(cfg, r, r1);
    if result.Registered? {
      var st := RecordAt(r1, ref).(username := Some(msg.username), isServer := Some(true));
      SetRecordBooked(cfg, r1, ref, st);
      var r2 := WithReply(SetRecord(r1, ref, st), ws, ServerRegistered);
      SameBooked(cfg, SetRecord(r1, ref, st), r2);
      StartPingBooked(cfg, r2, ws, ref);
      SameBooked(cfg, StartPing(cfg, r2, ws, ref), OnRegister(cfg, r, ws, msg, stamp));
    } else {
      SameBooked(cfg, r, OnRegister(cfg, r, ws, msg, stamp));
    }
  }

  lemma MarkPairedBooked(cfg: Config, r: Relay, ws: SocketId, name: string, serverWs: SocketId)
    requires Records(r) && Booked(cfg, r) && ws in r.stateOf
    ensures Booked(cfg, MarkPaired(r, ws, name, serverWs))
  {
    hide Booked, Records;
    var st := StateOf(r, ws).(username := Some(name), isServer := Some(false), paired := true);
    SetRecordBooked(cfg, r, r.stateOf[ws], st);
    SetRecordView(r, ws, st);
    var r1 := SetRecord(r, r.stateOf[ws], st);
    AttachBooked(cfg, r1, serverWs);
    var r2 := Attach(r1, serverWs);
    var sref := r2.stateOf[serverWs];
    SetRecordBooked(cfg, r2, sref, RecordAt(r2, sref).(paired := true));
    StopPingBooked(cfg, SetRecord(r2, sref, RecordAt(r2, sref).(paired := true)), sref);
  }

  lemma ConnectBooked(cfg: Config, r: Relay, ws: SocketId, msg: Routing, stamp: string)
    requires Records(r) && Booked(cfg, r) && msg.Connect? && ws in r.stateOf
    ensures Booked(cfg, OnConnect(r, ws, msg, stamp))
  {
    hide AfterConnect, Booked, Records, MarkPaired;
    var (world, result) := AfterConnect(r.world, ws, msg.username, stamp);
    var r1 := r.(world := world);
    SameBooked(cfg, r, r1);
    if result.Connected? {
      SameRecords(r, r1);
      MarkPairedBooked(cfg, r1, ws, msg.username, result.serverWs);
      SameBooked(cfg, MarkPaired(r1, ws, msg.username, result.serverWs), OnConnect(r, ws, msg, stamp));
    } else {
      SameBooked(cfg, r, OnConnect(r, ws, msg, stamp));
    }
  }

  lemma MessageBooked(cfg: Config, r: Relay, ws: SocketId, frame: Frame, stamp: string)
    requires Records(r) && Booked(cfg, r)
    ensures Booked(cfg, OnMessage(cfg, r, ws, frame, stamp))
  {
    hide Booked, Records, OnRegister, OnConnect, AfterForward, StateOf;
    AttachBooked(cfg, r, ws);
    AttachView(r, ws);
    var r0 := Attach(r, ws);
    hide Attach;
    if StateOf(r0, ws).paired {
      SameBooked(cfg, r0, OnMessage(cfg, r, ws, frame, stamp));
    } else if !frame.isBinary {
      match cfg.parse(frame.data)
      case Register(_, _, _) => RegisterBooked(cfg, r0, ws, cfg.parse(frame.data), stamp);
      case Connect(_) => ConnectBooked(cfg, r0, ws, cfg.parse(frame.data), stamp);
      case _ =>
    }
  }

  lemma CloseBooked(cfg: Config, r: Relay, ws: SocketId)
    requires Records(r) && Booked(cfg, r)
    ensures Booked(cfg, OnClose(r, ws))
  {
    hide Booked, Records, AfterClose;
    AttachBooked(cfg, r, ws);
    var r0 := Attach(r, ws);
    StopPingBooked(cfg, r0, r0.stateOf[ws]);
    SameBooked(cfg, StopPing(r0, r0.stateOf[ws]), OnClose(r, ws));
  }

  lemma PongBooked(cfg: Config, r: Relay, ws: SocketId)
    requires Records(r) && Booked(cfg, r)
    ensures Booked(cfg, OnPong(r, ws))
  {
    AttachBooked(cfg, r, ws);
    var r0, r' := Attach(r, ws), OnPong(r, ws);
    forall id: TimerId ensures TimelyAt(cfg, r', id) {
      assert TimelyAt(cfg, r0, id);
    }
    forall x: nat ensures OwnTimers(r', x) {
      assert OwnTimers(r0, x);
    }
  }

  lemma TickBooked(cfg: Config, r: Relay, id: TimerId)
    requires Booked(cfg, r) && id in r.timers && r.timers[id].Interval? && r.timers[id].due == r.now
    ensures Booked(cfg, OnTick(cfg, r, id))
  {
    var r' := OnTick(cfg, r, id);
    assert TimelyAt(cfg, r, id);
    forall i: TimerId ensures TimelyAt(cfg, r', i) {
      assert TimelyAt(cfg, r, i);
    }
    forall x: nat ensures OwnTimers(r', x) {
      assert OwnTimers(r, x);
    }
  }

  lemma TimeoutBooked(cfg: Config, r: Relay, id: TimerId)
    requires Booked(cfg, r) && id in r.timers
    ensures Booked(cfg, OnTimeout(r, id))
  {
    var r' := OnTimeout(r, id);
    forall i: TimerId ensures TimelyAt(cfg, r', i) {
      assert TimelyAt(cfg, r, i);
    }
    forall x: nat ensures OwnTimers(r', x) {
      assert OwnTimers(r, x);
    }
  }

  lemma ElapseBooked(cfg: Config, s: System, ms: nat)
    requires Booked(cfg, s.relay) && Enabled(s, Elapse(ms))
    ensures Booked(cfg, s.relay.(now := s.relay.now + ms))
  {
    var r, r' := s.relay, s.relay.(now := s.relay.now + ms);
    forall i: TimerId ensures TimelyAt(cfg, r', i) {
      assert TimelyAt(cfg, r, i);
    }
    forall x: nat ensures OwnTimers(r', x) {
      assert OwnTimers(r, x);
    }
  }

  lemma StepBooked(cfg: Config, s: System, e: Event)
    requires Records(s.relay) && Booked(cfg, s.relay) && Enabled(s, e)
    ensures Booked(cfg, Step(cfg, s, e).relay)
  {
    hide Booked, Records, OnMessage, OnClose, OnPong, OnTick, OnTimeout, Attach;
    match e
    case Message(ws, frame, stamp) => MessageBooked(cfg, s.relay, ws, frame, stamp);
    case Pong(ws) => PongBooked(cfg, s.relay, ws);
    case Errored(ws) => AttachBooked(cfg, s.relay, ws);
    case CloseEvent(ws) =>
      SameRecords(s.relay, SeenClosed(s.relay, ws));
      SameBooked(cfg, s.relay, SeenClosed(s.relay, ws));
      CloseBooked(cfg, SeenClosed(s.relay, ws), ws);
    case Tick(id) => TickBooked(cfg, s.relay, id);
    case Expire(id) => TimeoutBooked(cfg, s.relay, id);
    case Elapse(ms) => ElapseBooked(cfg, s, ms);
    case _ => SameBooked(cfg, s.relay, Step(cfg, s, e).relay);
  }

  lemma {:induction false} RunBooked(cfg: Config, states: seq<System>, events: seq<Event>, i: nat)
    requires IsRun(cfg, states, events) && i < |states|
    ensures Booked(cfg, states[i].relay)
  {
    if i == 0 {
      var table :| states[0] == InitialSystem(table);
    } else {
      RunBooked(cfg, states, events, i - 1);
      hide Booked, Step, Enabled, Accounted, Records;
      RunAccounted(cfg, states, events, i - 1);
      AccountedKnows(states[i - 1]);
      StepBooked(cfg, states[i - 1], events[i - 1]);
    }
  }

  // ---- What becomes of one timer ----

  /** The timer is set for the socket, and captured the record that the socket has. */
  predicate IsSetFor(r: Relay, ws: SocketId, id: TimerId) {
    ws in r.stateOf && id in r.timers && r.timers[id].ws == ws && r.timers[id].ref == r.stateOf[ws]
  }

  predicate Stays(r: Relay, r': Relay, ws: SocketId, id: TimerId) {
    IsSetFor(r, ws, id) ==> IsSetFor(r', ws, id) && r'.timers[id] == r.timers[id]
  }

  lemma RegisterStays(cfg: Config, r: Relay, ws: SocketId, msg: Routing, stamp: string, x: SocketId, id: TimerId)
    requires Records(r) && Booked(cfg, r) && msg.Register?
    ensures Stays(r, OnRegister(cfg, Attach(r, ws), ws, msg, stamp), x, id)
  {
    hide AfterRegister;
    assert TimelyAt(cfg, r, id);
  }

  lemma ConnectStays(cfg: Config, r: Relay, ws: SocketId, msg: Routing, stamp: string, x: SocketId, id: TimerId)
    requires Records(r) && Booked(cfg, r) && msg.Connect?
    requires !StateOf(OnConnect(Attach(r, ws), ws, msg, stamp), x).paired
    ensures Stays(r, OnConnect(Attach(r, ws), ws, msg, stamp), x, id)
  {
    hide AfterConnect;
    var r0 := Attach(r, ws);
    var (world, result) := AfterConnect(r.world, ws, msg.username, stamp);
    if result.Connected? && result.serverWs in r0.stateOf {
      AttachBooked(cfg, r, ws);
      assert OwnTimers(r0, r0.stateOf[result.serverWs]);
    }
  }

  lemma MessageStays(cfg: Config, r: Relay, ws: SocketId, frame: Frame, stamp: string, x: SocketId, id: TimerId)
    requires Records(r) && Booked(cfg, r)
    ensures var r' := OnMessage(cfg, r, ws, frame, stamp); StateOf(r', x).paired || Stays(r, r', x, id)
  {
    hide OnRegister, OnConnect, Booked, Records;
    var msg := cfg.parse(frame.data);
    if !StateOf(Attach(r, ws), ws).paired && !frame.isBinary {
      if msg.Register? {
        RegisterStays(cfg, r, ws, msg, stamp, x, id);
      } else if msg.Connect? && !StateOf(OnConnect(Attach(r, ws), ws, msg, stamp), x).paired {
        ConnectStays(cfg, r, ws, msg, stamp, x, id);
      }
    }
  }

  lemma CloseStays(cfg: Config, r: Relay, ws: SocketId, x: SocketId, id: TimerId)
    requires Records(r) && Booked(cfg, r) && x != ws
    ensures Stays(r, OnClose(r, ws), x, id)
  {
    hide AfterClose;
    AttachBooked(cfg, r, ws);
    assert OwnTimers(Attach(r, ws), Attach(r, ws).stateOf[ws]);
  }

  lemma PongStays(cfg: Config, r: Relay, ws: SocketId, x: SocketId, id: TimerId)
    requires Records(r) && Booked(cfg, r) && (x == ws ==> id in r.timers ==> r.timers[id].Interval?)
    ensures Stays(r, OnPong(r, ws), x, id)
  {
    AttachBooked(cfg, r, ws);
    assert OwnTimers(Attach(r, ws), Attach(r, ws).stateOf[ws]);
  }

  /** The tick of another timer. */
  lemma TickStays(cfg: Config, r: Relay, tick: TimerId, x: SocketId, id: TimerId)
    requires Booked(cfg, r) && tick in r.timers && r.timers[tick].Interval? && id != tick
    requires !StateOf(r, x).paired
    ensures Stays(r, OnTick(cfg, r, tick), x, id)
  {
    assert TimelyAt(cfg, r, id) && OwnTimers(r, r.timers[tick].ref);
  }

  /** The timer's own tick: it stays set, and a pong timer of the same socket is armed. */
  lemma TickArms(cfg: Config, r: Relay, tick: TimerId, x: SocketId)
    requires Booked(cfg, r) && IsSetFor(r, x, tick) && r.timers[tick].Interval? && !StateOf(r, x).paired
    ensures var r' := OnTick(cfg, r, tick);
      && IsSetFor(r', x, tick) && r'.timers[tick].Interval?
      && IsSetFor(r', x, r.nextTimer) && r'.timers[r.nextTimer] == Timeout(x, r.stateOf[x], r.now + cfg.pongTimeoutMs)
  {
    assert TimelyAt(cfg, r, tick);
  }

  lemma CloseFaces(cfg: Config, s: System, ws: SocketId)
    requires Accounted(s) && Enabled(s, CloseEvent(ws))
    ensures var s' := Step(cfg, s, CloseEvent(ws));
      && (forall x :: x != ws ==> FaceOf(s'.relay, x) == FaceOf(s.relay, x))
      && FaceOf(s'.relay, ws) == Face(None, false) && Shut(s'.relay.world.net, ws)
  {
    hide OnClose, Records, NamesKnown, Accounted, FaceOf;
    AccountedKnows(s);
    var r := SeenClosed(s.relay, ws);
    SameRecords(s.relay, r);
    CloseView(r, ws);
    ClosedEffect(r, ws);
  }

  lemma AttachKeeps(r: Relay, x: SocketId, ws: SocketId, id: TimerId)
    ensures Stays(r, Attach(r, x), ws, id)
  {
  }

  lemma TimerSocket(s: System, id: TimerId)
    requires Accounted(s) && id in s.relay.timers
    ensures s.relay.timers[id].ws in s.relay.world.net
  {
  }

  /** A step that neither pairs nor shuts the socket leaves its timers set, but for a pong and the timer's own tick. */
  lemma StepStays(cfg: Config, s: System, e: Event, ws: SocketId, id: TimerId)
    requires Accounted(s) && Booked(cfg, s.relay) && Enabled(s, e) && e != Tick(id)
    requires e == Pong(ws) && id in s.relay.timers ==> s.relay.timers[id].Interval?
    requires !StateOf(s.relay, ws).paired && !StateOf(Step(cfg, s, e).relay, ws).paired
    requires IsSetFor(s.relay, ws, id) && !Shut(Step(cfg, s, e).relay.world.net, ws)
    ensures Stays(s.relay, Step(cfg, s, e).relay, ws, id)
  {
    hide Booked, Records, OnMessage, OnPong, OnTick, OnClose, NamesKnown, Accounted, StateOf, Attach;
    AccountedKnows(s);
    match e
    case Message(x, frame, stamp) => MessageStays(cfg, s.relay, x, frame, stamp, ws, id);
    case Pong(x) => PongStays(cfg, s.relay, x, ws, id);
    case CloseEvent(x) =>
      var r := SeenClosed(s.relay, x);
      SameRecords(s.relay, r);
      SameBooked(cfg, s.relay, r);
      CloseFaces(cfg, s, x);
      if x != ws {
        CloseStays(cfg, r, x, ws, id);
      }
    case Errored(x) => AttachKeeps(s.relay, x, ws, id);
    case Expire(x) => TimerSocket(s, x);
    case Tick(x) => TickStays(cfg, s.relay, x, ws, id);
    case _ =>
  }

  // ---- Sockets that are being pinged ----

  /** A timer that ends the socket's silence: the next ping by `deadline`, or the timeout of a ping by then. */
  predicate Watches(cfg: Config, r: Relay, ws: SocketId, id: TimerId, deadline: nat) {
    && IsSetFor(r, ws, id)
    && r.timers[id].due <= (if r.timers[id].Interval? then deadline else deadline + cfg.pongTimeoutMs)
  }

  /** The socket is being watched, unless it has been claimed or is no longer open. */
  ghost predicate Watched(cfg: Config, s: System, ws: SocketId, deadline: nat) {
    || StateOf(s.relay, ws).paired || Shut(s.relay.world.net, ws)
    || exists id: TimerId :: Watches(cfg, s.relay, ws, id, deadline)
  }

  /** Who gets paired stays paired until its close, and a name comes with a granted registration or a pairing. */
  lemma StepFaces(cfg: Config, s: System, e: Event, ws: SocketId)
    requires Accounted(s) && Enabled(s, e)
    ensures var s' := Step(cfg, s, e);
      && (FaceOf(s.relay, ws).paired ==> FaceOf(s'.relay, ws).paired || Shut(s'.relay.world.net, ws))
      && (FaceOf(s'.relay, ws).username.Some? && !FaceOf(s'.relay, ws).paired ==>
            || FaceOf(s.relay, ws).username.Some?
            || (e.Message? && e.ws == ws && IsRegistration(cfg, s, ws, e.frame, e.stamp)))
  {
    hide OnMessage, OnClose, OnTick, OnPong, Records, NamesKnown, Accounted, FaceOf;
    AccountedKnows(s);
    match e
    case Message(x, frame, stamp) => MessageFaces(cfg, s, x, frame, stamp, ws);
    case CloseEvent(x) => CloseFaces(cfg, s, x);
    case Tick(id) => TickFaces(cfg, s.relay, id);
    case Pong(x) => PongFaces(s.relay, x, ws);
    case Errored(x) => AttachFaces(s.relay, x, ws);
    case _ => WorldFaces(s.relay, Step(cfg, s, e).relay, ws);
  }

  lemma WorldFaces(r: Relay, r': Relay, ws: SocketId)
    requires r'.stateOf == r.stateOf && r'.records == r.records
    ensures FaceOf(r', ws) == FaceOf(r, ws)
  {
  }

  lemma AttachFaces(r: Relay, x: SocketId, ws: SocketId)
    requires Records(r)
    ensures FaceOf(Attach(r, x), ws) == FaceOf(r, ws)
  {
    AttachView(r, x);
  }

  lemma PongFaces(r: Relay, x: SocketId, ws: SocketId)
    requires Records(r)
    ensures FaceOf(OnPong(r, x), ws) == FaceOf(r, ws)
  {
    AttachView(r, x);
    var r0 := Attach(r, x);
    SetRecordView(r0, x, StateOf(r0, x).(lastPong := Some(r0.now), pongTimeout := None));
  }

  predicate IsRegistration(cfg: Config, s: System, ws: SocketId, frame: Frame, stamp: string) {
    var route := RouteOf(cfg, s, ws, frame);
    && route.Some? && route.value.Register?
    && AfterRegister(
         s.relay.world, ws, route.value.username, route.value.installId, route.value.metadata, stamp).1.Registered?
  }

  lemma MessageFaces(cfg: Config, s: System, x: SocketId, frame: Frame, stamp: string, ws: SocketId)
    requires Records(s.relay)
    ensures var r' := OnMessage(cfg, s.relay, x, frame, stamp);
      && (FaceOf(s.relay, ws).paired ==> FaceOf(r', ws).paired)
      && (FaceOf(r', ws).username.Some? && !FaceOf(r', ws).paired ==>
            FaceOf(s.relay, ws).username.Some? || (x == ws && IsRegistration(cfg, s, x, frame, stamp)))
  {
    hide OnMessage, OnRegister, OnConnect, AfterRegister, Records, FaceOf;
    var route := RouteOf(cfg, s, x, frame);
    if route.None? {
      hide RouteOf;
      UnroutedMeans(cfg, s, x, frame);
      UnroutedEffect(cfg, s.relay, x, frame, stamp);
    } else {
      RoutedMessage(cfg, s, x, frame, stamp);
      if route.value.Register? {
        RegisterEffect(cfg, s.relay, x, route.value, stamp);
      } else if ClaimOf(cfg, s, x, frame).Some? {
        ConnectFaces(s.relay, x, route.value, stamp);
      } else {
        RefusedConnectEffect(s.relay, x, route.value, stamp);
      }
    }
  }

  lemma UnroutedMeans(cfg: Config, s: System, x: SocketId, frame: Frame)
    requires RouteOf(cfg, s, x, frame).None?
    ensures StateOf(s.relay, x).paired || frame.isBinary
      || cfg.parse(frame.data).NotJson? || cfg.parse(frame.data).OtherJson?
  {
  }

  /** A socket that is still silent is still watched. */
  lemma StepWatched(cfg: Config, s: System, e: Event, ws: SocketId, deadline: nat)
    requires Accounted(s) && Booked(cfg, s.relay) && Enabled(s, e) && e != Pong(ws) && Watched(cfg, s, ws, deadline)
    ensures Watched(cfg, Step(cfg, s, e), ws, deadline)
  {
    var s' := Step(cfg, s, e);
    hide Accounted, Booked;
    StepFaces(cfg, s, e, ws);
    StepFreezes(cfg, s, e, ws);
    if !Shut(s'.relay.world.net, ws) && !StateOf(s'.relay, ws).paired {
      var id: TimerId :| Watches(cfg, s.relay, ws, id, deadline);
      if e == Tick(id) {
        hide OnTick;
        TickArms(cfg, s.relay, id, ws);
        assert Watches(cfg, s'.relay, ws, s.relay.nextTimer, deadline);
      } else {
        hide Step;
        StepStays(cfg, s, e, ws, id);
        assert Watches(cfg, s'.relay, ws, id, deadline);
      }
    }
  }

  lemma {:induction false} RunWatched(
    cfg: Config, states: seq<System>, events: seq<Event>, j: nat, i: nat, ws: SocketId, deadline: nat)
    requires IsRun(cfg, states, events) && j <= i < |states| && Watched(cfg, states[j], ws, deadline)
    requires forall k :: j <= k < i ==> events[k] != Pong(ws)
    ensures Watched(cfg, states[i], ws, deadline)
  {
    hide Watched, Booked, Accounted, Step, Enabled;
    if j < i {
      RunWatched(cfg, states, events, j, i - 1, ws, deadline);
      RunBooked(cfg, states, events, i - 1);
      RunAccounted(cfg, states, events, i - 1);
      StepWatched(cfg, states[i - 1], events[i - 1], ws, deadline);
    }
  }

  /** A socket with a name that nobody has claimed is being pinged, unless it is no longer open. */
  ghost predicate IsPinged(s: System, ws: SocketId) {
    FaceOf(s.relay, ws).username.Some? && !FaceOf(s.relay, ws).paired && !Shut(s.relay.world.net, ws) ==>
      exists id: TimerId :: IsSetFor(s.relay, ws, id) && s.relay.timers[id].Interval?
  }

  lemma RegistrationPings(cfg: Config, s: System, ws: SocketId, frame: Frame, stamp: string)
    requires Records(s.relay) && IsRegistration(cfg, s, ws, frame, stamp)
    ensures var r' := OnMessage(cfg, s.relay, ws, frame, stamp);
      IsSetFor(r', ws, s.relay.nextTimer) && r'.timers[s.relay.nextTimer].Interval?
  {
    hide AfterRegister, Records;
    RoutedMessage(cfg, s, ws, frame, stamp);
  }

  lemma StepPings(cfg: Config, s: System, e: Event, ws: SocketId)
    requires Accounted(s) && Booked(cfg, s.relay) && Enabled(s, e) && IsPinged(s, ws)
    ensures IsPinged(Step(cfg, s, e), ws)
  {
    var s' := Step(cfg, s, e);
    hide Accounted, Booked;
    StepFaces(cfg, s, e, ws);
    StepFreezes(cfg, s, e, ws);
    if FaceOf(s'.relay, ws).username.Some? && !FaceOf(s'.relay, ws).paired && !Shut(s'.relay.world.net, ws) {
      if FaceOf(s.relay, ws).username.Some? {
        var id: TimerId :| IsSetFor(s.relay, ws, id) && s.relay.timers[id].Interval?;
        if e == Tick(id) {
          TickArms(cfg, s.relay, id, ws);
        } else {
          StepStays(cfg, s, e, ws, id);
        }
        hide Step, OnTick;
        assert IsSetFor(s'.relay, ws, id);
      } else {
        AccountedKnows(s);
        RegistrationPings(cfg, s, ws, e.frame, e.stamp);
        assert IsSetFor(s'.relay, ws, s.relay.nextTimer);
      }
    }
  }

  lemma {:induction false} RunPings(cfg: Config, states: seq<System>, events: seq<Event>, i: nat, ws: SocketId)
    requires IsRun(cfg, states, events) && i < |states|
    ensures IsPinged(states[i], ws)
  {
    if i == 0 {
      var table :| states[0] == InitialSystem(table);
    } else {
      RunPings(cfg, states, events, i - 1, ws);
      hide IsPinged, Booked, Accounted, Step, Enabled;
      RunBooked(cfg, states, events, i - 1);
      RunAccounted(cfg, states, events, i - 1);
      StepPings(cfg, states[i - 1], events[i - 1], ws);
    }
  }

  /** A registered socket that nobody has claimed. */
  predicate Unclaimed(s: System, ws: SocketId) {
    StateOf(s.relay, ws).username.Some? && !StateOf(s.relay, ws).paired
  }

  lemma WatchEnds(cfg: Config, r: Relay, ws: SocketId, id: TimerId, deadline: nat)
    requires Booked(cfg, r) && Watches(cfg, r, ws, id, deadline)
    ensures r.now <= deadline + cfg.pongTimeoutMs
  {
    assert TimelyAt(cfg, r, id);
  }

  /**
   * In any run and with any delays: a socket that sends no pong from state `j`
   * on, and is still unclaimed at state `i` more than one ping interval and one
   * pong timeout later, is no longer open.
   */
  lemma SilenceIsClosed(cfg: Config, states: seq<System>, events: seq<Event>, j: nat, i: nat, ws: SocketId)
    requires IsRun(cfg, states, events) && j <= i < |states|
    requires Unclaimed(states[j], ws) && Unclaimed(states[i], ws)
    requires forall k :: j <= k < i ==> events[k] != Pong(ws)
    requires states[j].relay.now + cfg.pingIntervalMs + cfg.pongTimeoutMs < states[i].relay.now
    ensures !PhaseIn(states[i], ws).Open?
  {
    var deadline := states[j].relay.now + cfg.pingIntervalMs;
    RunPings(cfg, states, events, j, ws);
    RunBooked(cfg, states, events, j);
    if !Shut(states[j].relay.world.net, ws) {
      var id: TimerId :| IsSetFor(states[j].relay, ws, id) && states[j].relay.timers[id].Interval?;
      assert TimelyAt(cfg, states[j].relay, id);
      assert Watches(cfg, states[j].relay, ws, id, deadline);
    }
    RunWatched(cfg, states, events, j, i, ws, deadline);
    RunBooked(cfg, states, events, i);
    if PhaseIn(states[i], ws).Open? {
      var id: TimerId :| Watches(cfg, states[i].relay, ws, id, deadline);
      WatchEnds(cfg, states[i].relay, ws, id, deadline);
    }
  }
}
