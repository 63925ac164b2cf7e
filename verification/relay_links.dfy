/** What each handler call does to the marks of the sockets, and the invariant of disciplined runs. */
module RelayLinks {
  import opened Wrappers
  import opened Sockets
  import opened Connections
  import opened WsHandler
  import opened RelaySystem
  import opened ConnectionIndex
  import opened RelayShape
  import Registry
  import Usernames

  /** Every attached socket has a record of its own, and every timer a record. */
  ghost predicate Records(r: Relay) {
    && (forall ws :: ws in r.stateOf ==> r.stateOf[ws] in r.records)
    && (forall a, b :: a in r.stateOf && b in r.stateOf && r.stateOf[a] == r.stateOf[b] ==> a == b)
    && (forall ref :: ref in r.records ==> ref < r.nextRecord)
    && (forall id :: id in r.timers ==> r.timers[id].ref in r.records)
  }

  lemma AttachView(r: Relay, ws: SocketId)
    requires Records(r)
    ensures Records(Attach(r, ws))
    ensures forall x :: StateOf(Attach(r, ws), x) == StateOf(r, x)
  {
  }

  lemma SetRecordView(r: Relay, ws: SocketId, st: ConnectionState)
    requires Records(r) && ws in r.stateOf
    ensures var r' := SetRecord(r, r.stateOf[ws], st);
      Records(r') && forall x :: StateOf(r', x) == if x == ws then st else StateOf(r, x)
  {
  }

  /** What the rest of the relay can see of a record. */
  datatype Face = Face(username: Option<string>, paired: bool)

  function FaceOf(r: Relay, ws: SocketId): Face {
    var st := StateOf(r, ws);
    Face(st.username, st.paired)
  }

  /** Sends and closes leave every socket known, and no socket closed that was not. */
  ghost predicate SameLive(net: Net, net': Net) {
    net'.Keys == net.Keys && forall ws :: ws in net ==> (net'[ws].phase.Closed? <==> net[ws].phase.Closed?)
  }

  lemma SendLive(net: Net, ws: SocketId, item: Sent)
    ensures SameLive(net, Send(net, ws, item))
  {
  }

  lemma StartCloseLive(net: Net, ws: SocketId)
    ensures SameLive(net, StartClose(net, ws))
  {
  }

  lemma RegisterNet(cfg: Config, r: Relay, ws: SocketId, msg: Routing, stamp: string)
    requires ws in r.stateOf && msg.Register?
    ensures SameLive(r.world.net, OnRegister(cfg, r, ws, msg, stamp).world.net)
  {
    var (world, result) := AfterRegister(r.world, ws, msg.username, msg.installId, msg.metadata, stamp);
    if result.Registered? {
      if msg.username in r.world.manager.waiting {
        StartCloseLive(r.world.net, r.world.manager.waiting[msg.username]);
      }
      SendLive(world.net, ws, Control(ServerRegistered));
    } else {
      var reply := Control(ServerRejected(result.reason));
      SendLive(world.net, ws, reply);
      StartCloseLive(Send(world.net, ws, reply), ws);
    }
  }

  lemma StartPingView(cfg: Config, r: Relay, ws: SocketId)
    requires Records(r) && ws in r.stateOf
    ensures var r' := StartPing(cfg, r, ws, r.stateOf[ws]);
      Records(r') && r'.stateOf == r.stateOf && forall x :: FaceOf(r', x) == FaceOf(r, x)
  {
    SetRecordView(r, ws, StateOf(r, ws).(pingInterval := Some(r.nextTimer)));
  }

  lemma GrantView(cfg: Config, r: Relay, ws: SocketId, msg: Routing, stamp: string)
    requires Records(r) && ws in r.stateOf && msg.Register?
    requires AfterRegister(r.world, ws, msg.username, msg.installId, msg.metadata, stamp).1.Registered?
    ensures var r' := OnRegister(cfg, r, ws, msg, stamp);
      && Records(r') && r'.stateOf == r.stateOf
      && forall x :: FaceOf(r', x) == if x == ws then FaceOf(r, x).(username := Some(msg.username)) else FaceOf(r, x)
  {
    var world := AfterRegister(r.world, ws, msg.username, msg.installId, msg.metadata, stamp).0;
    var r1 := r.(world := world);
    SameRecords(r, r1);
    var st := StateOf(r1, ws).(username := Some(msg.username), isServer := Some(true));
    SetRecordView(r1, ws, st);
    var r2 := WithReply(SetRecord(r1, r.stateOf[ws], st), ws, ServerRegistered);
    SameRecords(SetRecord(r1, r.stateOf[ws], st), r2);
    StartPingView(cfg, r2, ws);
    SameRecords(StartPing(cfg, r2, ws, r2.stateOf[ws]), OnRegister(cfg, r, ws, msg, stamp));
    hide StartPing, OnRegister, AfterRegister, Records;
  }

  lemma RejectionView(cfg: Config, r: Relay, ws: SocketId, msg: Routing, stamp: string)
    requires Records(r) && ws in r.stateOf && msg.Register?
    requires AfterRegister(r.world, ws, msg.username, msg.installId, msg.metadata, stamp).1.Rejected?
    ensures var r' := OnRegister(cfg, r, ws, msg, stamp);
      Records(r') && r'.stateOf == r.stateOf && forall x :: FaceOf(r', x) == FaceOf(r, x)
  {
    SameRecords(r, OnRegister(cfg, r, ws, msg, stamp));
  }

  lemma RegisterManager(cfg: Config, r: Relay, ws: SocketId, msg: Routing, stamp: string)
    requires ws in r.stateOf && msg.Register?
    ensures OnRegister(cfg, r, ws, msg, stamp).world.manager ==
      AfterRegister(r.world, ws, msg.username, msg.installId, msg.metadata, stamp).0.manager
  {
  }

  lemma RegisterView(cfg: Config, r: Relay, ws: SocketId, msg: Routing, stamp: string)
    requires Records(r) && ws in r.stateOf && msg.Register?
    ensures var r' := OnRegister(cfg, r, ws, msg, stamp);
      var ok := AfterRegister(r.world, ws, msg.username, msg.installId, msg.metadata, stamp).1.Registered?;
      && Records(r') && r'.stateOf == r.stateOf
      && r'.world.manager == AfterRegister(r.world, ws, msg.username, msg.installId, msg.metadata, stamp).0.manager
      && forall x :: FaceOf(r', x) ==
           if x == ws && ok then FaceOf(r, x).(username := Some(msg.username)) else FaceOf(r, x)
  {
    hide OnRegister, AfterRegister, Records;
    RegisterManager(cfg, r, ws, msg, stamp);
    if AfterRegister(r.world, ws, msg.username, msg.installId, msg.metadata, stamp).1.Registered? {
      GrantView(cfg, r, ws, msg, stamp);
    } else {
      RejectionView(cfg, r, ws, msg, stamp);
    }
  }

  lemma MarkServerPairedView(r: Relay, serverWs: SocketId)
    requires Records(r)
    ensures var r' := MarkServerPaired(r, serverWs);
      && Records(r') && r'.world == r.world && r'.stateOf.Keys == r.stateOf.Keys + {serverWs}
      && forall x :: FaceOf(r', x) == if x == serverWs then FaceOf(r, x).(paired := true) else FaceOf(r, x)
  {
    AttachView(r, serverWs);
    var r1 := Attach(r, serverWs);
    var st := StateOf(r1, serverWs).(paired := true);
    SetRecordView(r1, serverWs, st);
    SetRecordView(SetRecord(r1, r1.stateOf[serverWs], st), serverWs, st.(pingInterval := None, pongTimeout := None));
  }

  lemma MarkPairedView(r: Relay, ws: SocketId, name: string, serverWs: SocketId)
    requires Records(r) && ws in r.stateOf
    ensures var r' := MarkPaired(r, ws, name, serverWs);
      && Records(r') && r'.world == r.world && r'.stateOf.Keys == r.stateOf.Keys + {serverWs}
      && forall x :: FaceOf(r', x) ==
           if x == ws then Face(Some(name), true)
           else if x == serverWs then FaceOf(r, x).(paired := true)
           else FaceOf(r, x)
  {
    var st := StateOf(r, ws).(username := Some(name), isServer := Some(false), paired := true);
    SetRecordView(r, ws, st);
    MarkServerPairedView(SetRecord(r, r.stateOf[ws], st), serverWs);
  }

  lemma StopPingView(r: Relay, ws: SocketId)
    requires Records(r) && ws in r.stateOf
    ensures var r' := StopPing(r, r.stateOf[ws]);
      && Records(r') && r'.stateOf == r.stateOf && r'.world == r.world
      && (forall id :: id in r'.timers ==> id in r.timers && r'.timers[id] == r.timers[id])
      && forall x :: StateOf(r', x) ==
           if x == ws then StateOf(r, x).(pingInterval := None, pongTimeout := None) else StateOf(r, x)
  {
    SetRecordView(r, ws, StateOf(r, ws).(pingInterval := None, pongTimeout := None));
  }

  lemma CloseView(r: Relay, ws: SocketId)
    requires Records(r)
    ensures var r' := OnClose(r, ws);
      && Records(r') && r'.stateOf.Keys == r.stateOf.Keys - {ws}
      && r'.world.manager == AfterClose(r.world, ws, FaceOf(r, ws).username).0.manager
      && forall x :: FaceOf(r', x) == if x == ws then Face(None, false) else FaceOf(r, x)
  {
    AttachView(r, ws);
    StopPingView(Attach(r, ws), ws);
  }

  lemma SameRecords(r: Relay, r': Relay)
    requires Records(r) && r'.stateOf == r.stateOf && r'.records == r.records && r'.nextRecord == r.nextRecord
    requires r'.timers == r.timers
    ensures Records(r') && forall x :: FaceOf(r', x) == FaceOf(r, x)
  {
  }

  lemma ConnectView(r: Relay, ws: SocketId, msg: Routing, stamp: string)
    requires Records(r) && ws in r.stateOf && msg.Connect?
    requires msg.username in r.world.table && msg.username in r.world.manager.waiting
    ensures var r' := OnConnect(r, ws, msg, stamp);
      var serverWs := r.world.manager.waiting[msg.username];
      && Records(r') && r'.stateOf.Keys == r.stateOf.Keys + {serverWs}
      && r'.world.manager == Claim(r.world.manager, ws, msg.username)
      && forall x :: FaceOf(r', x) ==
           if x == ws then Face(Some(msg.username), true)
           else if x == serverWs then FaceOf(r, x).(paired := true)
           else FaceOf(r, x)
  {
    var (world, result) := AfterConnect(r.world, ws, msg.username, stamp);
    var r1 := r.(world := world);
    SameRecords(r, r1);
    MarkPairedView(r1, ws, msg.username, result.serverWs);
    SameRecords(MarkPaired(r1, ws, msg.username, result.serverWs), OnConnect(r, ws, msg, stamp));
  }

  lemma ConnectNet(r: Relay, ws: SocketId, msg: Routing, stamp: string)
    requires ws in r.stateOf && msg.Connect?
    ensures SameLive(r.world.net, OnConnect(r, ws, msg, stamp).world.net)
  {
    var (world, result) := AfterConnect(r.world, ws, msg.username, stamp);
    if result.Connected? {
      SendLive(r.world.net, ws, Control(ClientConnected));
    } else {
      var reply := Control(ClientError(result.error));
      SendLive(r.world.net, ws, reply);
      StartCloseLive(Send(r.world.net, ws, reply), ws);
    }
  }

  /** What a handler call does to the records, the sockets and the timers, seen from outside. */
  ghost predicate Effect(r: Relay, r': Relay, ws: SocketId, attached: set<SocketId>) {
    && Records(r') && SameLive(r.world.net, r'.world.net)
    && (forall x :: x in r'.stateOf ==> x in r.stateOf || x in attached)
    && (forall id :: id in r'.timers ==>
         (id in r.timers && r'.timers[id].ws == r.timers[id].ws) || r'.timers[id].ws == ws)
  }

  lemma RegisterEffect(cfg: Config, r: Relay, ws: SocketId, msg: Routing, stamp: string)
    requires Records(r) && msg.Register?
    ensures var r' := OnRegister(cfg, Attach(r, ws), ws, msg, stamp);
      var (world, result) := AfterRegister(r.world, ws, msg.username, msg.installId, msg.metadata, stamp);
      && Effect(r, r', ws, {ws}) && r'.world.manager == world.manager
      && forall x :: FaceOf(r', x) ==
           if x == ws && result.Registered? then FaceOf(r, x).(username := Some(msg.username)) else FaceOf(r, x)
  {
    AttachView(r, ws);
    RegisterView(cfg, Attach(r, ws), ws, msg, stamp);
    RegisterNet(cfg, Attach(r, ws), ws, msg, stamp);
  }

  /** A request sets no timer. */
  lemma ConnectTimersKept(r: Relay, ws: SocketId, msg: Routing, stamp: string)
    requires ws in r.stateOf && msg.Connect?
    ensures var r' := OnConnect(r, ws, msg, stamp);
      forall id :: id in r'.timers ==> id in r.timers && r'.timers[id] == r.timers[id]
  {
    var (world, result) := AfterConnect(r.world, ws, msg.username, stamp);
    if result.Connected? {
      var st := StateOf(r, ws).(username := Some(msg.username), isServer := Some(false), paired := true);
      MarkServerPairedTimersKept(SetRecord(r.(world := world), r.stateOf[ws], st), result.serverWs);
    }
    hide MarkServerPaired;
  }

  lemma MarkServerPairedTimersKept(r: Relay, serverWs: SocketId)
    ensures forall id :: id in MarkServerPaired(r, serverWs).timers ==>
      id in r.timers && MarkServerPaired(r, serverWs).timers[id] == r.timers[id]
  {
  }

  lemma ConnectEffect(r: Relay, ws: SocketId, msg: Routing, stamp: string)
    requires Records(r) && msg.Connect?
    requires msg.username in r.world.table && msg.username in r.world.manager.waiting
    ensures var r' := OnConnect(Attach(r, ws), ws, msg, stamp);
      var serverWs := r.world.manager.waiting[msg.username];
      && Effect(r, r', ws, {ws, serverWs}) && r'.world.manager == Claim(r.world.manager, ws, msg.username)
  {
    hide OnConnect, Records;
    AttachView(r, ws);
    ConnectView(Attach(r, ws), ws, msg, stamp);
    ConnectNet(Attach(r, ws), ws, msg, stamp);
    ConnectTimersKept(Attach(r, ws), ws, msg, stamp);
  }

  lemma ConnectFaces(r: Relay, ws: SocketId, msg: Routing, stamp: string)
    requires Records(r) && msg.Connect?
    requires msg.username in r.world.table && msg.username in r.world.manager.waiting
    ensures var r' := OnConnect(Attach(r, ws), ws, msg, stamp);
      var serverWs := r.world.manager.waiting[msg.username];
      forall x :: FaceOf(r', x) ==
        if x == ws then Face(Some(msg.username), true)
        else if x == serverWs then FaceOf(r, x).(paired := true)
        else FaceOf(r, x)
  {
    AttachView(r, ws);
    ConnectView(Attach(r, ws), ws, msg, stamp);
  }

  lemma RefusedConnectEffect(r: Relay, ws: SocketId, msg: Routing, stamp: string)
    requires Records(r) && msg.Connect?
    requires msg.username in r.world.table ==> msg.username !in r.world.manager.waiting
    ensures var r' := OnConnect(Attach(r, ws), ws, msg, stamp);
      && Effect(r, r', ws, {ws}) && r'.world.manager == r.world.manager
      && forall x :: FaceOf(r', x) == FaceOf(r, x)
  {
    AttachView(r, ws);
    ConnectNet(Attach(r, ws), ws, msg, stamp);
    RefusedConnectView(Attach(r, ws), ws, msg, stamp);
    hide OnConnect, Records;
  }

  lemma RefusedConnectView(r: Relay, ws: SocketId, msg: Routing, stamp: string)
    requires Records(r) && ws in r.stateOf && msg.Connect?
    requires msg.username in r.world.table ==> msg.username !in r.world.manager.waiting
    ensures var r' := OnConnect(r, ws, msg, stamp);
      && Records(r') && r'.stateOf == r.stateOf && r'.timers == r.timers && r'.world.manager == r.world.manager
      && forall x :: FaceOf(r', x) == FaceOf(r, x)
  {
    SameRecords(r, OnConnect(r, ws, msg, stamp));
  }

  lemma UnroutedEffect(cfg: Config, r: Relay, ws: SocketId, frame: Frame, stamp: string)
    requires Records(r)
    requires
      StateOf(r, ws).paired || frame.isBinary || cfg.parse(frame.data).NotJson? || cfg.parse(frame.data).OtherJson?
    ensures var r' := OnMessage(cfg, r, ws, frame, stamp);
      && Effect(r, r', ws, {ws}) && r'.world.manager == r.world.manager
      && forall x :: FaceOf(r', x) == FaceOf(r, x)
  {
    AttachView(r, ws);
    var m := r.world.manager;
    if ws in m.pairLookup {
      SendLive(r.world.net, Other(m.pairLookup[ws], ws), Piped(frame));
    }
  }

  /** Which handler a message reaches. */
  lemma RoutedMessage(cfg: Config, s: System, ws: SocketId, frame: Frame, stamp: string)
    requires Records(s.relay) && RouteOf(cfg, s, ws, frame).Some?
    ensures var msg := cfg.parse(frame.data);
      && RouteOf(cfg, s, ws, frame) == Some(msg) && (msg.Register? || msg.Connect?)
      && OnMessage(cfg, s.relay, ws, frame, stamp) ==
         if msg.Register? then OnRegister(cfg, Attach(s.relay, ws), ws, msg, stamp)
         else OnConnect(Attach(s.relay, ws), ws, msg, stamp)
  {
    AttachView(s.relay, ws);
  }

  /** What a message leaves in the notes. */
  lemma LogView(cfg: Config, s: System, ws: SocketId, frame: Frame)
    requires ws in s.log
    requires ClaimOf(cfg, s, ws, frame).Some? ==>
      ClaimOf(cfg, s, ws, frame).value in s.log && ClaimOf(cfg, s, ws, frame).value != ws
    ensures var log := LogMessage(cfg, s, ws, frame);
      var claim := ClaimOf(cfg, s, ws, frame);
      && log.Keys == s.log.Keys
      && log[ws].route == (if RouteOf(cfg, s, ws, frame).Some? then RouteOf(cfg, s, ws, frame) else s.log[ws].route)
      && log[ws].peer == (if claim.Some? then claim else s.log[ws].peer)
      && (claim.Some? ==> log[claim.value].route == s.log[claim.value].route && log[claim.value].peer == Some(ws))
      && forall x :: x in log && x != ws && claim != Some(x) ==> log[x] == s.log[x]
  {
  }

  function MarkOf(s: System, ws: SocketId): Mark {
    Mark(!PhaseIn(s, ws).Closed?, FaceOf(s.relay, ws).username, FaceOf(s.relay, ws).paired,
         TrackOf(s, ws).route, TrackOf(s, ws).peer)
  }

  function ShapeOf(s: System): Shape {
    map ws | ws in s.relay.world.net :: MarkOf(s, ws)
  }

  /** Notes are kept for every socket; records only for sockets whose close event is still to come. */
  ghost predicate Kept(s: System) {
    && Records(s.relay)
    && s.log.Keys == s.relay.world.net.Keys
    && (forall ws :: ws in s.relay.stateOf ==> !PhaseIn(s, ws).Closed?)
    && (forall id :: id in s.relay.timers ==> s.relay.timers[id].ws in s.relay.world.net)
  }

  lemma KeptFrom(s: System, s': System, ws: SocketId, attached: set<SocketId>)
    requires Kept(s) && Effect(s.relay, s'.relay, ws, attached) && s'.log.Keys == s.log.Keys
    requires ws in s.log && forall x :: x in attached ==> !PhaseIn(s, x).Closed?
    ensures Kept(s')
    ensures forall x :: PhaseIn(s', x).Closed? <==> PhaseIn(s, x).Closed?
    ensures ShapeOf(s').Keys == ShapeOf(s).Keys
  {
  }

  lemma SameShape(s: System, s': System)
    requires s'.relay.world.net.Keys == s.relay.world.net.Keys
    requires forall x :: PhaseIn(s', x).Closed? <==> PhaseIn(s, x).Closed?
    requires forall x :: FaceOf(s'.relay, x) == FaceOf(s.relay, x)
    requires forall x :: TrackOf(s', x).route == TrackOf(s, x).route && TrackOf(s', x).peer == TrackOf(s, x).peer
    ensures ShapeOf(s') == ShapeOf(s)
  {
    forall ws | ws in ShapeOf(s) ensures ws in ShapeOf(s') && ShapeOf(s')[ws] == ShapeOf(s)[ws] {
      assert MarkOf(s', ws) == MarkOf(s, ws);
    }
  }

  /** Nothing that a mark shows has changed. */
  ghost predicate SameMark(s: System, s': System, x: SocketId) {
    && (PhaseIn(s', x).Closed? <==> PhaseIn(s, x).Closed?)
    && FaceOf(s'.relay, x) == FaceOf(s.relay, x)
    && TrackOf(s', x).route == TrackOf(s, x).route && TrackOf(s', x).peer == TrackOf(s, x).peer
  }

  /** All marks but one stay. */
  lemma ShapeButOne(s: System, s': System, ws: SocketId)
    requires s'.relay.world.net.Keys == s.relay.world.net.Keys && ws in s.relay.world.net
    requires forall x :: x != ws ==> SameMark(s, s', x)
    ensures ShapeOf(s') == ShapeOf(s)[ws := MarkOf(s', ws)]
  {
    var sh := ShapeOf(s)[ws := MarkOf(s', ws)];
    forall x | x in sh ensures x in ShapeOf(s') && ShapeOf(s')[x] == sh[x] {
      assert x != ws ==> SameMark(s, s', x);
    }
    assert ShapeOf(s').Keys == sh.Keys;
  }

  /** All marks but two stay. */
  lemma ShapeButTwo(s: System, s': System, ws: SocketId, other: SocketId)
    requires s'.relay.world.net.Keys == s.relay.world.net.Keys && ws in s.relay.world.net && other in s.relay.world.net
    requires forall x :: x != ws && x != other ==> SameMark(s, s', x)
    ensures ShapeOf(s') == ShapeOf(s)[other := MarkOf(s', other)][ws := MarkOf(s', ws)]
  {
    var sh := ShapeOf(s)[other := MarkOf(s', other)][ws := MarkOf(s', ws)];
    forall x | x in sh ensures x in ShapeOf(s') && ShapeOf(s')[x] == sh[x] {
      assert x != ws && x != other ==> SameMark(s, s', x);
    }
    assert ShapeOf(s').Keys == sh.Keys;
  }

  lemma PongShape(cfg: Config, s: System, ws: SocketId)
    requires Kept(s) && Enabled(s, Pong(ws))
    ensures Kept(Step(cfg, s, Pong(ws))) && ShapeOf(Step(cfg, s, Pong(ws))) == ShapeOf(s)
    ensures Step(cfg, s, Pong(ws)).relay.world.manager == s.relay.world.manager
  {
    AttachView(s.relay, ws);
    var r0 := Attach(s.relay, ws);
    SetRecordView(r0, ws, StateOf(r0, ws).(lastPong := Some(r0.now), pongTimeout := None));
    SameShape(s, Step(cfg, s, Pong(ws)));
  }

  lemma TickFaces(cfg: Config, r: Relay, id: TimerId)
    requires Records(r) && id in r.timers && r.timers[id].Interval?
    ensures var r' := OnTick(cfg, r, id);
      && Records(r') && r'.world == r.world && r'.stateOf == r.stateOf
      && (forall x :: FaceOf(r', x) == FaceOf(r, x))
      && forall i :: i in r'.timers ==>
           r'.timers[i].ws == r.timers[id].ws || (i in r.timers && r'.timers[i].ws == r.timers[i].ws)
  {
  }

  lemma TickShape(cfg: Config, s: System, id: TimerId)
    requires Kept(s) && Enabled(s, Tick(id))
    ensures Kept(Step(cfg, s, Tick(id))) && ShapeOf(Step(cfg, s, Tick(id))) == ShapeOf(s)
    ensures Step(cfg, s, Tick(id)).relay.world.manager == s.relay.world.manager
  {
    TickFaces(cfg, s.relay, id);
    SameShape(s, Step(cfg, s, Tick(id)));
  }

  lemma PlainShape(cfg: Config, s: System, e: Event)
    requires Kept(s) && Enabled(s, e)
    requires e.PeerClosing? || e.Expire? || e.Elapse? || e.Reclaim? || e.DeleteName?
    ensures Kept(Step(cfg, s, e)) && ShapeOf(Step(cfg, s, e)) == ShapeOf(s)
    ensures Step(cfg, s, e).relay.world.manager == s.relay.world.manager
  {
    SameShape(s, Step(cfg, s, e));
  }

  lemma ErroredShape(cfg: Config, s: System, ws: SocketId)
    requires Kept(s) && Enabled(s, Errored(ws))
    ensures Kept(Step(cfg, s, Errored(ws))) && ShapeOf(Step(cfg, s, Errored(ws))) == ShapeOf(s)
    ensures Step(cfg, s, Errored(ws)).relay.world.manager == s.relay.world.manager
  {
    AttachView(s.relay, ws);
    SameShape(s, Step(cfg, s, Errored(ws)));
  }

  lemma OpenedShape(cfg: Config, s: System, ws: SocketId)
    requires Kept(s) && Enabled(s, Opened(ws))
    ensures Kept(Step(cfg, s, Opened(ws))) && ShapeOf(Step(cfg, s, Opened(ws))) == AfterOpen(ShapeOf(s), ws)
    ensures Step(cfg, s, Opened(ws)).relay.world.manager == s.relay.world.manager
  {
  }

  lemma ClosedEffect(r: Relay, ws: SocketId)
    requires Records(r)
    ensures var r' := OnClose(r, ws);
      && SameLive(r.world.net, r'.world.net)
      && (forall id :: id in r'.timers ==> id in r.timers && r'.timers[id] == r.timers[id])
  {
    AttachView(r, ws);
    var r1 := StopPing(Attach(r, ws), Attach(r, ws).stateOf[ws]);
    if ws in r1.world.manager.pairLookup {
      StartCloseLive(r.world.net, Other(r1.world.manager.pairLookup[ws], ws));
    }
  }

  /** The relay a close event's handler meets: the socket already counts as closed. */
  function SeenClosed(r: Relay, ws: SocketId): Relay
    requires ws in r.world.net
  {
    r.(world := r.world.(net := r.world.net[ws := r.world.net[ws].(phase := Closed)]))
  }

  lemma KeptHasRecords(s: System)
    requires Kept(s)
    ensures Records(s.relay)
  {
  }

  lemma ClosedFacts(cfg: Config, s: System, ws: SocketId)
    requires Kept(s) && Enabled(s, CloseEvent(ws))
    ensures var s' := Step(cfg, s, CloseEvent(ws));
      && s'.log == s.log && s'.relay == OnClose(SeenClosed(s.relay, ws), ws)
      && Records(s'.relay) && s'.relay.stateOf.Keys == s.relay.stateOf.Keys - {ws}
      && SameLive(SeenClosed(s.relay, ws).world.net, s'.relay.world.net)
      && (forall x :: FaceOf(s'.relay, x) == if x == ws then Face(None, false) else FaceOf(s.relay, x))
      && s'.relay.world.manager == AfterClose(s.relay.world, ws, FaceOf(s.relay, ws).username).0.manager
      && (forall id :: id in s'.relay.timers ==> id in s.relay.timers && s'.relay.timers[id] == s.relay.timers[id])
  {
    KeptHasRecords(s);
    hide OnClose, Records, Kept;
    var r := SeenClosed(s.relay, ws);
    SameRecords(s.relay, r);
    CloseView(r, ws);
    ClosedEffect(r, ws);
    assert AfterClose(r.world, ws, FaceOf(r, ws).username).0.manager ==
      AfterClose(s.relay.world, ws, FaceOf(s.relay, ws).username).0.manager;
  }

  lemma ClosedKept(cfg: Config, s: System, ws: SocketId)
    requires Kept(s) && Enabled(s, CloseEvent(ws))
    ensures var s' := Step(cfg, s, CloseEvent(ws));
      && Kept(s') && forall x :: PhaseIn(s', x).Closed? <==> PhaseIn(s, x).Closed? || x == ws
  {
    ClosedFacts(cfg, s, ws);
  }

  lemma ClosedShape(cfg: Config, s: System, ws: SocketId)
    requires Kept(s) && Enabled(s, CloseEvent(ws))
    ensures ShapeOf(Step(cfg, s, CloseEvent(ws))) == AfterClosed(ShapeOf(s), ws)
  {
    var s' := Step(cfg, s, CloseEvent(ws));
    ClosedFacts(cfg, s, ws);
    ClosedKept(cfg, s, ws);
    ShapeButOne(s, s', ws);
  }

  lemma KeptIsKnown(s: System, ws: SocketId)
    requires Kept(s) && !PhaseIn(s, ws).Closed?
    ensures ws in s.log && ws in s.relay.world.net && ShapeOf(s).Keys == s.relay.world.net.Keys
  {
  }

  lemma RegisterClaimsNobody(cfg: Config, s: System, ws: SocketId, frame: Frame)
    requires RouteOf(cfg, s, ws, frame).Some? && RouteOf(cfg, s, ws, frame).value.Register?
    ensures ClaimOf(cfg, s, ws, frame).None?
  {
  }

  /** Piped frames, ignored frames and unreadable frames. */
  lemma UnroutedFacts(cfg: Config, s: System, ws: SocketId, frame: Frame, stamp: string)
    requires Kept(s) && Enabled(s, Message(ws, frame, stamp)) && RouteOf(cfg, s, ws, frame).None?
    ensures var s' := Step(cfg, s, Message(ws, frame, stamp));
      && Kept(s') && s'.relay.world.manager == s.relay.world.manager && s'.log == LogMessage(cfg, s, ws, frame)
      && s'.relay.world.net.Keys == s.relay.world.net.Keys
      && (forall x :: PhaseIn(s', x).Closed? <==> PhaseIn(s, x).Closed?)
      && forall x :: FaceOf(s'.relay, x) == FaceOf(s.relay, x)
  {
    UnroutedEffect(cfg, s.relay, ws, frame, stamp);
    LogView(cfg, s, ws, frame);
    KeptFrom(s, Step(cfg, s, Message(ws, frame, stamp)), ws, {ws});
  }

  lemma UnroutedShape(cfg: Config, s: System, ws: SocketId, frame: Frame, stamp: string)
    requires Kept(s) && Enabled(s, Message(ws, frame, stamp)) && RouteOf(cfg, s, ws, frame).None?
    ensures ShapeOf(Step(cfg, s, Message(ws, frame, stamp))) == ShapeOf(s)
  {
    UnroutedFacts(cfg, s, ws, frame, stamp);
    LogView(cfg, s, ws, frame);
    SameShape(s, Step(cfg, s, Message(ws, frame, stamp)));
  }

  lemma RegisterFacts(cfg: Config, s: System, ws: SocketId, frame: Frame, stamp: string)
    requires Kept(s) && Enabled(s, Message(ws, frame, stamp))
    requires RouteOf(cfg, s, ws, frame).Some? && RouteOf(cfg, s, ws, frame).value.Register?
    ensures var s' := Step(cfg, s, Message(ws, frame, stamp));
      var msg := RouteOf(cfg, s, ws, frame).value;
      var (world, result) := AfterRegister(s.relay.world, ws, msg.username, msg.installId, msg.metadata, stamp);
      && Kept(s') && s'.relay.world.manager == world.manager && s'.log == LogMessage(cfg, s, ws, frame)
      && s'.relay.world.net.Keys == s.relay.world.net.Keys
      && (forall x :: PhaseIn(s', x).Closed? <==> PhaseIn(s, x).Closed?)
      && forall x :: FaceOf(s'.relay, x) ==
           if x == ws && result.Registered? then FaceOf(s.relay, x).(username := Some(msg.username))
           else FaceOf(s.relay, x)
  {
    RoutedMessage(cfg, s, ws, frame, stamp);
    RegisterEffect(cfg, s.relay, ws, cfg.parse(frame.data), stamp);
    LogView(cfg, s, ws, frame);
    KeptFrom(s, Step(cfg, s, Message(ws, frame, stamp)), ws, {ws});
  }

  /** Without a pairing a message touches its sender's notes only. */
  lemma UnclaimedNotes(cfg: Config, s: System, ws: SocketId, frame: Frame, x: SocketId)
    requires ClaimOf(cfg, s, ws, frame).None?
    ensures var log' := LogMessage(cfg, s, ws, frame);
      && (x != ws ==> (x in log' <==> x in s.log) && (x in s.log ==> log'[x] == s.log[x]))
      && ws in log' && log'[ws].peer == TrackOf(s, ws).peer
      && log'[ws].route ==
         (if RouteOf(cfg, s, ws, frame).Some? then RouteOf(cfg, s, ws, frame) else TrackOf(s, ws).route)
  {
  }

  lemma RegisterMarks(cfg: Config, s: System, ws: SocketId, frame: Frame, stamp: string)
    requires Kept(s) && Enabled(s, Message(ws, frame, stamp))
    requires RouteOf(cfg, s, ws, frame).Some? && RouteOf(cfg, s, ws, frame).value.Register?
    ensures var s', msg := Step(cfg, s, Message(ws, frame, stamp)), RouteOf(cfg, s, ws, frame).value;
      var ok := AfterRegister(s.relay.world, ws, msg.username, msg.installId, msg.metadata, stamp).1.Registered?;
      && s'.relay.world.net.Keys == s.relay.world.net.Keys && ws in s.relay.world.net
      && MarkOf(s', ws) == (if ok then MarkOf(s, ws).(route := Some(msg), username := Some(msg.username))
                            else MarkOf(s, ws).(route := Some(msg)))
      && forall x :: x != ws ==> SameMark(s, s', x)
  {
    KeptIsKnown(s, ws);
    RegisterClaimsNobody(cfg, s, ws, frame);
    hide Step, LogMessage, AfterRegister, Kept, ClaimOf, RouteOf;
    RegisterFacts(cfg, s, ws, frame, stamp);
    var s' := Step(cfg, s, Message(ws, frame, stamp));
    forall x | x != ws ensures SameMark(s, s', x) {
      UnclaimedNotes(cfg, s, ws, frame, x);
      assert TrackOf(s', x) == TrackOf(s, x);
    }
    UnclaimedNotes(cfg, s, ws, frame, ws);
  }

  lemma RegisterShape(cfg: Config, s: System, ws: SocketId, frame: Frame, stamp: string)
    requires Kept(s) && Enabled(s, Message(ws, frame, stamp))
    requires RouteOf(cfg, s, ws, frame).Some? && RouteOf(cfg, s, ws, frame).value.Register?
    ensures var s' := Step(cfg, s, Message(ws, frame, stamp));
      var msg := RouteOf(cfg, s, ws, frame).value;
      var ok := AfterRegister(s.relay.world, ws, msg.username, msg.installId, msg.metadata, stamp).1.Registered?;
      ShapeOf(s') == if ok then AfterRegistered(ShapeOf(s), ws, msg) else AfterRefusal(ShapeOf(s), ws, msg)
  {
    RegisterMarks(cfg, s, ws, frame, stamp);
    hide Step, Kept, RouteOf, AfterRegister;
    ShapeButOne(s, Step(cfg, s, Message(ws, frame, stamp)), ws);
  }

  lemma ConnectFacts(cfg: Config, s: System, ws: SocketId, frame: Frame, stamp: string)
    requires Kept(s) && Enabled(s, Message(ws, frame, stamp)) && ClaimOf(cfg, s, ws, frame).Some?
    requires var serverWs := ClaimOf(cfg, s, ws, frame).value;
      serverWs != ws && !PhaseIn(s, serverWs).Closed?
    ensures var s' := Step(cfg, s, Message(ws, frame, stamp));
      var msg := RouteOf(cfg, s, ws, frame).value;
      var serverWs := ClaimOf(cfg, s, ws, frame).value;
      && Kept(s') && s'.relay.world.net.Keys == s.relay.world.net.Keys
      && (forall x :: PhaseIn(s', x).Closed? <==> PhaseIn(s, x).Closed?)
      && (forall x :: FaceOf(s'.relay, x) ==
            if x == ws then Face(Some(msg.username), true)
            else if x == serverWs then FaceOf(s.relay, x).(paired := true)
            else FaceOf(s.relay, x))
      && s'.relay.world.manager == Claim(s.relay.world.manager, ws, msg.username)
      && s'.log == LogMessage(cfg, s, ws, frame)
  {
    RoutedMessage(cfg, s, ws, frame, stamp);
    ConnectEffect(s.relay, ws, cfg.parse(frame.data), stamp);
    ConnectFaces(s.relay, ws, cfg.parse(frame.data), stamp);
    LogView(cfg, s, ws, frame);
    hide OnMessage, OnConnect, LogMessage, Claim, Records;
    KeptFrom(s, Step(cfg, s, Message(ws, frame, stamp)), ws, {ws, ClaimOf(cfg, s, ws, frame).value});
  }

  lemma ClaimIsRouted(cfg: Config, s: System, ws: SocketId, frame: Frame)
    requires ClaimOf(cfg, s, ws, frame).Some?
    ensures RouteOf(cfg, s, ws, frame).Some? && RouteOf(cfg, s, ws, frame).value.Connect?
  {
  }

  /** Sockets outside a pairing, seen by their notes and by everything else. */
  lemma ConnectOtherNotes(cfg: Config, s: System, ws: SocketId, frame: Frame, x: SocketId)
    requires ClaimOf(cfg, s, ws, frame).Some? && x != ws && x != ClaimOf(cfg, s, ws, frame).value
    ensures var log' := LogMessage(cfg, s, ws, frame);
      (x in log' <==> x in s.log) && (x in s.log ==> log'[x] == s.log[x])
  {
  }

  lemma ConnectOthers(cfg: Config, s: System, ws: SocketId, frame: Frame, stamp: string)
    requires Kept(s) && Enabled(s, Message(ws, frame, stamp)) && ClaimOf(cfg, s, ws, frame).Some?
    requires var serverWs := ClaimOf(cfg, s, ws, frame).value;
      serverWs != ws && !PhaseIn(s, serverWs).Closed?
    ensures var s', serverWs := Step(cfg, s, Message(ws, frame, stamp)), ClaimOf(cfg, s, ws, frame).value;
      forall x :: x != ws && x != serverWs ==> SameMark(s, s', x)
  {
    hide Step, LogMessage, Claim, Kept, RouteOf, ClaimOf;
    ConnectFacts(cfg, s, ws, frame, stamp);
    var s', serverWs := Step(cfg, s, Message(ws, frame, stamp)), ClaimOf(cfg, s, ws, frame).value;
    forall x | x != ws && x != serverWs ensures SameMark(s, s', x) {
      ConnectOtherNotes(cfg, s, ws, frame, x);
      assert TrackOf(s', x) == TrackOf(s, x);
    }
  }

  /** The two marks that a pairing changes. */
  lemma ConnectMarks(cfg: Config, s: System, ws: SocketId, frame: Frame, stamp: string)
    requires Kept(s) && Enabled(s, Message(ws, frame, stamp)) && ClaimOf(cfg, s, ws, frame).Some?
    requires var serverWs := ClaimOf(cfg, s, ws, frame).value;
      serverWs != ws && !PhaseIn(s, serverWs).Closed?
    ensures var s', serverWs, msg :=
        Step(cfg, s, Message(ws, frame, stamp)), ClaimOf(cfg, s, ws, frame).value, RouteOf(cfg, s, ws, frame).value;
      && s'.relay.world.net.Keys == s.relay.world.net.Keys && ws in s.relay.world.net && serverWs in s.relay.world.net
      && MarkOf(s', ws) == Mark(true, Some(msg.username), true, Some(msg), Some(serverWs))
      && MarkOf(s', serverWs) == MarkOf(s, serverWs).(paired := true, peer := Some(ws))
  {
    KeptIsKnown(s, ws);
    KeptIsKnown(s, ClaimOf(cfg, s, ws, frame).value);
    ClaimIsRouted(cfg, s, ws, frame);
    hide Step, LogMessage, Claim, Kept, RouteOf, ClaimOf;
    ConnectFacts(cfg, s, ws, frame, stamp);
    LogView(cfg, s, ws, frame);
  }

  lemma ConnectShape(cfg: Config, s: System, ws: SocketId, frame: Frame, stamp: string)
    requires Kept(s) && Enabled(s, Message(ws, frame, stamp)) && ClaimOf(cfg, s, ws, frame).Some?
    requires var serverWs := ClaimOf(cfg, s, ws, frame).value;
      serverWs != ws && !PhaseIn(s, serverWs).Closed?
    ensures ShapeOf(Step(cfg, s, Message(ws, frame, stamp))) ==
      AfterClaim(ShapeOf(s), ws, RouteOf(cfg, s, ws, frame).value, ClaimOf(cfg, s, ws, frame).value)
  {
    ConnectOthers(cfg, s, ws, frame, stamp);
    ConnectMarks(cfg, s, ws, frame, stamp);
    hide Step, Kept, ClaimOf, RouteOf;
    ShapeButTwo(s, Step(cfg, s, Message(ws, frame, stamp)), ws, ClaimOf(cfg, s, ws, frame).value);
  }

  lemma RefusedConnectFacts(cfg: Config, s: System, ws: SocketId, frame: Frame, stamp: string)
    requires Kept(s) && Enabled(s, Message(ws, frame, stamp)) && ClaimOf(cfg, s, ws, frame).None?
    requires RouteOf(cfg, s, ws, frame).Some? && RouteOf(cfg, s, ws, frame).value.Connect?
    ensures var s' := Step(cfg, s, Message(ws, frame, stamp));
      && Kept(s') && s'.relay.world.manager == s.relay.world.manager && s'.log == LogMessage(cfg, s, ws, frame)
      && s'.relay.world.net.Keys == s.relay.world.net.Keys
      && (forall x :: PhaseIn(s', x).Closed? <==> PhaseIn(s, x).Closed?)
      && forall x :: FaceOf(s'.relay, x) == FaceOf(s.relay, x)
  {
    RoutedMessage(cfg, s, ws, frame, stamp);
    RefusedConnectEffect(s.relay, ws, cfg.parse(frame.data), stamp);
    LogView(cfg, s, ws, frame);
    KeptFrom(s, Step(cfg, s, Message(ws, frame, stamp)), ws, {ws});
  }

  lemma RefusedConnectShape(cfg: Config, s: System, ws: SocketId, frame: Frame, stamp: string)
    requires Kept(s) && Enabled(s, Message(ws, frame, stamp)) && ClaimOf(cfg, s, ws, frame).None?
    requires RouteOf(cfg, s, ws, frame).Some? && RouteOf(cfg, s, ws, frame).value.Connect?
    ensures ShapeOf(Step(cfg, s, Message(ws, frame, stamp))) ==
      AfterRefusal(ShapeOf(s), ws, RouteOf(cfg, s, ws, frame).value)
  {
    RefusedConnectFacts(cfg, s, ws, frame, stamp);
    LogView(cfg, s, ws, frame);
    var s' := Step(cfg, s, Message(ws, frame, stamp));
    ShapeButOne(s, s', ws);
  }

  /** The invariant of disciplined runs that concerns who is connected to whom. */
  ghost predicate Coherent(s: System) {
    Kept(s) && Linked(s.relay.world.manager, ShapeOf(s))
  }

  lemma CloseKeepsCoherent(cfg: Config, s: System, ws: SocketId)
    requires Coherent(s) && Enabled(s, CloseEvent(ws))
    ensures Coherent(Step(cfg, s, CloseEvent(ws)))
  {
    hide Linked;
    ClosedFacts(cfg, s, ws);
    ClosedKept(cfg, s, ws);
    ClosedShape(cfg, s, ws);
    ClosedKeepsLinks(s.relay.world, ShapeOf(s), ws);
  }

  /** A socket about to send its routing message is live, blank and unknown to the manager. */
  lemma BeforeRouting(s: System, ws: SocketId)
    requires Coherent(s) && !PhaseIn(s, ws).Closed? && TrackOf(s, ws).route.None?
    ensures IsLive(ShapeOf(s), ws) && ShapeOf(s)[ws].route.None? && ShapeOf(s)[ws] == BlankMark
    ensures Unknown(s.relay.world.manager, ws)
    ensures forall n :: n in s.relay.world.manager.waiting ==>
      !PhaseIn(s, s.relay.world.manager.waiting[n]).Closed? && s.relay.world.manager.waiting[n] != ws
  {
    var m, sh := s.relay.world.manager, ShapeOf(s);
    assert sh[ws].route.None?;
    BlankIsUnknown(m, sh, ws);
    forall n | n in m.waiting ensures !PhaseIn(s, m.waiting[n]).Closed? {
      assert IsLive(sh, m.waiting[n]);
    }
  }

  lemma GrantKeepsCoherent(cfg: Config, s: System, ws: SocketId, frame: Frame, stamp: string)
    requires Coherent(s) && Enabled(s, Message(ws, frame, stamp)) && TrackOf(s, ws).route.None?
    requires RouteOf(cfg, s, ws, frame).Some? && RouteOf(cfg, s, ws, frame).value.Register?
    requires var msg := RouteOf(cfg, s, ws, frame).value;
      AfterRegister(s.relay.world, ws, msg.username, msg.installId, msg.metadata, stamp).1.Registered?
    ensures Coherent(Step(cfg, s, Message(ws, frame, stamp)))
  {
    BeforeRouting(s, ws);
    hide Linked, Kept, Step;
    var msg := RouteOf(cfg, s, ws, frame).value;
    RegisterFacts(cfg, s, ws, frame, stamp);
    RegisterShape(cfg, s, ws, frame, stamp);
    RegisteredKeepsLinks(s.relay.world.manager, ShapeOf(s), ws, msg,
                         ActiveServer(msg.username, msg.installId, stamp, Waiting, msg.metadata));
  }

  lemma RejectionChangesNothing(
    w: World, ws: SocketId, name: string, installId: string, metadata: Metadata, now: string)
    ensures AfterRegister(w, ws, name, installId, metadata, now).1.Rejected? ==>
      AfterRegister(w, ws, name, installId, metadata, now).0 == w
  {
  }

  lemma RejectionKeepsCoherent(cfg: Config, s: System, ws: SocketId, frame: Frame, stamp: string)
    requires Coherent(s) && Enabled(s, Message(ws, frame, stamp)) && TrackOf(s, ws).route.None?
    requires RouteOf(cfg, s, ws, frame).Some? && RouteOf(cfg, s, ws, frame).value.Register?
    requires var msg := RouteOf(cfg, s, ws, frame).value;
      AfterRegister(s.relay.world, ws, msg.username, msg.installId, msg.metadata, stamp).1.Rejected?
    ensures Coherent(Step(cfg, s, Message(ws, frame, stamp)))
  {
    BeforeRouting(s, ws);
    var msg := RouteOf(cfg, s, ws, frame).value;
    RejectionChangesNothing(s.relay.world, ws, msg.username, msg.installId, msg.metadata, stamp);
    hide Linked, Kept, Step, AfterRegister;
    RegisterFacts(cfg, s, ws, frame, stamp);
    RegisterShape(cfg, s, ws, frame, stamp);
    RefusalKeepsLinks(s.relay.world.manager, ShapeOf(s), ws, RouteOf(cfg, s, ws, frame).value);
  }

  lemma ClaimKeepsCoherent(cfg: Config, s: System, ws: SocketId, frame: Frame, stamp: string)
    requires Coherent(s) && Enabled(s, Message(ws, frame, stamp)) && TrackOf(s, ws).route.None?
    requires ClaimOf(cfg, s, ws, frame).Some?
    ensures Coherent(Step(cfg, s, Message(ws, frame, stamp)))
  {
    BeforeRouting(s, ws);
    hide Linked, Kept, Step;
    ConnectFacts(cfg, s, ws, frame, stamp);
    ConnectShape(cfg, s, ws, frame, stamp);
    ClaimKeepsLinks(s.relay.world.manager, ShapeOf(s), ws, RouteOf(cfg, s, ws, frame).value);
  }

  lemma RefusedConnectKeepsCoherent(cfg: Config, s: System, ws: SocketId, frame: Frame, stamp: string)
    requires Coherent(s) && Enabled(s, Message(ws, frame, stamp)) && TrackOf(s, ws).route.None?
    requires ClaimOf(cfg, s, ws, frame).None?
    requires RouteOf(cfg, s, ws, frame).Some? && RouteOf(cfg, s, ws, frame).value.Connect?
    ensures Coherent(Step(cfg, s, Message(ws, frame, stamp)))
  {
    BeforeRouting(s, ws);
    hide Linked, Kept, Step;
    RefusedConnectFacts(cfg, s, ws, frame, stamp);
    RefusedConnectShape(cfg, s, ws, frame, stamp);
    RefusalKeepsLinks(s.relay.world.manager, ShapeOf(s), ws, RouteOf(cfg, s, ws, frame).value);
  }

  lemma OpenKeepsCoherent(cfg: Config, s: System, ws: SocketId)
    requires Coherent(s) && Enabled(s, Opened(ws))
    ensures Coherent(Step(cfg, s, Opened(ws)))
  {
    hide Linked;
    OpenedShape(cfg, s, ws);
    OpenKeepsLinks(s.relay.world.manager, ShapeOf(s), ws);
  }

  lemma MessageKeepsCoherent(cfg: Config, s: System, ws: SocketId, frame: Frame, stamp: string)
    requires Coherent(s) && Enabled(s, Message(ws, frame, stamp))
    requires RouteOf(cfg, s, ws, frame).Some? ==> TrackOf(s, ws).route.None?
    ensures Coherent(Step(cfg, s, Message(ws, frame, stamp)))
  {
    hide Linked, Kept, Step;
    var route := RouteOf(cfg, s, ws, frame);
    if route.None? {
      UnroutedFacts(cfg, s, ws, frame, stamp);
      UnroutedShape(cfg, s, ws, frame, stamp);
    } else if route.value.Register? {
      var msg := route.value;
      if AfterRegister(s.relay.world, ws, msg.username, msg.installId, msg.metadata, stamp).1.Registered? {
        GrantKeepsCoherent(cfg, s, ws, frame, stamp);
      } else {
        RejectionKeepsCoherent(cfg, s, ws, frame, stamp);
      }
    } else if ClaimOf(cfg, s, ws, frame).Some? {
      ClaimKeepsCoherent(cfg, s, ws, frame, stamp);
    } else {
      RefusedConnectKeepsCoherent(cfg, s, ws, frame, stamp);
    }
  }

  lemma StepKeepsCoherent(cfg: Config, s: System, e: Event)
    requires Coherent(s) && Enabled(s, e) && Disciplined(cfg, s, e)
    ensures Coherent(Step(cfg, s, e))
  {
    hide Linked, Kept, Step;
    match e
    case Opened(ws) => OpenKeepsCoherent(cfg, s, ws);
    case Message(ws, frame, stamp) => MessageKeepsCoherent(cfg, s, ws, frame, stamp);
    case Pong(ws) => PongShape(cfg, s, ws);
    case Errored(ws) => ErroredShape(cfg, s, ws);
    case CloseEvent(ws) => CloseKeepsCoherent(cfg, s, ws);
    case Tick(id) => TickShape(cfg, s, id);
    case _ => PlainShape(cfg, s, e);
  }

  lemma InitialCoherent(table: Registry.Table)
    ensures Coherent(InitialSystem(table))
  {
  }

  lemma {:induction false} RunCoherent(cfg: Config, states: seq<System>, events: seq<Event>, i: nat)
    requires IsDisciplinedRun(cfg, states, events) && i < |states|
    ensures Coherent(states[i])
  {
    if i == 0 {
      var table :| states[0] == InitialSystem(table);
      InitialCoherent(table);
    } else {
      RunCoherent(cfg, states, events, i - 1);
      StepKeepsCoherent(cfg, states[i - 1], events[i - 1]);
    }
  }
}
