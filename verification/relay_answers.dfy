/** How the relay answers every message, in every run, in terms of the table, the collections and the sockets. */
module RelayAnswers {
  import opened Wrappers
  import opened Sockets
  import opened Connections
  import opened Usernames
  import opened WsHandler
  import opened RelaySystem
  import opened RelayLinks
  import opened RelayTelemetry
  import opened RelayTheorems
  import opened RelayOwnership
  import RelayKeepalive
  import Registry

  /** The socket is no longer open; if it was, the reply is the last thing on it. */
  predicate IsTurnedAway(net: Net, net': Net, ws: SocketId, reply: Reply) {
    && Shut(net', ws)
    && ItemsOn(net', ws) == ItemsOn(net, ws) + if PhaseOf(net, ws).Open? then [Control(reply)] else []
  }

  /** The socket is as open as before, and if it is open it got the item. */
  predicate IsSent(net: Net, net': Net, ws: SocketId, item: Sent) {
    && PhaseOf(net', ws) == PhaseOf(net, ws)
    && ItemsOn(net', ws) == ItemsOn(net, ws) + if PhaseOf(net, ws).Open? then [item] else []
  }

  /** Nothing happens to other sockets. */
  ghost predicate OnlyAt(net: Net, net': Net, touched: set<SocketId>) {
    net'.Keys == net.Keys && forall x :: x in net && x !in touched ==> net'[x] == net[x]
  }

  // ---- Registrations ----

  /** A registration is turned away for this reason: nothing else changes. */
  ghost predicate Rejects(r: Relay, r': Relay, ws: SocketId, reason: Rejection) {
    && IsTurnedAway(r.world.net, r'.world.net, ws, ServerRejected(reason)) && OnlyAt(r.world.net, r'.world.net, {ws})
    && r'.world.table == r.world.table && r'.world.manager == r.world.manager && r'.telemetry == r.telemetry
    && StateOf(r', ws) == StateOf(r, ws) && r'.timers == r.timers
  }

  /** Who waited under the name before. */
  function Predecessor(m: Manager, name: string): set<SocketId> {
    if name in m.waiting then {m.waiting[name]} else {}
  }

  /** The name's row, the waiting entry and the list of active servers after a granted registration. */
  ghost predicate Enters(w: World, w': World, ws: SocketId, msg: Routing, stamp: string)
    requires msg.Register?
  {
    var name, m, m', t := msg.username, w.manager, w'.manager, w.table;
    && w'.table == t[name := Registry.Row(msg.installId, if name in t then t[name].registeredAt else stamp, stamp)]
    && m'.waiting == m.waiting[name := ws] && m'.pairs == m.pairs && m'.pairLookup == m.pairLookup
    && m'.activeServers ==
         (m.activeServers - Predecessor(m, name))[ws := ActiveServer(name, msg.installId, stamp, Waiting, msg.metadata)]
  }

  /** A registration is granted: the predecessor is closed and the socket is told, unless it is its own predecessor. */
  ghost predicate Grants(r: Relay, r': Relay, ws: SocketId, msg: Routing, stamp: string)
    requires msg.Register?
  {
    var net, net', before := r.world.net, r'.world.net, Predecessor(r.world.manager, msg.username);
    && Enters(r.world, r'.world, ws, msg, stamp)
    && OnlyAt(net, net', before + {ws})
    && (forall x :: x in before && x in net ==> Shut(net', x) && (x != ws ==> ItemsOn(net', x) == ItemsOn(net, x)))
    && (ws !in before ==> IsSent(net, net', ws, Control(ServerRegistered)))
    && r'.telemetry == r.telemetry + [ServerRegister(msg.username, msg.installId)]
  }

  /** Its record has the name, and the first ping is one interval away. */
  ghost predicate StartsPings(cfg: Config, r: Relay, r': Relay, ws: SocketId, name: string) {
    && StateOf(r', ws) ==
         StateOf(r, ws).(username := Some(name), isServer := Some(true), pingInterval := Some(r.nextTimer))
    && (forall x :: x != ws ==> StateOf(r', x) == StateOf(r, x))
    && ws in r'.stateOf
    && r'.timers == r.timers[r.nextTimer := Interval(ws, r'.stateOf[ws], r.now + cfg.pingIntervalMs)]
  }

  lemma RejectionAnswer(cfg: Config, r: Relay, ws: SocketId, msg: Routing, stamp: string)
    requires Records(r) && msg.Register? && ws in r.world.net
    requires !IsValidRelayUsername(msg.username)
      || (msg.username in r.world.table && r.world.table[msg.username].installId != msg.installId)
    ensures Rejects(r, OnRegister(cfg, Attach(r, ws), ws, msg, stamp), ws,
                    if IsValidRelayUsername(msg.username) then UsernameTaken else InvalidUsername)
  {
    hide Records;
    AttachView(r, ws);
  }

  lemma GrantEnters(w: World, ws: SocketId, msg: Routing, stamp: string)
    requires msg.Register? && IsValidRelayUsername(msg.username)
    requires msg.username in w.table ==> w.table[msg.username].installId == msg.installId
    ensures var (w', result) := AfterRegister(w, ws, msg.username, msg.installId, msg.metadata, stamp);
      && result.Registered? && Enters(w, w', ws, msg, stamp)
      && w'.net == (if msg.username in w.manager.waiting then StartClose(w.net, w.manager.waiting[msg.username])
           else w.net)
  {
  }

  lemma GrantNet(net: Net, before: set<SocketId>, net1: Net, ws: SocketId)
    requires ws in net && ((before == {} && net1 == net) || exists x :: before == {x} && net1 == StartClose(net, x))
    ensures var net' := Send(net1, ws, Control(ServerRegistered));
      && OnlyAt(net, net', before + {ws})
      && (forall x :: x in before && x in net ==> Shut(net', x) && (x != ws ==> ItemsOn(net', x) == ItemsOn(net, x)))
      && (ws !in before ==> IsSent(net, net', ws, Control(ServerRegistered)))
  {
  }

  lemma GrantRest(cfg: Config, r: Relay, ws: SocketId, msg: Routing, stamp: string)
    requires msg.Register? && ws in r.stateOf
    requires AfterRegister(r.world, ws, msg.username, msg.installId, msg.metadata, stamp).1.Registered?
    ensures var w', r' := AfterRegister(r.world, ws, msg.username, msg.installId, msg.metadata, stamp).0,
                          OnRegister(cfg, r, ws, msg, stamp);
      && r'.world == w'.(net := Send(w'.net, ws, Control(ServerRegistered)))
      && r'.telemetry == r.telemetry + [ServerRegister(msg.username, msg.installId)]
  {
    hide AfterRegister;
  }

  lemma GrantAnswer(cfg: Config, r: Relay, ws: SocketId, msg: Routing, stamp: string)
    requires Records(r) && msg.Register? && ws in r.world.net && IsValidRelayUsername(msg.username)
    requires msg.username in r.world.table ==> r.world.table[msg.username].installId == msg.installId
    ensures var r' := OnRegister(cfg, Attach(r, ws), ws, msg, stamp);
      Grants(r, r', ws, msg, stamp) && StartsPings(cfg, r, r', ws, msg.username)
  {
    hide Records, OnRegister, AfterRegister, IsValidRelayUsername, Enters;
    AttachView(r, ws);
    GrantEnters(r.world, ws, msg, stamp);
    var r0 := Attach(r, ws);
    var w' := AfterRegister(r.world, ws, msg.username, msg.installId, msg.metadata, stamp).0;
    GrantRest(cfg, r0, ws, msg, stamp);
    EntersOnly(r.world, w', w'.(net := Send(w'.net, ws, Control(ServerRegistered))), ws, msg, stamp);
    GrantNet(r.world.net, Predecessor(r.world.manager, msg.username), w'.net, ws);
    RelayKeepalive.RegisteredTimers(cfg, r0, ws, msg, stamp);
  }

  lemma EntersOnly(w: World, w1: World, w2: World, ws: SocketId, msg: Routing, stamp: string)
    requires msg.Register? && Enters(w, w1, ws, msg, stamp) && w2.table == w1.table && w2.manager == w1.manager
    ensures Enters(w, w2, ws, msg, stamp)
  {
  }

  /**
   * In any run, a registration: an invalid name is refused as invalid, a name of
   * another installation as taken, and any other is granted.
   */
  lemma RegistrationAnswered(cfg: Config, states: seq<System>, events: seq<Event>, k: nat)
    requires IsRun(cfg, states, events) && k < |events| && events[k].Message?
    requires var route := RouteOf(cfg, states[k], events[k].ws, events[k].frame); route.Some? && route.value.Register?
    ensures var r, r', ws := states[k].relay, states[k + 1].relay, events[k].ws;
      var msg := RouteOf(cfg, states[k], ws, events[k].frame).value;
      var name, t := msg.username, r.world.table;
      if !IsValidRelayUsername(name) then Rejects(r, r', ws, InvalidUsername)
      else if name in t && t[name].installId != msg.installId then Rejects(r, r', ws, UsernameTaken)
      else Grants(r, r', ws, msg, events[k].stamp) && StartsPings(cfg, r, r', ws, name)
  {
    var s, ws, frame, stamp := states[k], events[k].ws, events[k].frame, events[k].stamp;
    assert Enabled(s, events[k]) && states[k + 1] == Step(cfg, s, events[k]);
    RunRecords(cfg, states, events, k);
    RoutedMessage(cfg, s, ws, frame, stamp);
    hide OnRegister, OnMessage, Rejects, Grants, StartsPings, IsRun, Records;
    var msg := RouteOf(cfg, s, ws, frame).value;
    if !IsValidRelayUsername(msg.username)
       || (msg.username in s.relay.world.table && s.relay.world.table[msg.username].installId != msg.installId) {
      RejectionAnswer(cfg, s.relay, ws, msg, stamp);
    } else {
      GrantAnswer(cfg, s.relay, ws, msg, stamp);
    }
  }

  /**
   * In any run, who waits under a name that somebody else registers, or the
   * same socket again, is no longer open.
   */
  lemma PredecessorIsClosed(cfg: Config, states: seq<System>, events: seq<Event>, k: nat, waiter: SocketId)
    requires IsRun(cfg, states, events) && k < |events| && events[k].Message?
    requires var route := RouteOf(cfg, states[k], events[k].ws, events[k].frame); route.Some? && route.value.Register?
    requires var msg := RouteOf(cfg, states[k], events[k].ws, events[k].frame).value;
      var w := states[k].relay.world;
      && IsValidRelayUsername(msg.username)
      && (msg.username in w.table ==> w.table[msg.username].installId == msg.installId)
      && msg.username in w.manager.waiting && w.manager.waiting[msg.username] == waiter
    ensures Shut(states[k + 1].relay.world.net, waiter)
  {
    RegistrationAnswered(cfg, states, events, k);
    RunAccounted(cfg, states, events, k);
    WaitingIsKnown(states[k], RouteOf(cfg, states[k], events[k].ws, events[k].frame).value.username);
    hide IsRun, RouteOf, StartsPings, Enters, Accounted, IsValidRelayUsername;
  }

  lemma WaitingIsKnown(s: System, name: string)
    requires Accounted(s) && name in s.relay.world.manager.waiting
    ensures s.relay.world.manager.waiting[name] in s.relay.world.net
  {
    assert Holds(s.relay.world.manager, s.relay.world.manager.waiting[name]);
  }

  // ---- Requests ----

  ghost predicate Refuses(r: Relay, r': Relay, ws: SocketId, name: string, error: ConnectError) {
    && IsTurnedAway(r.world.net, r'.world.net, ws, ClientError(error)) && OnlyAt(r.world.net, r'.world.net, {ws})
    && r'.world.table == r.world.table && r'.world.manager == r.world.manager
    && r'.telemetry == r.telemetry + [ClientConnectError(name, error)]
    && StateOf(r', ws) == StateOf(r, ws) && r'.timers == r.timers
  }

  /** The waiting server and the socket are a new pair, and the name was seen. */
  ghost predicate PairsUp(w: World, w': World, ws: SocketId, name: string, stamp: string)
    requires name in w.table && name in w.manager.waiting
  {
    var m, m', server := w.manager, w'.manager, w.manager.waiting[name];
    && w'.table == w.table[name := Registry.Row(w.table[name].installId, w.table[name].registeredAt, stamp)]
    && m'.waiting == m.waiting - {name}
    && m'.activeServers == (
         if server in m.activeServers
         then m.activeServers[server := m.activeServers[server].(state := ServerState.Paired)] else m.activeServers)
    && var p := Pair(m.nextSerial, server, ws);
       m'.pairs == m.pairs + {p} && m'.pairLookup == m.pairLookup[server := p][ws := p]
  }

  /** Both records are marked, and the server's timers are cleared. */
  ghost predicate MarksBoth(r: Relay, r': Relay, ws: SocketId, server: SocketId, name: string) {
    && StateOf(r', ws).paired && StateOf(r', server).paired
    && (ws != server ==>
          && StateOf(r', ws) == StateOf(r, ws).(username := Some(name), isServer := Some(false), paired := true)
          && StateOf(r', server) == StateOf(r, server).(paired := true, pingInterval := None, pongTimeout := None)
          && r'.timers == Drop(Drop(r.timers, StateOf(r, server).pingInterval), StateOf(r, server).pongTimeout))
    && forall x :: x != ws && x != server ==> StateOf(r', x) == StateOf(r, x)
  }

  ghost predicate Connects(r: Relay, r': Relay, ws: SocketId, name: string, stamp: string)
    requires name in r.world.table && name in r.world.manager.waiting
  {
    var server, active := r.world.manager.waiting[name], r.world.manager.activeServers;
    && PairsUp(r.world, r'.world, ws, name, stamp) && MarksBoth(r, r', ws, server, name)
    && IsSent(r.world.net, r'.world.net, ws, Control(ClientConnected)) && OnlyAt(r.world.net, r'.world.net, {ws})
    && r'.telemetry == r.telemetry +
         [ClientConnectSuccess(name, if server in active then Some(active[server].installId) else None)]
  }

  lemma RefusalAnswer(r: Relay, ws: SocketId, msg: Routing, stamp: string)
    requires Records(r) && msg.Connect? && ws in r.world.net
    requires msg.username !in r.world.table || msg.username !in r.world.manager.waiting
    ensures Refuses(r, OnConnect(Attach(r, ws), ws, msg, stamp), ws, msg.username,
                    if msg.username in r.world.table then ServerOffline else UnknownUsername)
  {
    hide Records;
    AttachView(r, ws);
  }

  lemma ConnectsWorld(w: World, ws: SocketId, name: string, stamp: string)
    requires name in w.table && name in w.manager.waiting
    ensures var (w', result) := AfterConnect(w, ws, name, stamp);
      var server, active := w.manager.waiting[name], w.manager.activeServers;
      && PairsUp(w, w', ws, name, stamp) && w'.net == w.net
      && result.Connected? && result.serverWs == server
      && (result.server.Some? <==> server in active)
      && (server in active ==> result.server.value.installId == active[server].installId)
  {
  }

  lemma PairsUpOnly(w: World, w1: World, w2: World, ws: SocketId, name: string, stamp: string)
    requires name in w.table && name in w.manager.waiting
    requires PairsUp(w, w1, ws, name, stamp) && w2.table == w1.table && w2.manager == w1.manager
    ensures PairsUp(w, w2, ws, name, stamp)
  {
  }

  lemma ConnectsRest(r: Relay, ws: SocketId, msg: Routing, stamp: string)
    requires msg.Connect? && ws in r.stateOf
    requires AfterConnect(r.world, ws, msg.username, stamp).1.Connected?
    ensures var (w', result) := AfterConnect(r.world, ws, msg.username, stamp);
      var r', marked := OnConnect(r, ws, msg, stamp), MarkPaired(r.(world := w'), ws, msg.username, result.serverWs);
      && r' == marked.(world := w'.(net := Send(w'.net, ws, Control(ClientConnected))),
                       telemetry := r.telemetry + [ClientConnectSuccess(
                         msg.username, if result.server.Some? then Some(result.server.value.installId) else None)])
  {
    hide AfterConnect;
  }

  lemma SentTo(net: Net, ws: SocketId, item: Sent)
    requires ws in net
    ensures IsSent(net, Send(net, ws, item), ws, item) && OnlyAt(net, Send(net, ws, item), {ws})
  {
  }

  lemma BothMarked(r: Relay, ws: SocketId, name: string, server: SocketId)
    requires Records(r)
    ensures MarksBoth(r, MarkPaired(Attach(r, ws), ws, name, server), ws, server, name)
  {
    AttachView(r, ws);
    var r0 := Attach(r, ws);
    var st := StateOf(r0, ws).(username := Some(name), isServer := Some(false), paired := true);
    SetRecordView(r0, ws, st);
    var r1 := SetRecord(r0, r0.stateOf[ws], st);
    hide MarkPaired, Records;
    assert MarkPaired(r0, ws, name, server) == MarkServerPaired(r1, server) by {
      MarkIs(r0, ws, name, server);
    }
    ServerMarked(r1, server);
  }

  lemma MarkIs(r: Relay, ws: SocketId, name: string, server: SocketId)
    requires ws in r.stateOf
    ensures var st := StateOf(r, ws).(username := Some(name), isServer := Some(false), paired := true);
      MarkPaired(r, ws, name, server) == MarkServerPaired(SetRecord(r, r.stateOf[ws], st), server)
  {
  }

  lemma ServerMarked(r: Relay, server: SocketId)
    requires Records(r)
    ensures var r' := MarkServerPaired(r, server);
      && (forall x :: StateOf(r', x) ==
            if x == server then StateOf(r, x).(paired := true, pingInterval := None, pongTimeout := None)
            else StateOf(r, x))
      && r'.timers == Drop(Drop(r.timers, StateOf(r, server).pingInterval), StateOf(r, server).pongTimeout)
  {
    AttachView(r, server);
    var r1 := Attach(r, server);
    var st := StateOf(r1, server).(paired := true);
    SetRecordView(r1, server, st);
    var r2 := SetRecord(r1, r1.stateOf[server], st);
    StopPingView(r2, server);
    hide Records;
  }

  lemma MarksOnly(r: Relay, r1: Relay, r2: Relay, ws: SocketId, server: SocketId, name: string)
    requires MarksBoth(r, r1, ws, server, name)
    requires r2.stateOf == r1.stateOf && r2.records == r1.records && r2.timers == r1.timers
    ensures MarksBoth(r, r2, ws, server, name)
  {
    assert forall x :: StateOf(r2, x) == StateOf(r1, x);
    hide StateOf;
  }

  /** Marking the records does not depend on the world. */
  lemma MarkedApart(r: Relay, w: World, ws: SocketId, name: string, server: SocketId)
    requires ws in r.stateOf
    ensures MarkPaired(r.(world := w), ws, name, server) == MarkPaired(r, ws, name, server).(world := w)
  {
    hide MarkServerPaired;
    var st := StateOf(r, ws).(username := Some(name), isServer := Some(false), paired := true);
    ServerMarkedApart(SetRecord(r, r.stateOf[ws], st), w, server);
  }

  lemma ServerMarkedApart(r: Relay, w: World, server: SocketId)
    ensures MarkServerPaired(r.(world := w), server) == MarkServerPaired(r, server).(world := w)
  {
  }

  lemma ConnectAnswer(r: Relay, ws: SocketId, msg: Routing, stamp: string)
    requires Records(r) && msg.Connect? && ws in r.world.net
    requires msg.username in r.world.table && msg.username in r.world.manager.waiting
    ensures Connects(r, OnConnect(Attach(r, ws), ws, msg, stamp), ws, msg.username, stamp)
  {
    hide Records, OnConnect, AfterConnect, PairsUp, MarksBoth, MarkPaired;
    AttachView(r, ws);
    var r0 := Attach(r, ws);
    var w' := AfterConnect(r.world, ws, msg.username, stamp).0;
    var server := r.world.manager.waiting[msg.username];
    ConnectsWorld(r.world, ws, msg.username, stamp);
    ConnectsRest(r0, ws, msg, stamp);
    MarkedApart(r0, w', ws, msg.username, server);
    BothMarked(r, ws, msg.username, server);
    var r' := OnConnect(r0, ws, msg, stamp);
    MarksOnly(r, MarkPaired(r0, ws, msg.username, server), r', ws, server, msg.username);
    PairsUpOnly(r.world, w', r'.world, ws, msg.username, stamp);
    SentTo(r.world.net, ws, Control(ClientConnected));
  }

  /**
   * In any run, a request: for a name without a row it is refused as unknown,
   * for one under which nobody waits as offline, and otherwise it is connected.
   */
  lemma RequestAnswered(cfg: Config, states: seq<System>, events: seq<Event>, k: nat)
    requires IsRun(cfg, states, events) && k < |events| && events[k].Message?
    requires var route := RouteOf(cfg, states[k], events[k].ws, events[k].frame); route.Some? && route.value.Connect?
    ensures var r, r', ws := states[k].relay, states[k + 1].relay, events[k].ws;
      var name := RouteOf(cfg, states[k], ws, events[k].frame).value.username;
      if name !in r.world.table then Refuses(r, r', ws, name, UnknownUsername)
      else if name !in r.world.manager.waiting then Refuses(r, r', ws, name, ServerOffline)
      else Connects(r, r', ws, name, events[k].stamp)
  {
    var s, ws, frame, stamp := states[k], events[k].ws, events[k].frame, events[k].stamp;
    assert Enabled(s, events[k]) && states[k + 1] == Step(cfg, s, events[k]);
    RunRecords(cfg, states, events, k);
    RoutedMessage(cfg, s, ws, frame, stamp);
    hide OnConnect, OnMessage, Refuses, Connects, IsRun, Records;
    var msg := RouteOf(cfg, s, ws, frame).value;
    if msg.username !in s.relay.world.table || msg.username !in s.relay.world.manager.waiting {
      RefusalAnswer(s.relay, ws, msg, stamp);
    } else {
      ConnectAnswer(s.relay, ws, msg, stamp);
    }
  }

  // ---- Everything else ----

  /** What a socket that is not paired sends, but for the two routing messages in text frames, has no effect. */
  lemma OthersIgnored(cfg: Config, states: seq<System>, events: seq<Event>, k: nat)
    requires IsRun(cfg, states, events) && k < |events| && events[k].Message?
    requires var s, e := states[k], events[k];
      && !StateOf(s.relay, e.ws).paired
      && (e.frame.isBinary || !(cfg.parse(e.frame.data).Register? || cfg.parse(e.frame.data).Connect?))
    ensures var r, r' := states[k].relay, states[k + 1].relay;
      r'.world == r.world && r'.telemetry == r.telemetry && r'.timers == r.timers
  {
    var s, e := states[k], events[k];
    assert states[k + 1] == Step(cfg, s, e);
    RunRecords(cfg, states, events, k);
    AttachView(s.relay, e.ws);
    hide Records;
  }

  /** What a paired socket sends goes to the other end of its pair, as it is, and has no other effect. */
  lemma PairedForwarded(cfg: Config, states: seq<System>, events: seq<Event>, k: nat)
    requires IsRun(cfg, states, events) && k < |events| && events[k].Message?
    requires StateOf(states[k].relay, events[k].ws).paired
    ensures var r, r', ws := states[k].relay, states[k + 1].relay, events[k].ws;
      && r'.world.table == r.world.table && r'.world.manager == r.world.manager
      && r'.telemetry == r.telemetry && r'.timers == r.timers
      && if ws !in r.world.manager.pairLookup then r'.world.net == r.world.net
         else
           var p := r.world.manager.pairLookup[ws];
           var other := if p.server == ws then p.client else p.server;
           && IsSent(r.world.net, r'.world.net, other, Piped(events[k].frame))
           && OnlyAt(r.world.net, r'.world.net, {other})
  {
    var s, e := states[k], events[k];
    assert states[k + 1] == Step(cfg, s, e);
    RunRecords(cfg, states, events, k);
    AttachView(s.relay, e.ws);
    hide Records;
  }

  // ---- Close events ----

  /** The socket waited under its name: the entry goes. */
  ghost predicate StopsWaiting(m: Manager, m': Manager, ws: SocketId, name: string) {
    && m'.waiting == m.waiting - {name} && m'.activeServers == m.activeServers - {ws}
    && m'.pairs == m.pairs && m'.pairLookup == m.pairLookup
  }

  /** The socket was in a pair: the pair goes, for both ends. */
  ghost predicate DropsPair(m: Manager, m': Manager, p: Pair) {
    && m'.waiting == m.waiting && m'.activeServers == m.activeServers - {p.server}
    && m'.pairs == m.pairs - {p} && m'.pairLookup == m.pairLookup - {p.server, p.client}
  }

  /** What is reported of a waiting server. */
  function WaitingReport(m: Manager, ws: SocketId, name: string): seq<Telemetry> {
    if ws in m.activeServers then [ServerDisconnect(name, m.activeServers[ws].installId, ServerState.Waiting)] else []
  }

  /** What is reported of a pair: who ended it, and the server if it was the one. */
  function PairReport(m: Manager, ws: SocketId, name: string, p: Pair): seq<Telemetry> {
    if p.server == ws then
      [PairDisconnect(name, Role.Server)]
      + if ws in m.activeServers then [ServerDisconnect(name, m.activeServers[ws].installId, ServerState.Paired)]
        else []
    else [PairDisconnect(name, Role.Client)]
  }

  /** What a close event does, for a socket whose record has this name. */
  ghost predicate Closes(r: Relay, r': Relay, ws: SocketId, name: Option<string>) {
    var m, m', net, net' := r.world.manager, r'.world.manager, r.world.net, r'.world.net;
    && r'.world.table == r.world.table && PhaseOf(net', ws).Closed?
    && if name.Some? && name.value != "" && name.value in m.waiting && m.waiting[name.value] == ws then
         && StopsWaiting(m, m', ws, name.value) && OnlyAt(net, net', {ws})
         && r'.telemetry == r.telemetry + WaitingReport(m, ws, name.value)
       else if ws in m.pairLookup then
         var p := m.pairLookup[ws];
         var other := if p.server == ws then p.client else p.server;
         && DropsPair(m, m', p) && OnlyAt(net, net', {ws, other})
         && (other in net ==> Shut(net', other) && ItemsOn(net', other) == ItemsOn(net, other))
         && r'.telemetry == r.telemetry + if name.Some? && name.value != "" then PairReport(m, ws, name.value, p)
              else []
       else m' == m && OnlyAt(net, net', {ws}) && r'.telemetry == r.telemetry
  }

  lemma CloseWorldAnswer(w: World, ws: SocketId, name: Option<string>)
    ensures var (w', result) := AfterClose(w, ws, name);
      var m := w.manager;
      && w'.table == w.table
      && if name.Some? && name.value != "" && name.value in m.waiting && m.waiting[name.value] == ws then
           && StopsWaiting(m, w'.manager, ws, name.value) && w'.net == w.net
           && CloseTelemetry(name, result) == WaitingReport(m, ws, name.value)
         else if ws in m.pairLookup then
           var p := m.pairLookup[ws];
           && DropsPair(m, w'.manager, p)
           && w'.net == StartClose(w.net, if p.server == ws then p.client else p.server)
           && CloseTelemetry(name, result) ==
                if name.Some? && name.value != "" then PairReport(m, ws, name.value, p) else []
         else w'.manager == m && w'.net == w.net && CloseTelemetry(name, result) == []
  {
  }

  lemma CloseRest(r: Relay, ws: SocketId)
    requires Records(r)
    ensures var name := StateOf(r, ws).username;
      && OnClose(r, ws).world == AfterClose(r.world, ws, name).0
      && OnClose(r, ws).telemetry == r.telemetry + CloseTelemetry(name, AfterClose(r.world, ws, name).1)
  {
    hide AfterClose, CloseTelemetry, Records;
    AttachView(r, ws);
    StopPingView(Attach(r, ws), ws);
  }

  lemma ClosedNet(net: Net, ws: SocketId, other: SocketId)
    requires ws in net
    ensures var net1 := net[ws := net[ws].(phase := Closed)];
      && PhaseOf(net1, ws).Closed? && OnlyAt(net, net1, {ws})
      && var net2 := StartClose(net1, other);
         && PhaseOf(net2, ws).Closed? && OnlyAt(net, net2, {ws, other})
         && (other in net ==> Shut(net2, other) && ItemsOn(net2, other) == ItemsOn(net, other))
  {
  }

  /** In any run, a close event. */
  lemma CloseAnswered(cfg: Config, states: seq<System>, events: seq<Event>, k: nat)
    requires IsRun(cfg, states, events) && k < |events| && events[k].CloseEvent?
    ensures var r, r', ws := states[k].relay, states[k + 1].relay, events[k].ws;
      Closes(r, r', ws, StateOf(r, ws).username)
  {
    var s, ws := states[k], events[k].ws;
    assert Enabled(s, events[k]) && states[k + 1] == Step(cfg, s, events[k]);
    RunRecords(cfg, states, events, k);
    var r := SeenClosed(s.relay, ws);
    SameRecords(s.relay, r);
    hide IsRun, Records, OnClose, AfterClose, CloseTelemetry, StopsWaiting, DropsPair, WaitingReport, PairReport,
      OnlyAt;
    CloseRest(r, ws);
    assert StateOf(r, ws) == StateOf(s.relay, ws);
    CloseWorldAnswer(r.world, ws, StateOf(r, ws).username);
    var m := s.relay.world.manager;
    var other := if ws !in m.pairLookup then ws
                 else if m.pairLookup[ws].server == ws then m.pairLookup[ws].client else m.pairLookup[ws].server;
    ClosedNet(s.relay.world.net, ws, other);
  }

  // ---- Timers ----

  /** A ping of an unpaired socket: a pong timer is set, and the next ping is one interval later. */
  lemma TickAnswered(cfg: Config, states: seq<System>, events: seq<Event>, k: nat)
    requires IsRun(cfg, states, events) && k < |events| && events[k].Tick?
    ensures var r, r', id := states[k].relay, states[k + 1].relay, events[k].id;
      id in r.timers && r.timers[id].Interval? && r'.world == r.world && r'.telemetry == r.telemetry &&
      var t := r.timers[id];
      if RecordAt(r, t.ref).paired then
        (RecordAt(r, t.ref).pingInterval == Some(id) ==> r'.timers == r.timers - {id})
      else
        && RecordAt(r', t.ref) == RecordAt(r, t.ref).(pongTimeout := Some(r.nextTimer))
        && (r.nextTimer !in r.timers ==>
              r'.timers == r.timers[r.nextTimer := Timeout(t.ws, t.ref, r.now + cfg.pongTimeoutMs)]
                                   [id := t.(due := t.due + cfg.pingIntervalMs)])
  {
    var s, e := states[k], events[k];
    assert Enabled(s, e) && states[k + 1] == Step(cfg, s, e);
  }

  /** A pong: it is noted, and the pong timer that the record names is cleared. */
  lemma PongAnswered(cfg: Config, states: seq<System>, events: seq<Event>, k: nat)
    requires IsRun(cfg, states, events) && k < |events| && events[k].Pong?
    ensures var r, r', ws := states[k].relay, states[k + 1].relay, events[k].ws;
      && r'.world == r.world && r'.telemetry == r.telemetry
      && StateOf(r', ws) == StateOf(r, ws).(lastPong := Some(r.now), pongTimeout := None)
      && r'.timers == (if StateOf(r, ws).pongTimeout.Some? then r.timers - {StateOf(r, ws).pongTimeout.value}
           else r.timers)
  {
    var s, e := states[k], events[k];
    assert states[k + 1] == Step(cfg, s, e);
    RunRecords(cfg, states, events, k);
    AttachView(s.relay, e.ws);
  }

  /** A pong timeout: its socket is no longer open. */
  lemma TimeoutAnswered(cfg: Config, states: seq<System>, events: seq<Event>, k: nat)
    requires IsRun(cfg, states, events) && k < |events| && events[k].Expire?
    ensures var r, r', id := states[k].relay, states[k + 1].relay, events[k].id;
      id in r.timers && r'.timers == r.timers - {id}
      && r'.world.manager == r.world.manager && r'.telemetry == r.telemetry &&
      var ws := r.timers[id].ws;
      Shut(r'.world.net, ws) && ItemsOn(r'.world.net, ws) == ItemsOn(r.world.net, ws)
      && OnlyAt(r.world.net, r'.world.net, {ws})
  {
    var s, e := states[k], events[k];
    assert Enabled(s, e) && states[k + 1] == Step(cfg, s, e);
    RunAccounted(cfg, states, events, k);
    hide Records, NamesKnown;
  }
}
