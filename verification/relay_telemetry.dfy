/** The telemetry of every run, disciplined or not, accounts for the pairs that stand. */
module RelayTelemetry {
  import opened Wrappers
  import opened Sockets
  import opened Connections
  import opened Usernames
  import opened WsHandler
  import opened RelaySystem
  import opened ConnectionIndex
  import opened RelayLinks
  import opened Conservation
  import Registry

  function Weight(t: Telemetry): int {
    match t
    case ClientConnectSuccess(_, _) => 1
    case PairDisconnect(_, _) => -1
    case _ => 0
  }

  /** Reported connects minus reported disconnects. */
  function ReportedPairs(events: seq<Telemetry>): int {
    if events == [] then 0 else ReportedPairs(events[..|events| - 1]) + Weight(events[|events| - 1])
  }

  lemma {:induction false} ReportedConcat(a: seq<Telemetry>, b: seq<Telemetry>)
    ensures ReportedPairs(a + b) == ReportedPairs(a) + ReportedPairs(b)
  {
    if b == [] {
      assert a + b == a;
    } else {
      var n := |b| - 1;
      ReportedConcat(a, b[..n]);
      assert (a + b)[..|a + b| - 1] == a + b[..n];
    }
  }

  ghost predicate Holds(m: Manager, ws: SocketId) {
    ws in m.pairLookup || exists n :: n in m.waiting && m.waiting[n] == ws
  }

  /** Whoever the manager holds is a socket, and while it is live its record has a name. */
  ghost predicate NamesKnown(s: System) {
    && Records(s.relay) && s.log.Keys == s.relay.world.net.Keys
    && (forall n :: n in s.relay.world.manager.waiting ==> n != "")
    && (forall ws :: FaceOf(s.relay, ws).username != Some(""))
    && (forall ws :: Holds(s.relay.world.manager, ws) ==> ws in s.relay.world.net)
    && forall ws :: Holds(s.relay.world.manager, ws) && !PhaseIn(s, ws).Closed? ==> FaceOf(s.relay, ws).username.Some?
  }

  ghost predicate Accounted(s: System) {
    && NamesKnown(s) && EntriesLive(s.relay.world.manager)
    && ReportedPairs(s.relay.telemetry) == |s.relay.world.manager.pairs|
    && forall id :: id in s.relay.timers ==> s.relay.timers[id].ws in s.relay.world.net
  }

  /** Names and holders only as before, and no socket is less closed. */
  lemma NamesKnownFrom(s: System, s': System)
    requires NamesKnown(s) && Records(s'.relay) && s'.relay.world.manager == s.relay.world.manager
    requires s'.log.Keys == s'.relay.world.net.Keys && s.relay.world.net.Keys <= s'.relay.world.net.Keys
    requires forall ws :: ws in s.relay.world.net && PhaseIn(s, ws).Closed? ==> PhaseIn(s', ws).Closed?
    requires forall ws :: FaceOf(s'.relay, ws) == FaceOf(s.relay, ws)
    ensures NamesKnown(s')
  {
  }

  /** A step that leaves the manager and the telemetry alone. */
  lemma AccountedFrom(s: System, s': System)
    requires Accounted(s) && Records(s'.relay) && s'.relay.world.manager == s.relay.world.manager
    requires s'.relay.telemetry == s.relay.telemetry
    requires s'.log.Keys == s'.relay.world.net.Keys && s.relay.world.net.Keys <= s'.relay.world.net.Keys
    requires forall ws :: ws in s.relay.world.net && PhaseIn(s, ws).Closed? ==> PhaseIn(s', ws).Closed?
    requires forall ws :: FaceOf(s'.relay, ws) == FaceOf(s.relay, ws)
    requires forall id :: id in s'.relay.timers ==> s'.relay.timers[id].ws in s'.relay.world.net
    ensures Accounted(s')
  {
    NamesKnownFrom(s, s');
  }

  lemma PongAccounted(cfg: Config, s: System, ws: SocketId)
    requires Accounted(s) && Enabled(s, Pong(ws))
    ensures Accounted(Step(cfg, s, Pong(ws)))
  {
    AttachView(s.relay, ws);
    var r0 := Attach(s.relay, ws);
    SetRecordView(r0, ws, StateOf(r0, ws).(lastPong := Some(r0.now), pongTimeout := None));
    AccountedFrom(s, Step(cfg, s, Pong(ws)));
  }

  lemma TickAccounted(cfg: Config, s: System, id: TimerId)
    requires Accounted(s) && Enabled(s, Tick(id))
    ensures Accounted(Step(cfg, s, Tick(id)))
  {
    TickFaces(cfg, s.relay, id);
    AccountedFrom(s, Step(cfg, s, Tick(id)));
  }

  lemma PlainAccounted(cfg: Config, s: System, e: Event)
    requires Accounted(s) && Enabled(s, e)
    requires !e.Message? && !e.CloseEvent? && !e.Pong? && !e.Tick?
    ensures Accounted(Step(cfg, s, e))
  {
    if e.Errored? {
      AttachView(s.relay, e.ws);
    }
    AccountedFrom(s, Step(cfg, s, e));
  }

  lemma UnroutedAccounted(cfg: Config, s: System, ws: SocketId, frame: Frame, stamp: string)
    requires Accounted(s) && Enabled(s, Message(ws, frame, stamp)) && RouteOf(cfg, s, ws, frame).None?
    ensures Accounted(Step(cfg, s, Message(ws, frame, stamp)))
  {
    UnroutedEffect(cfg, s.relay, ws, frame, stamp);
    AttachView(s.relay, ws);
    AccountedFrom(s, Step(cfg, s, Message(ws, frame, stamp)));
  }

  /** Where a routing message leads: the same sockets, the manager's answer, and one more name. */
  ghost predicate Answer(s: System, s': System, ws: SocketId, w: World, name: string) {
    && Records(s'.relay) && SameLive(s.relay.world.net, s'.relay.world.net) && s'.log.Keys == s.relay.world.net.Keys
    && ws in s.relay.world.net
    && s'.relay.world.manager == w.manager
    && (forall n :: n in w.manager.waiting ==> n != "")
    && (forall x :: Holds(w.manager, x) ==> Holds(s.relay.world.manager, x) || x == ws)
    && (forall x :: FaceOf(s'.relay, x).username == FaceOf(s.relay, x).username
          || (x == ws && name != "" && FaceOf(s'.relay, x).username == Some(name)))
    && (Holds(w.manager, ws) && !Holds(s.relay.world.manager, ws) ==> FaceOf(s'.relay, ws).username.Some?)
  }

  lemma AnswerKeepsNames(s: System, s': System, ws: SocketId, w: World, name: string)
    requires NamesKnown(s) && Answer(s, s', ws, w, name)
    ensures NamesKnown(s')
  {
  }

  lemma LogKeys(cfg: Config, s: System, ws: SocketId, frame: Frame)
    requires NamesKnown(s) && ws in s.log
    ensures LogMessage(cfg, s, ws, frame).Keys == s.log.Keys
  {
    var claim := ClaimOf(cfg, s, ws, frame);
    if claim.Some? {
      assert Holds(s.relay.world.manager, claim.value);
    }
  }

  lemma RegisterTelemetry(cfg: Config, r: Relay, ws: SocketId, msg: Routing, stamp: string)
    requires msg.Register?
    ensures ReportedPairs(OnRegister(cfg, Attach(r, ws), ws, msg, stamp).telemetry) == ReportedPairs(r.telemetry)
  {
    ReportedConcat(r.telemetry, [ServerRegister(msg.username, msg.installId)]);
  }

  lemma MarkPairedReports(r: Relay, ws: SocketId, name: string, serverWs: SocketId)
    requires ws in r.stateOf
    ensures MarkPaired(r, ws, name, serverWs).telemetry == r.telemetry
  {
  }

  lemma ConnectTelemetry(r: Relay, ws: SocketId, msg: Routing, stamp: string)
    requires msg.Connect?
    ensures ReportedPairs(OnConnect(Attach(r, ws), ws, msg, stamp).telemetry) ==
      ReportedPairs(r.telemetry) + if AfterConnect(r.world, ws, msg.username, stamp).1.Connected? then 1 else 0
  {
    var (world, result) := AfterConnect(r.world, ws, msg.username, stamp);
    if result.Connected? {
      MarkPairedReports(Attach(r, ws).(world := world), ws, msg.username, result.serverWs);
    }
    hide MarkPaired, AfterConnect;
    var r' := OnConnect(Attach(r, ws), ws, msg, stamp);
    assert |r'.telemetry| == |r.telemetry| + 1 && r'.telemetry[..|r.telemetry|] == r.telemetry;
  }

  lemma NamesKnownRecords(s: System)
    requires NamesKnown(s)
    ensures Records(s.relay)
  {
  }

  lemma RegisterHolds(w: World, ws: SocketId, msg: Routing, stamp: string)
    requires msg.Register? && forall n :: n in w.manager.waiting ==> n != ""
    ensures var (w', result) := AfterRegister(w, ws, msg.username, msg.installId, msg.metadata, stamp);
      && (forall n :: n in w'.manager.waiting ==> n != "")
      && (forall x :: Holds(w'.manager, x) ==> Holds(w.manager, x) || x == ws)
      && (result.Registered? ==> msg.username != "")
      && (Holds(w'.manager, ws) && !Holds(w.manager, ws) ==> result.Registered?)
  {
  }

  lemma RegisterKeepsNames(cfg: Config, s: System, ws: SocketId, frame: Frame, stamp: string)
    requires NamesKnown(s) && ws in s.log
    requires RouteOf(cfg, s, ws, frame).Some? && RouteOf(cfg, s, ws, frame).value.Register?
    ensures NamesKnown(
      System(OnRegister(cfg, Attach(s.relay, ws), ws, RouteOf(cfg, s, ws, frame).value, stamp),
             LogMessage(cfg, s, ws, frame)))
  {
    var msg := RouteOf(cfg, s, ws, frame).value;
    NamesKnownRecords(s);
    RegisterHolds(s.relay.world, ws, msg, stamp);
    hide OnRegister, LogMessage, RouteOf, AfterRegister, Records, Holds;
    RegisterEffect(cfg, s.relay, ws, msg, stamp);
    LogKeys(cfg, s, ws, frame);
    var (w, result) := AfterRegister(s.relay.world, ws, msg.username, msg.installId, msg.metadata, stamp);
    var s' := System(OnRegister(cfg, Attach(s.relay, ws), ws, msg, stamp), LogMessage(cfg, s, ws, frame));
    AnswerKeepsNames(s, s', ws, w, if result.Registered? then msg.username else "");
  }

  /** What the accounting needs to know of a state besides the sums. */
  lemma AccountedKnows(s: System)
    requires Accounted(s)
    ensures NamesKnown(s) && Records(s.relay) && s.log.Keys == s.relay.world.net.Keys
    ensures EntriesLive(s.relay.world.manager)
  {
  }

  /** A routing message, once it is known which handler it reaches. */
  lemma RegisterAccounted(cfg: Config, s: System, ws: SocketId, frame: Frame, stamp: string)
    requires Accounted(s) && ws in s.log
    requires RouteOf(cfg, s, ws, frame).Some? && RouteOf(cfg, s, ws, frame).value.Register?
    ensures Accounted(
      System(OnRegister(cfg, Attach(s.relay, ws), ws, RouteOf(cfg, s, ws, frame).value, stamp),
             LogMessage(cfg, s, ws, frame)))
  {
    var msg := RouteOf(cfg, s, ws, frame).value;
    AccountedKnows(s);
    hide OnRegister, LogMessage, RouteOf, NamesKnown, Records, EntriesLive, ReportedPairs;
    RegisterEffect(cfg, s.relay, ws, msg, stamp);
    RegisterKeepsNames(cfg, s, ws, frame, stamp);
    RegisterTelemetry(cfg, s.relay, ws, msg, stamp);
    GrantKeepsPairs(s.relay.world, ws, msg.username, msg.installId, msg.metadata, stamp);
  }

  lemma GrantKeepsPairs(w: World, ws: SocketId, name: string, installId: string, metadata: Metadata, now: string)
    requires EntriesLive(w.manager)
    ensures var m := AfterRegister(w, ws, name, installId, metadata, now).0.manager;
      EntriesLive(m) && m.pairs == w.manager.pairs
  {
  }

  lemma RefusedConnectAccounted(cfg: Config, s: System, ws: SocketId, frame: Frame, stamp: string)
    requires Accounted(s) && ws in s.log && ClaimOf(cfg, s, ws, frame).None?
    requires RouteOf(cfg, s, ws, frame).Some? && RouteOf(cfg, s, ws, frame).value.Connect?
    ensures Accounted(
      System(OnConnect(Attach(s.relay, ws), ws, RouteOf(cfg, s, ws, frame).value, stamp),
             LogMessage(cfg, s, ws, frame)))
  {
    var msg := RouteOf(cfg, s, ws, frame).value;
    var s' := System(OnConnect(Attach(s.relay, ws), ws, msg, stamp), LogMessage(cfg, s, ws, frame));
    RefusedConnectEffect(s.relay, ws, msg, stamp);
    LogKeys(cfg, s, ws, frame);
    AnswerKeepsNames(s, s', ws, s.relay.world, "");
    ConnectTelemetry(s.relay, ws, msg, stamp);
  }

  lemma ConnectAccounted(cfg: Config, s: System, ws: SocketId, frame: Frame, stamp: string)
    requires Accounted(s) && ws in s.log && ClaimOf(cfg, s, ws, frame).Some?
    ensures Accounted(
      System(OnConnect(Attach(s.relay, ws), ws, RouteOf(cfg, s, ws, frame).value, stamp),
             LogMessage(cfg, s, ws, frame)))
  {
    ConnectKeepsNames(cfg, s, ws, frame, stamp);
    ClaimConnects(cfg, s, ws, frame, stamp);
    ConnectSums(s, ws, RouteOf(cfg, s, ws, frame).value, stamp);
    hide OnConnect, LogMessage, NamesKnown, Records, EntriesLive, ReportedPairs, AfterConnect, RouteOf, ClaimOf;
  }

  /** A pairing adds one pair and one report of it. */
  lemma ConnectSums(s: System, ws: SocketId, msg: Routing, stamp: string)
    requires Accounted(s) && ws in s.log && msg.Connect?
    requires msg.username in s.relay.world.table && msg.username in s.relay.world.manager.waiting
    ensures var r' := OnConnect(Attach(s.relay, ws), ws, msg, stamp);
      && EntriesLive(r'.world.manager) && ReportedPairs(r'.telemetry) == |r'.world.manager.pairs|
      && forall id :: id in r'.timers ==> r'.timers[id].ws in r'.world.net
  {
    AccountedKnows(s);
    hide OnConnect, Claim, NamesKnown, Records, EntriesLive, ReportedPairs, Effect;
    ConnectEffect(s.relay, ws, msg, stamp);
    EffectTimers(s.relay, OnConnect(Attach(s.relay, ws), ws, msg, stamp), ws,
      {ws, s.relay.world.manager.waiting[msg.username]});
    ConnectAddsOne(s.relay.world.manager, ws, msg.username);
    ConnectTelemetry(s.relay, ws, msg, stamp);
  }

  lemma EffectTimers(r: Relay, r': Relay, ws: SocketId, attached: set<SocketId>)
    requires Effect(r, r', ws, attached) && ws in r.world.net
    requires forall id :: id in r.timers ==> r.timers[id].ws in r.world.net
    ensures forall id :: id in r'.timers ==> r'.timers[id].ws in r'.world.net
  {
  }

  lemma ClaimConnects(cfg: Config, s: System, ws: SocketId, frame: Frame, stamp: string)
    requires ClaimOf(cfg, s, ws, frame).Some?
    ensures RouteOf(cfg, s, ws, frame).Some? && RouteOf(cfg, s, ws, frame).value.Connect?
    ensures var name := RouteOf(cfg, s, ws, frame).value.username;
      && name in s.relay.world.table && name in s.relay.world.manager.waiting
      && s.relay.world.manager.waiting[name] == ClaimOf(cfg, s, ws, frame).value
      && AfterConnect(s.relay.world, ws, name, stamp).1.Connected?
      && AfterConnect(s.relay.world, ws, name, stamp).0.manager == Claim(s.relay.world.manager, ws, name)
  {
  }

  lemma ConnectKeepsNames(cfg: Config, s: System, ws: SocketId, frame: Frame, stamp: string)
    requires NamesKnown(s) && ws in s.log && ClaimOf(cfg, s, ws, frame).Some?
    ensures NamesKnown(
      System(OnConnect(Attach(s.relay, ws), ws, RouteOf(cfg, s, ws, frame).value, stamp),
             LogMessage(cfg, s, ws, frame)))
  {
    var msg := RouteOf(cfg, s, ws, frame).value;
    ConnectEffect(s.relay, ws, msg, stamp);
    ConnectFaces(s.relay, ws, msg, stamp);
    LogKeys(cfg, s, ws, frame);
    ClaimHolds(s.relay.world.manager, ws, msg.username);
    var s' := System(OnConnect(Attach(s.relay, ws), ws, msg, stamp), LogMessage(cfg, s, ws, frame));
    AnswerKeepsNames(s, s', ws, AfterConnect(s.relay.world, ws, msg.username, stamp).0, msg.username);
  }

  lemma ClaimHolds(m: Manager, ws: SocketId, name: string)
    requires name in m.waiting
    ensures forall x :: Holds(Claim(m, ws, name), x) ==> Holds(m, x) || x == ws
    ensures Holds(m, m.waiting[name])
  {
  }

  lemma ConnectAddsOne(m: Manager, ws: SocketId, name: string)
    requires EntriesLive(m) && name in m.waiting
    ensures EntriesLive(Claim(m, ws, name)) && |Claim(m, ws, name).pairs| == |m.pairs| + 1
  {
    assert Pair(m.nextSerial, m.waiting[name], ws) !in m.pairs;
  }

  lemma CloseKeepsNames(cfg: Config, s: System, ws: SocketId)
    requires Accounted(s) && Enabled(s, CloseEvent(ws))
    ensures NamesKnown(Step(cfg, s, CloseEvent(ws)))
    ensures var s' := Step(cfg, s, CloseEvent(ws));
      && s'.relay.world.manager == AfterClose(s.relay.world, ws, FaceOf(s.relay, ws).username).0.manager
      && s'.relay.world.net.Keys == s.relay.world.net.Keys
      && forall id :: id in s'.relay.timers ==> id in s.relay.timers && s'.relay.timers[id] == s.relay.timers[id]
  {
    AccountedKnows(s);
    hide OnClose, Records, AfterClose, ReportedPairs, EntriesLive, NamesKnown;
    var r := SeenClosed(s.relay, ws);
    SameRecords(s.relay, r);
    CloseView(r, ws);
    ClosedEffect(r, ws);
    CloseHolds(s.relay.world, ws, FaceOf(s.relay, ws).username);
    CloseManager(s.relay.world, r.world, ws, FaceOf(s.relay, ws).username);
    CloseNames(s, Step(cfg, s, CloseEvent(ws)), ws);
  }

  /** What a close does to the manager does not depend on the sockets. */
  lemma CloseManager(w: World, w': World, ws: SocketId, name: Option<string>)
    requires w'.manager == w.manager
    ensures AfterClose(w', ws, name).0.manager == AfterClose(w, ws, name).0.manager
    ensures AfterClose(w', ws, name).1 == AfterClose(w, ws, name).1
  {
  }

  lemma NamedWhileHeld(s: System, ws: SocketId)
    requires NamesKnown(s) && !PhaseIn(s, ws).Closed?
    ensures FaceOf(s.relay, ws).username != Some("")
    ensures ws in s.relay.world.manager.pairLookup ==> FaceOf(s.relay, ws).username.Some?
  {
    assert ws in s.relay.world.manager.pairLookup ==> Holds(s.relay.world.manager, ws);
  }

  lemma CloseAccounted(cfg: Config, s: System, ws: SocketId)
    requires Accounted(s) && Enabled(s, CloseEvent(ws))
    ensures Accounted(Step(cfg, s, CloseEvent(ws)))
  {
    AccountedKnows(s);
    hide OnClose, Records, AfterClose, ReportedPairs, EntriesLive, NamesKnown;
    CloseKeepsNames(cfg, s, ws);
    NamedWhileHeld(s, ws);
    CloseHolds(s.relay.world, ws, FaceOf(s.relay, ws).username);
    CloseTelemetryNet(s.relay, ws);
  }

  lemma CloseHolds(w: World, ws: SocketId, name: Option<string>)
    requires EntriesLive(w.manager)
    ensures var (w', result) := AfterClose(w, ws, name);
      && (forall x :: Holds(w'.manager, x) ==> Holds(w.manager, x))
      && (forall n :: n in w'.manager.waiting ==> n in w.manager.waiting)
      && EntriesLive(w'.manager)
      && |w'.manager.pairs| == |w.manager.pairs| - (if result.PairDisconnected? then 1 else 0)
      && (result.PairDisconnected? ==> Holds(w.manager, ws))
  {
    var m := w.manager;
    var (w', result) := AfterClose(w, ws, name);
    if result.PairDisconnected? {
      DropPairEntries(m, m.pairLookup[ws]);
      assert |m.pairs - {m.pairLookup[ws]}| == |m.pairs| - 1;
    }
  }

  lemma CloseNames(s: System, s': System, ws: SocketId)
    requires ws in s.relay.world.net
    requires NamesKnown(s) && Records(s'.relay) && s'.log == s.log
    requires SameLive(SeenClosed(s.relay, ws).world.net, s'.relay.world.net)
    requires forall n :: n in s'.relay.world.manager.waiting ==> n in s.relay.world.manager.waiting
    requires forall x :: Holds(s'.relay.world.manager, x) ==> Holds(s.relay.world.manager, x)
    requires forall x :: FaceOf(s'.relay, x) == if x == ws then Face(None, false) else FaceOf(s.relay, x)
    ensures NamesKnown(s')
  {
  }

  lemma CloseTelemetryWeight(name: Option<string>, result: CloseResult)
    requires result.PairDisconnected? ==> name.Some? && name.value != ""
    ensures ReportedPairs(CloseTelemetry(name, result)) == if result.PairDisconnected? then -1 else 0
  {
    var added := CloseTelemetry(name, result);
    if result.PairDisconnected? {
      ReportedConcat([PairDisconnect(name.value, result.initiator)], added[1..]);
    }
  }

  lemma CloseReports(r: Relay, ws: SocketId)
    requires Records(r)
    ensures var name := FaceOf(r, ws).username;
      OnClose(r, ws).telemetry == r.telemetry + CloseTelemetry(name, AfterClose(r.world, ws, name).1)
  {
    AttachView(r, ws);
    StopPingView(Attach(r, ws), ws);
  }

  /** The report of a close carries the pair, if there was one. */
  lemma CloseTelemetryNet(r: Relay, ws: SocketId)
    requires Records(r) && ws in r.world.net
    requires FaceOf(r, ws).username != Some("")
    requires ws in r.world.manager.pairLookup ==> FaceOf(r, ws).username.Some?
    ensures var r' := OnClose(SeenClosed(r, ws), ws);
      var result := AfterClose(r.world, ws, FaceOf(r, ws).username).1;
      ReportedPairs(r'.telemetry) == ReportedPairs(r.telemetry) - (if result.PairDisconnected? then 1 else 0)
  {
    var r0 := SeenClosed(r, ws);
    SameRecords(r, r0);
    CloseReports(r0, ws);
    var name, result := FaceOf(r, ws).username, AfterClose(r.world, ws, FaceOf(r, ws).username).1;
    assert AfterClose(r0.world, ws, name).1 == result;
    CloseTelemetryWeight(name, result);
    ReportedConcat(r.telemetry, CloseTelemetry(name, result));
  }

  lemma StepAccounted(cfg: Config, s: System, e: Event)
    requires Accounted(s) && Enabled(s, e)
    ensures Accounted(Step(cfg, s, e))
  {
    match e
    case Message(ws, frame, stamp) =>
      var route := RouteOf(cfg, s, ws, frame);
      if route.None? {
        UnroutedAccounted(cfg, s, ws, frame, stamp);
      } else {
        RoutedMessage(cfg, s, ws, frame, stamp);
        if route.value.Register? {
          RegisterAccounted(cfg, s, ws, frame, stamp);
        } else if ClaimOf(cfg, s, ws, frame).Some? {
          ConnectAccounted(cfg, s, ws, frame, stamp);
        } else {
          RefusedConnectAccounted(cfg, s, ws, frame, stamp);
        }
      }
    case CloseEvent(ws) => CloseAccounted(cfg, s, ws);
    case Pong(ws) => PongAccounted(cfg, s, ws);
    case Tick(id) => TickAccounted(cfg, s, id);
    case _ => PlainAccounted(cfg, s, e);
  }

  /** Every run: the pairs that stand are the reported connects less the reported disconnects. */
  lemma {:induction false} RunAccounted(cfg: Config, states: seq<System>, events: seq<Event>, i: nat)
    requires IsRun(cfg, states, events) && i < |states|
    ensures Accounted(states[i])
    ensures ReportedPairs(states[i].relay.telemetry) == |states[i].relay.world.manager.pairs|
  {
    if i == 0 {
      var table :| states[0] == InitialSystem(table);
    } else {
      RunAccounted(cfg, states, events, i - 1);
      StepAccounted(cfg, states[i - 1], events[i - 1]);
    }
  }
}
