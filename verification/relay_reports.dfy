/** What becomes of registered servers, and what is reported when a socket of a disciplined run closes. */
module RelayReports {
  import opened Wrappers
  import opened Sockets
  import opened Connections
  import opened WsHandler
  import opened RelaySystem
  import opened ConnectionIndex
  import opened RelayShape
  import opened RelayLinks
  import opened RelayTelemetry
  import opened RelayTheorems
  import opened RelayOwnership
  import opened RelayProvenance
  import opened RelayAnswers
  import Registry

  // ---- Nobody is forgotten ----

  predicate WasRegistered(s: System, ws: SocketId) {
    Control(ServerRegistered) in OutboxOf(s, ws)
  }

  /** An open socket that was told that it is registered is waiting, or has been paired. */
  ghost predicate IsStationed(s: System, ws: SocketId) {
    PhaseIn(s, ws).Open? && WasRegistered(s, ws) ==>
      (exists n :: IsWaitingAs(s.relay.world.manager, ws, n)) || TrackOf(s, ws).peer.Some?
  }

  /** Nothing that the station depends on got worse. */
  lemma KeepsStation(s: System, s': System, ws: SocketId)
    requires IsStationed(s, ws)
    requires PhaseIn(s', ws).Open? && WasRegistered(s', ws) ==> PhaseIn(s, ws).Open? && WasRegistered(s, ws)
    requires forall n :: PhaseIn(s', ws).Open? && IsWaitingAs(s.relay.world.manager, ws, n) ==>
      IsWaitingAs(s'.relay.world.manager, ws, n)
    requires TrackOf(s, ws).peer.Some? ==> TrackOf(s', ws).peer.Some?
    ensures IsStationed(s', ws)
  {
    if PhaseIn(s', ws).Open? && WasRegistered(s', ws) && TrackOf(s', ws).peer.None? {
      var n :| IsWaitingAs(s.relay.world.manager, ws, n);
      assert IsWaitingAs(s'.relay.world.manager, ws, n);
    }
  }

  lemma RegisterStation(cfg: Config, states: seq<System>, events: seq<Event>, k: nat, ws: SocketId)
    requires IsRun(cfg, states, events) && k < |events| && events[k].Message?
    requires var route := RouteOf(cfg, states[k], events[k].ws, events[k].frame); route.Some? && route.value.Register?
    requires IsStationed(states[k], ws) && (TrackOf(states[k], ws).peer.Some? ==> TrackOf(states[k + 1], ws).peer.Some?)
    ensures IsStationed(states[k + 1], ws)
  {
    RegistrationAnswered(cfg, states, events, k);
    var s, s', x := states[k], states[k + 1], events[k].ws;
    var msg := RouteOf(cfg, s, x, events[k].frame).value;
    hide IsRun, RouteOf, StartsPings;
    if Grants(s.relay, s'.relay, x, msg, events[k].stamp) && x == ws {
      assert IsWaitingAs(s'.relay.world.manager, ws, msg.username);
    } else {
      KeepsStation(s, s', ws);
    }
  }

  lemma RequestStation(cfg: Config, states: seq<System>, events: seq<Event>, k: nat, ws: SocketId)
    requires IsRun(cfg, states, events) && k < |events| && events[k].Message?
    requires var route := RouteOf(cfg, states[k], events[k].ws, events[k].frame); route.Some? && route.value.Connect?
    requires IsStationed(states[k], ws) && (TrackOf(states[k], ws).peer.Some? ==> TrackOf(states[k + 1], ws).peer.Some?)
    ensures IsStationed(states[k + 1], ws)
  {
    RequestAnswered(cfg, states, events, k);
    var s, s', x := states[k], states[k + 1], events[k].ws;
    var name, m := RouteOf(cfg, s, x, events[k].frame).value.username, states[k].relay.world.manager;
    if name in s.relay.world.table && name in m.waiting {
      assert ClaimOf(cfg, s, x, events[k].frame) == Some(m.waiting[name]);
      assert Enabled(s, events[k]) && s' == Step(cfg, s, events[k]);
      ClaimIsNotedByBoth(cfg, s, events[k], m.waiting[name]);
      hide IsRun, RouteOf, ClaimOf, MarksBoth, Step;
      if x != ws && m.waiting[name] != ws {
        KeepsStation(s, s', ws);
      }
    } else {
      hide IsRun, RouteOf;
      KeepsStation(s, s', ws);
    }
  }

  lemma CloseStation(cfg: Config, states: seq<System>, events: seq<Event>, k: nat, ws: SocketId)
    requires IsRun(cfg, states, events) && k < |events| && events[k].CloseEvent?
    requires IsStationed(states[k], ws) && (TrackOf(states[k], ws).peer.Some? ==> TrackOf(states[k + 1], ws).peer.Some?)
    ensures IsStationed(states[k + 1], ws)
  {
    CloseAnswered(cfg, states, events, k);
    hide IsRun;
    KeepsStation(states[k], states[k + 1], ws);
  }

  lemma UnroutedStation(cfg: Config, states: seq<System>, events: seq<Event>, k: nat, ws: SocketId)
    requires IsRun(cfg, states, events) && k < |events| && events[k].Message?
    requires RouteOf(cfg, states[k], events[k].ws, events[k].frame).None?
    requires IsStationed(states[k], ws) && (TrackOf(states[k], ws).peer.Some? ==> TrackOf(states[k + 1], ws).peer.Some?)
    ensures IsStationed(states[k + 1], ws)
  {
    if StateOf(states[k].relay, events[k].ws).paired {
      PairedForwarded(cfg, states, events, k);
    } else {
      OthersIgnored(cfg, states, events, k);
    }
    hide IsRun;
    KeepsStation(states[k], states[k + 1], ws);
  }

  lemma QuietStation(cfg: Config, s: System, e: Event, ws: SocketId)
    requires Enabled(s, e) && !e.Message? && !e.CloseEvent? && IsStationed(s, ws)
    requires TrackOf(s, ws).peer.Some? ==> TrackOf(Step(cfg, s, e), ws).peer.Some?
    ensures IsStationed(Step(cfg, s, e), ws)
  {
    hide OnPong, OnTick;
    if e.Pong? {
      PongWorld(s.relay, e.ws);
    } else if e.Tick? {
      TickWorld(cfg, s.relay, e.id);
    }
    KeepsStation(s, Step(cfg, s, e), ws);
  }

  lemma TickWorld(cfg: Config, r: Relay, id: TimerId)
    requires id in r.timers && r.timers[id].Interval?
    ensures OnTick(cfg, r, id).world == r.world
  {
  }

  lemma {:induction false} RunStationed(cfg: Config, states: seq<System>, events: seq<Event>, i: nat, ws: SocketId)
    requires IsRun(cfg, states, events) && i < |states|
    ensures IsStationed(states[i], ws)
  {
    if i == 0 {
      var table :| states[0] == InitialSystem(table);
    } else {
      var k, e := i - 1, events[i - 1];
      RunStationed(cfg, states, events, k, ws);
      RunAccounted(cfg, states, events, k);
      AccountedKnows(states[k]);
      assert Enabled(states[k], e) && states[i] == Step(cfg, states[k], e);
      hide IsStationed, Step, Accounted, Enabled, TrackOf;
      if TrackOf(states[k], ws).peer.Some? {
        StepKeepsPeer(cfg, states[k], e, ws);
      }
      if e.CloseEvent? {
        CloseStation(cfg, states, events, k, ws);
      } else if !e.Message? {
        QuietStation(cfg, states[k], e, ws);
      } else {
        MessageStation(cfg, states, events, k, ws);
      }
    }
  }

  lemma MessageStation(cfg: Config, states: seq<System>, events: seq<Event>, k: nat, ws: SocketId)
    requires IsRun(cfg, states, events) && k < |events| && events[k].Message?
    requires IsStationed(states[k], ws) && (TrackOf(states[k], ws).peer.Some? ==> TrackOf(states[k + 1], ws).peer.Some?)
    ensures IsStationed(states[k + 1], ws)
  {
    var route := RouteOf(cfg, states[k], events[k].ws, events[k].frame);
    if route.None? {
      UnroutedStation(cfg, states, events, k, ws);
    } else if route.value.Register? {
      RegisterStation(cfg, states, events, k, ws);
    } else {
      RequestStation(cfg, states, events, k, ws);
    }
    hide IsStationed;
  }

  /**
   * In a disciplined run an open socket that was told that it is registered is
   * waiting, or is in a pair, or its partner's close event has been handled.
   */
  lemma RegisteredIsServed(cfg: Config, states: seq<System>, events: seq<Event>, i: nat, ws: SocketId)
    requires IsDisciplinedRun(cfg, states, events) && i < |states|
    requires PhaseIn(states[i], ws).Open? && WasRegistered(states[i], ws)
    ensures var s := states[i];
      || (exists n :: IsWaitingAs(s.relay.world.manager, ws, n))
      || ws in s.relay.world.manager.pairLookup
      || (TrackOf(s, ws).peer.Some? && PhaseIn(s, TrackOf(s, ws).peer.value).Closed?)
  {
    RunStationed(cfg, states, events, i, ws);
    RunCoherent(cfg, states, events, i);
    var s := states[i];
    if TrackOf(s, ws).peer.Some? && !PhaseIn(s, TrackOf(s, ws).peer.value).Closed? {
      LivePartners(s, ws, TrackOf(s, ws).peer.value);
    }
  }

  // ---- What the records and the entries of partners say ----

  /** A live partner's record has the name of its routing message; a pair's server is listed for its installation. */
  ghost predicate Badged(m: Manager, sh: Shape) {
    forall ws :: ws in sh && sh[ws].live && sh[ws].peer.Some? ==>
      && sh[ws].route.Some? && (sh[ws].route.value.Register? || sh[ws].route.value.Connect?)
      && sh[ws].username == Some(sh[ws].route.value.username)
      && (sh[ws].route.value.Register? && ws in m.pairLookup ==>
            ws in m.activeServers && m.activeServers[ws].installId == sh[ws].route.value.installId)
  }

  lemma GrantBadged(m: Manager, sh: Shape, ws: SocketId, msg: Routing, entry: ActiveServer)
    requires Linked(m, sh) && Badged(m, sh) && ws in sh && sh[ws] == BlankMark && msg.Register?
    ensures Badged(AddWaiting(m, ws, entry), AfterRegistered(sh, ws, msg))
  {
  }

  lemma RefusalBadged(m: Manager, sh: Shape, ws: SocketId, msg: Routing)
    requires Badged(m, sh) && ws in sh && sh[ws] == BlankMark
    ensures Badged(m, AfterRefusal(sh, ws, msg))
  {
  }

  lemma ClaimBadged(m: Manager, sh: Shape, ws: SocketId, msg: Routing)
    requires WaitingLinked(m, sh) && WaitingTagged(m) && Badged(m, sh)
    requires ws in sh && sh[ws] == BlankMark && msg.Connect?
    requires msg.username in m.waiting && m.waiting[msg.username] != ws
    ensures m.waiting[msg.username] in sh
    ensures Badged(Claim(m, ws, msg.username), AfterClaim(sh, ws, msg, m.waiting[msg.username]))
  {
    var server := m.waiting[msg.username];
    assert IsLive(sh, server) && RelayShape.Registered(sh, server, msg.username);
    hide WaitingLinked, WaitingTagged;
  }

  lemma CloseBadged(w: World, sh: Shape, ws: SocketId)
    requires Linked(w.manager, sh) && Badged(w.manager, sh) && IsLive(sh, ws)
    ensures Badged(AfterClose(w, ws, sh[ws].username).0.manager, AfterClosed(sh, ws))
  {
  }

  lemma StepBadged(cfg: Config, s: System, e: Event)
    requires Coherent(s) && Badged(s.relay.world.manager, ShapeOf(s)) && Enabled(s, e) && Disciplined(cfg, s, e)
    ensures var s' := Step(cfg, s, e); Badged(s'.relay.world.manager, ShapeOf(s'))
  {
    hide Linked, Kept, Step, Badged;
    match e
    case Opened(ws) => OpenBadged(cfg, s, ws);
    case Message(ws, frame, stamp) => MessageBadged(cfg, s, ws, frame, stamp);
    case Pong(ws) => PongShape(cfg, s, ws);
    case Errored(ws) => ErroredShape(cfg, s, ws);
    case CloseEvent(ws) =>
      ClosedFacts(cfg, s, ws);
      ClosedShape(cfg, s, ws);
      KeptIsKnown(s, ws);
      CloseBadged(s.relay.world, ShapeOf(s), ws);
    case Tick(id) => TickShape(cfg, s, id);
    case _ => PlainShape(cfg, s, e);
  }

  lemma OpenBadged(cfg: Config, s: System, ws: SocketId)
    requires Kept(s) && Badged(s.relay.world.manager, ShapeOf(s)) && Enabled(s, Opened(ws))
    ensures var s' := Step(cfg, s, Opened(ws)); Badged(s'.relay.world.manager, ShapeOf(s'))
  {
    OpenedShape(cfg, s, ws);
    hide Kept, Step, ShapeOf;
  }

  lemma MessageBadged(cfg: Config, s: System, ws: SocketId, frame: Frame, stamp: string)
    requires Coherent(s) && Badged(s.relay.world.manager, ShapeOf(s)) && Enabled(s, Message(ws, frame, stamp))
    requires RouteOf(cfg, s, ws, frame).Some? ==> TrackOf(s, ws).route.None?
    ensures var s' := Step(cfg, s, Message(ws, frame, stamp)); Badged(s'.relay.world.manager, ShapeOf(s'))
  {
    hide Linked, Kept, Step, Badged;
    var route := RouteOf(cfg, s, ws, frame);
    if route.None? {
      UnroutedFacts(cfg, s, ws, frame, stamp);
      UnroutedShape(cfg, s, ws, frame, stamp);
    } else {
      BeforeRouting(s, ws);
      var m, sh, msg := s.relay.world.manager, ShapeOf(s), route.value;
      if msg.Register? {
        RegisterFacts(cfg, s, ws, frame, stamp);
        RegisterShape(cfg, s, ws, frame, stamp);
        RejectionChangesNothing(s.relay.world, ws, msg.username, msg.installId, msg.metadata, stamp);
        RefusalBadged(m, sh, ws, msg);
        GrantBadged(m, sh, ws, msg,
          ActiveServer(msg.username, msg.installId, stamp, ServerState.Waiting, msg.metadata));
      } else if ClaimOf(cfg, s, ws, frame).Some? {
        ConnectFacts(cfg, s, ws, frame, stamp);
        ConnectShape(cfg, s, ws, frame, stamp);
        LinkedWaiting(m, sh);
        ClaimBadged(m, sh, ws, msg);
      } else {
        RefusedConnectFacts(cfg, s, ws, frame, stamp);
        RefusedConnectShape(cfg, s, ws, frame, stamp);
        RefusalBadged(m, sh, ws, msg);
      }
    }
  }

  lemma BadgedStep(cfg: Config, states: seq<System>, events: seq<Event>, i: nat)
    requires IsDisciplinedRun(cfg, states, events) && i < |events|
    requires Badged(states[i].relay.world.manager, ShapeOf(states[i]))
    ensures Badged(states[i + 1].relay.world.manager, ShapeOf(states[i + 1]))
  {
    hide Badged, Step, Coherent, Enabled, Disciplined, ShapeOf;
    RunStep(cfg, states, events, i);
    RunCoherent(cfg, states, events, i);
    StepBadged(cfg, states[i], events[i]);
  }

  lemma BadgedAtFirst(table: Registry.Table)
    ensures var s := InitialSystem(table); Badged(s.relay.world.manager, ShapeOf(s))
  {
  }

  lemma {:induction false} RunBadged(cfg: Config, states: seq<System>, events: seq<Event>, i: nat)
    requires IsDisciplinedRun(cfg, states, events) && i < |states|
    ensures Badged(states[i].relay.world.manager, ShapeOf(states[i]))
  {
    hide Badged, Step, Coherent, Enabled, Disciplined, ShapeOf, InitialSystem;
    if i == 0 {
      var table :| states[0] == InitialSystem(table);
      BadgedAtFirst(table);
    } else {
      RunBadged(cfg, states, events, i - 1);
      BadgedStep(cfg, states, events, i - 1);
    }
  }

  // ---- What is reported ----

  /** Event `j` is the routing message of the socket. */
  ghost predicate RoutedAt(cfg: Config, states: seq<System>, events: seq<Event>, j: nat, ws: SocketId, msg: Routing) {
    && j < |events| && j < |states| && events[j].Message? && events[j].ws == ws
    && RouteOf(cfg, states[j], ws, events[j].frame) == Some(msg)
  }

  lemma StepNotesRoute(cfg: Config, s: System, e: Event, ws: SocketId)
    requires s.log.Keys == s.relay.world.net.Keys && Enabled(s, e)
    ensures var route' := TrackOf(Step(cfg, s, e), ws).route;
      route' == TrackOf(s, ws).route || route'.None?
      || (e.Message? && e.ws == ws && RouteOf(cfg, s, ws, e.frame) == route')
    ensures e.Message? && e.ws == ws && RouteOf(cfg, s, ws, e.frame).Some? ==>
      TrackOf(Step(cfg, s, e), ws).route == RouteOf(cfg, s, ws, e.frame)
  {
    hide RouteOf, ClaimOf, OnMessage, OnClose, OnTick, OnPong;
  }

  lemma {:induction false} RoutingEvent(
    cfg: Config, states: seq<System>, events: seq<Event>, i: nat, ws: SocketId, msg: Routing) returns (j: nat)
    requires IsRun(cfg, states, events) && i < |states| && TrackOf(states[i], ws).route == Some(msg)
    ensures j < i && RoutedAt(cfg, states, events, j, ws, msg)
  {
    hide Step, Enabled, RouteOf;
    if i == 0 {
      assert false;
    } else {
      RunAccounted(cfg, states, events, i - 1);
      AccountedKnows(states[i - 1]);
      StepNotesRoute(cfg, states[i - 1], events[i - 1], ws);
      if TrackOf(states[i - 1], ws).route == Some(msg) {
        j := RoutingEvent(cfg, states, events, i - 1, ws, msg);
      } else {
        j := i - 1;
      }
    }
  }

  /** In a disciplined run a routing message stays the noted one. */
  lemma RoutedStays(cfg: Config, states: seq<System>, events: seq<Event>, j: nat, i: nat, ws: SocketId, msg: Routing)
    requires IsDisciplinedRun(cfg, states, events) && j < i < |states| && RoutedAt(cfg, states, events, j, ws, msg)
    ensures TrackOf(states[i], ws).route == Some(msg)
  {
    hide Step, Enabled, RouteOf;
    RunStep(cfg, states, events, j);
    StepNotesRoute(cfg, states[j], events[j], ws);
    RouteStays(cfg, states, events, j + 1, i, ws);
  }

  /** The mark of a live partner, in the terms of its notes and its record. */
  lemma BadgeOf(s: System, ws: SocketId)
    requires Coherent(s) && Badged(s.relay.world.manager, ShapeOf(s)) && ws in s.relay.world.manager.pairLookup
    ensures !PhaseIn(s, ws).Closed? && TrackOf(s, ws).route.Some?
    ensures var msg, m := TrackOf(s, ws).route.value, s.relay.world.manager;
      && (msg.Register? || msg.Connect?) && StateOf(s.relay, ws).username == Some(msg.username)
      && (msg.Register? ==> ws in m.activeServers && m.activeServers[ws].installId == msg.installId)
      && forall n :: n in m.waiting ==> m.waiting[n] != ws
  {
    var sh := ShapeOf(s);
    assert IsLive(sh, ws) && sh[ws].peer.Some?;
    PairedIsNotWaiting(s.relay.world.manager, sh, ws);
    assert sh[ws] == MarkOf(s, ws);
  }

  lemma BadgeOfWaiting(s: System, ws: SocketId, name: string)
    requires Coherent(s) && IsWaitingAs(s.relay.world.manager, ws, name)
    ensures TrackOf(s, ws).route.Some? && name != ""
    ensures var msg, m := TrackOf(s, ws).route.value, s.relay.world.manager;
      && msg.Register? && msg.username == name && StateOf(s.relay, ws).username == Some(name)
      && ws in m.activeServers && m.activeServers[ws].installId == msg.installId
  {
    var sh := ShapeOf(s);
    assert IsLive(sh, ws) && RelayShape.Registered(sh, ws, name);
    assert sh[ws] == MarkOf(s, ws);
  }

  /**
   * In a disciplined run, the close of a socket that is in a pair: behind it are
   * the server's registration, event `j`, and the client's request, event `q`.
   * The one who closes is reported, and the server as disconnected if it is the
   * one, under the name and the installation of those events.
   */
  lemma PairCloseReported(cfg: Config, states: seq<System>, events: seq<Event>, k: nat, ws: SocketId)
    returns (j: nat, q: nat, server: SocketId, client: SocketId, name: string, installId: string)
    requires IsDisciplinedRun(cfg, states, events) && k < |events| && events[k] == CloseEvent(ws)
    requires ws in states[k].relay.world.manager.pairLookup
    ensures q < k && PairedAsOwner(cfg, states, events, j, q, server, client) && server != client
    ensures RegisteredAt(cfg, states, events, j, server, name, installId)
    ensures name == AskedName(cfg, states, events, q, server, client) && (ws == server || ws == client)
    ensures states[k + 1].relay.telemetry == states[k].relay.telemetry +
      if ws == server then [PairDisconnect(name, Role.Server), ServerDisconnect(name, installId, ServerState.Paired)]
      else [PairDisconnect(name, Role.Client)]
  {
    hide PairedAsOwner, RegisteredAt, Coherent, Badged, Accounted, IsGranted, Closes, IsDisciplinedRun, IsRun, RouteOf;
    DisciplinedIsRun(cfg, states, events);
    var s := states[k];
    var p := s.relay.world.manager.pairLookup[ws];
    RunAccounted(cfg, states, events, k);
    LookedUpPair(s, ws);
    j, q := PairsOwnTheName(cfg, states, events, k, p);
    server, client := p.server, p.client;
    name, installId := OwnedName(cfg, states, events, j, q, server, client);
    RunCoherent(cfg, states, events, k);
    RunBadged(cfg, states, events, k);
    BadgeOf(s, ws);
    EndsDiffer(s, ws);
    CloseAnswered(cfg, states, events, k);
    RegisteredRoute(cfg, states, events, j, k, server, name, installId);
    AskedRoute(cfg, states, events, q, k, server, client);
    PairTelemetry(s.relay, states[k + 1].relay, ws, name);
  }

  lemma DisciplinedIsRun(cfg: Config, states: seq<System>, events: seq<Event>)
    requires IsDisciplinedRun(cfg, states, events)
    ensures IsRun(cfg, states, events) && |states| == |events| + 1
  {
  }

  lemma OwnedName(
    cfg: Config, states: seq<System>, events: seq<Event>, j: nat, q: nat, server: SocketId, client: SocketId)
    returns (name: string, installId: string)
    requires PairedAsOwner(cfg, states, events, j, q, server, client)
    ensures j < q && name == AskedName(cfg, states, events, q, server, client)
    ensures RegisteredAt(cfg, states, events, j, server, name, installId) && name != ""
    ensures PairedBy(cfg, states, events, q, server, client)
  {
    name := AskedName(cfg, states, events, q, server, client);
    installId := states[q].relay.world.table[name].installId;
  }

  lemma EndsDiffer(s: System, ws: SocketId)
    requires Coherent(s) && ws in s.relay.world.manager.pairLookup
    ensures var p := s.relay.world.manager.pairLookup[ws]; p.server != p.client && (ws == p.server || ws == p.client)
  {
  }

  lemma RegisteredRoute(
    cfg: Config, states: seq<System>, events: seq<Event>, j: nat, k: nat, ws: SocketId, name: string, installId: string)
    requires IsDisciplinedRun(cfg, states, events) && j < k < |states|
    requires RegisteredAt(cfg, states, events, j, ws, name, installId)
    ensures var route := TrackOf(states[k], ws).route;
      route.Some? && route.value.Register? && route.value.username == name && route.value.installId == installId
  {
    RoutedStays(cfg, states, events, j, k, ws, RouteOf(cfg, states[j], ws, events[j].frame).value);
  }

  lemma AskedRoute(
    cfg: Config, states: seq<System>, events: seq<Event>, q: nat, k: nat, server: SocketId, client: SocketId)
    requires IsDisciplinedRun(cfg, states, events) && q < k < |states|
    requires PairedBy(cfg, states, events, q, server, client)
    ensures var route := TrackOf(states[k], client).route;
      route.Some? && route.value.Connect? && route.value.username == AskedName(cfg, states, events, q, server, client)
  {
    RoutedStays(cfg, states, events, q, k, client, RouteOf(cfg, states[q], client, events[q].frame).value);
  }

  /** The report of a pair, for a record with a name. */
  lemma PairTelemetry(r: Relay, r': Relay, ws: SocketId, name: string)
    requires Closes(r, r', ws, Some(name)) && name != "" && ws in r.world.manager.pairLookup
    requires forall n :: n in r.world.manager.waiting ==> r.world.manager.waiting[n] != ws
    ensures r'.telemetry == r.telemetry + PairReport(r.world.manager, ws, name, r.world.manager.pairLookup[ws])
  {
  }

  /**
   * In a disciplined run, the close of a waiting socket is reported under the
   * name and the installation of its registration, event `j`.
   */
  lemma WaitingCloseReported(
    cfg: Config, states: seq<System>, events: seq<Event>, k: nat, ws: SocketId, name: string)
    returns (j: nat, msg: Routing)
    requires IsDisciplinedRun(cfg, states, events) && k < |events| && events[k] == CloseEvent(ws)
    requires IsWaitingAs(states[k].relay.world.manager, ws, name)
    ensures j < k && RoutedAt(cfg, states, events, j, ws, msg) && msg.Register? && msg.username == name
    ensures states[k + 1].relay.telemetry ==
      states[k].relay.telemetry + [ServerDisconnect(name, msg.installId, ServerState.Waiting)]
  {
    var s := states[k];
    RunCoherent(cfg, states, events, k);
    BadgeOfWaiting(s, ws, name);
    msg := TrackOf(s, ws).route.value;
    j := RoutingEvent(cfg, states, events, k, ws, msg);
    CloseAnswered(cfg, states, events, k);
    hide Coherent, RoutedAt;
  }

  /** In any run, the close of a socket that neither waits nor is looked up is not reported. */
  lemma StrayCloseUnreported(cfg: Config, states: seq<System>, events: seq<Event>, k: nat, ws: SocketId)
    requires IsRun(cfg, states, events) && k < |events| && events[k] == CloseEvent(ws)
    requires ws !in states[k].relay.world.manager.pairLookup
    requires forall n :: !IsWaitingAs(states[k].relay.world.manager, ws, n)
    ensures states[k + 1].relay.telemetry == states[k].relay.telemetry
  {
    CloseAnswered(cfg, states, events, k);
    var name := StateOf(states[k].relay, ws).username;
    assert name.Some? ==> !IsWaitingAs(states[k].relay.world.manager, ws, name.value);
  }
}
