/** Who owns a name, and who may be reached under it. */
module RelayOwnership {
  import opened Wrappers
  import opened Sockets
  import opened Connections
  import opened WsHandler
  import opened RelaySystem
  import opened RelayShape
  import opened RelayLinks
  import opened RelayPipe
  import opened RelayTheorems
  import opened RelayTelemetry
  import opened ConnectionIndex
  import Registry

  /** No name changes hands or is lost. */
  ghost predicate OwnersKept(t: Registry.Table, t': Registry.Table) {
    forall n :: n in t ==> n in t' && t'[n].installId == t[n].installId && t'[n].registeredAt == t[n].registeredAt
  }

  lemma RegisterTable(cfg: Config, r: Relay, ws: SocketId, msg: Routing, stamp: string)
    requires ws in r.stateOf && msg.Register?
    ensures OnRegister(cfg, r, ws, msg, stamp).world.table ==
      AfterRegister(r.world, ws, msg.username, msg.installId, msg.metadata, stamp).0.table
  {
  }

  lemma ConnectTable(r: Relay, ws: SocketId, msg: Routing, stamp: string)
    requires ws in r.stateOf && msg.Connect?
    ensures OnConnect(r, ws, msg, stamp).world.table == AfterConnect(r.world, ws, msg.username, stamp).0.table
  {
  }

  /** The table after a message, told by the routing message it carries. */
  function TableAfter(cfg: Config, s: System, ws: SocketId, frame: Frame, stamp: string): Registry.Table {
    var t := s.relay.world.table;
    var route := RouteOf(cfg, s, ws, frame);
    if route.None? then t
    else if route.value.Register? then
      if Registry.MayRegister(t, route.value.username, route.value.installId)
      then Registry.RegisterRow(t, route.value.username, route.value.installId, stamp).0 else t
    else if ClaimOf(cfg, s, ws, frame).Some? then Registry.Touch(t, route.value.username, stamp)
    else t
  }

  lemma MessageTable(cfg: Config, s: System, ws: SocketId, frame: Frame, stamp: string)
    ensures OnMessage(cfg, s.relay, ws, frame, stamp).world.table == TableAfter(cfg, s, ws, frame, stamp)
  {
    var r0 := Attach(s.relay, ws);
    assert StateOf(r0, ws).paired == StateOf(s.relay, ws).paired;
    if !StateOf(r0, ws).paired && !frame.isBinary {
      match cfg.parse(frame.data)
      case Register(_, _, _) => RegisterTable(cfg, r0, ws, cfg.parse(frame.data), stamp);
      case Connect(_) => ConnectTable(r0, ws, cfg.parse(frame.data), stamp);
      case _ =>
    }
  }

  lemma TableAfterKeepsOwners(cfg: Config, s: System, ws: SocketId, frame: Frame, stamp: string)
    ensures OwnersKept(s.relay.world.table, TableAfter(cfg, s, ws, frame, stamp))
  {
  }

  lemma StepKeepsOwners(cfg: Config, s: System, e: Event)
    requires Enabled(s, e) && !e.Reclaim? && !e.DeleteName?
    ensures OwnersKept(s.relay.world.table, Step(cfg, s, e).relay.world.table)
  {
    match e
    case Message(ws, frame, stamp) =>
      MessageTable(cfg, s, ws, frame, stamp);
      TableAfterKeepsOwners(cfg, s, ws, frame, stamp);
    case _ =>
  }

  /** The step deletes the name, or reclaims it as last seen before the cutoff. */
  predicate TakesName(s: System, e: Event, name: string) {
    var t := s.relay.world.table;
    || e == DeleteName(name)
    || (e.Reclaim? && name in t && Registry.TextLess(t[name].lastSeenAt, e.cutoff))
  }

  lemma OwnerStaysOnce(cfg: Config, s: System, e: Event, name: string)
    requires Enabled(s, e) && name in s.relay.world.table
    ensures var t, t' := s.relay.world.table, Step(cfg, s, e).relay.world.table;
      && (name in t' <==> !TakesName(s, e, name))
      && (name in t' ==> t'[name].installId == t[name].installId && t'[name].registeredAt == t[name].registeredAt)
  {
    if !e.Reclaim? && !e.DeleteName? {
      StepKeepsOwners(cfg, s, e);
    }
  }

  /**
   * In any run a name in the table keeps its owner from one state to any later
   * one, for as long as no step deletes it or reclaims it as outdated; such a
   * step frees it.
   */
  lemma {:induction false} OwnerStays(
    cfg: Config, states: seq<System>, events: seq<Event>, i: nat, j: nat, name: string)
    requires IsRun(cfg, states, events) && i <= j < |states| && name in states[i].relay.world.table
    ensures (forall k :: i <= k < j ==> !TakesName(states[k], events[k], name)) <==>
      (forall k :: i <= k <= j ==>
         && name in states[k].relay.world.table
         && states[k].relay.world.table[name].installId == states[i].relay.world.table[name].installId)
    decreases j
  {
    hide Step, TakesName, Enabled;
    if i < j {
      OwnerStays(cfg, states, events, i, j - 1, name);
      if name in states[j - 1].relay.world.table {
        OwnerStaysOnce(cfg, states[j - 1], events[j - 1], name);
      }
      if forall k :: i <= k < j ==> !TakesName(states[k], events[k], name) {
        assert name in states[j - 1].relay.world.table;
        assert states[j] == Step(cfg, states[j - 1], events[j - 1]);
      } else if forall k :: i <= k < j - 1 ==> !TakesName(states[k], events[k], name) {
        assert TakesName(states[j - 1], events[j - 1], name);
        assert name !in states[j].relay.world.table;
      } else {
        var k :| i <= k <= j - 1 && (name !in states[k].relay.world.table
          || states[k].relay.world.table[name].installId != states[i].relay.world.table[name].installId);
      }
    }
  }

  // ---- Who registered what is waiting, and who may be reached ----

  /** Event `j` is a granted registration of the name by this socket for this installation. */
  ghost predicate RegisteredAt(
    cfg: Config, states: seq<System>, events: seq<Event>, j: nat, ws: SocketId, name: string, installId: string) {
    && j < |events| && j < |states| && events[j].Message? && events[j].ws == ws
    && IsGranted(cfg, states[j], events[j], name, installId)
  }

  predicate IsGranted(cfg: Config, s: System, e: Event, name: string, installId: string)
    requires e.Message?
  {
    var route := RouteOf(cfg, s, e.ws, e.frame);
    && route.Some? && route.value.Register? && route.value.username == name && route.value.installId == installId
    && Registry.MayRegister(s.relay.world.table, name, installId)
  }

  /** The entry waits, and its name's owner is this installation. */
  predicate WaitsFor(s: System, ws: SocketId, name: string, installId: string) {
    && IsWaitingAs(s.relay.world.manager, ws, name)
    && name in s.relay.world.table && s.relay.world.table[name].installId == installId
  }

  lemma CloseTable(r: Relay, ws: SocketId)
    ensures OnClose(r, ws).world.table == r.world.table
  {
  }

  lemma QuietWaiting(cfg: Config, s: System, e: Event)
    requires Enabled(s, e) && !e.Message?
    ensures var w, w' := s.relay.world.manager.waiting, Step(cfg, s, e).relay.world.manager.waiting;
      forall n :: n in w' ==> n in w && w'[n] == w[n]
    ensures var t, t' := s.relay.world.table, Step(cfg, s, e).relay.world.table;
      forall n :: n in t' ==> n in t && t'[n].installId == t[n].installId
  {
    hide OnClose;
    match e
    case CloseEvent(ws) =>
      CloseFading(s.relay, ws);
      CloseTable(SeenClosed(s.relay, ws), ws);
    case _ =>
  }

  /** A waiting entry of a name that is owned was there before the step, or the step is its registration. */
  lemma MessageWaits(
    cfg: Config, s: System, ws: SocketId, frame: Frame, stamp: string, x: SocketId, name: string, installId: string)
    requires Records(s.relay) && Enabled(s, Message(ws, frame, stamp))
    requires WaitsFor(Step(cfg, s, Message(ws, frame, stamp)), x, name, installId)
    ensures
      WaitsFor(s, x, name, installId) || (x == ws && IsGranted(cfg, s, Message(ws, frame, stamp), name, installId))
  {
    hide OnMessage, Records;
    MessageTable(cfg, s, ws, frame, stamp);
    MessageManager(cfg, s, ws, frame, stamp);
  }

  /** The manager after a message, told by the routing message it carries. */
  function ManagerAfter(cfg: Config, s: System, ws: SocketId, frame: Frame, stamp: string): Manager {
    var route := RouteOf(cfg, s, ws, frame);
    var m := s.relay.world.manager;
    if route.None? then m
    else if route.value.Register? then
      AfterRegister(
        s.relay.world, ws, route.value.username, route.value.installId, route.value.metadata, stamp).0.manager
    else if ClaimOf(cfg, s, ws, frame).Some? then Claim(m, ws, route.value.username)
    else m
  }

  lemma MessageManager(cfg: Config, s: System, ws: SocketId, frame: Frame, stamp: string)
    requires Records(s.relay)
    ensures OnMessage(cfg, s.relay, ws, frame, stamp).world.manager == ManagerAfter(cfg, s, ws, frame, stamp)
  {
    var route := RouteOf(cfg, s, ws, frame);
    if route.None? {
      UnroutedEffect(cfg, s.relay, ws, frame, stamp);
    } else {
      RoutedMessage(cfg, s, ws, frame, stamp);
      if route.value.Register? {
        RegisterEffect(cfg, s.relay, ws, route.value, stamp);
      } else if ClaimOf(cfg, s, ws, frame).Some? {
        ConnectEffect(s.relay, ws, route.value, stamp);
      } else {
        RefusedConnectEffect(s.relay, ws, route.value, stamp);
      }
    }
    hide OnMessage, OnRegister, OnConnect, AfterRegister, Claim, Records;
  }

  lemma StepWaits(cfg: Config, s: System, e: Event, x: SocketId, name: string, installId: string)
    requires Records(s.relay) && Enabled(s, e) && WaitsFor(Step(cfg, s, e), x, name, installId)
    ensures WaitsFor(s, x, name, installId) || (e.Message? && e.ws == x && IsGranted(cfg, s, e, name, installId))
  {
    if e.Message? {
      MessageWaits(cfg, s, e.ws, e.frame, e.stamp, x, name, installId);
    } else {
      QuietWaiting(cfg, s, e);
    }
    hide Step, IsGranted, Records;
  }

  lemma RunRecords(cfg: Config, states: seq<System>, events: seq<Event>, i: nat)
    requires IsRun(cfg, states, events) && i < |states|
    ensures Records(states[i].relay)
  {
    RunAccounted(cfg, states, events, i);
    AccountedKnows(states[i]);
  }

  /**
   * In any run, the registration behind a waiting entry whose name is owned:
   * the socket registered the name for the owner's installation, and has waited
   * under it, with that owner, in every state since.
   */
  lemma {:induction false} RegistrationOf(
    cfg: Config, states: seq<System>, events: seq<Event>, i: nat, ws: SocketId, name: string, installId: string)
    returns (j: nat)
    requires IsRun(cfg, states, events) && i < |states| && WaitsFor(states[i], ws, name, installId)
    ensures j < i && RegisteredAt(cfg, states, events, j, ws, name, installId)
    ensures forall k :: j < k <= i ==> WaitsFor(states[k], ws, name, installId)
  {
    hide Step, Enabled, IsGranted;
    if i == 0 {
      assert false;
    } else {
      RunRecords(cfg, states, events, i - 1);
      StepWaits(cfg, states[i - 1], events[i - 1], ws, name, installId);
      if WaitsFor(states[i - 1], ws, name, installId) {
        j := RegistrationOf(cfg, states, events, i - 1, ws, name, installId);
      } else {
        j := i - 1;
      }
    }
  }

  /** In any run, whoever waits under a name in the table registered it for the installation that owns it now. */
  lemma RunOwned(cfg: Config, states: seq<System>, events: seq<Event>, i: nat, name: string)
    requires IsRun(cfg, states, events) && i < |states|
    requires name in states[i].relay.world.manager.waiting && name in states[i].relay.world.table
    ensures exists j: nat :: j < i && RegisteredAt(
      cfg, states, events, j, states[i].relay.world.manager.waiting[name], name,
      states[i].relay.world.table[name].installId)
  {
    var j := RegistrationOf(
      cfg, states, events, i, states[i].relay.world.manager.waiting[name], name,
      states[i].relay.world.table[name].installId);
  }

  /** The name asked for in event `k`. */
  function AskedName(cfg: Config, states: seq<System>, events: seq<Event>, k: nat, server: SocketId, client: SocketId)
    : string
    requires PairedBy(cfg, states, events, k, server, client)
  {
    RouteOf(cfg, states[k], client, events[k].frame).value.username
  }

  /**
   * Event `k` pairs the two, event `j` is the server's registration of the name
   * asked for, for the installation that owns the name at the pairing, and the
   * server has waited under it in between.
   */
  ghost predicate PairedAsOwner(
    cfg: Config, states: seq<System>, events: seq<Event>, j: nat, k: nat, server: SocketId, client: SocketId) {
    && j < k && PairedBy(cfg, states, events, k, server, client)
    && var name, t := AskedName(cfg, states, events, k, server, client), states[k].relay.world.table;
    && name in t && RegisteredAt(cfg, states, events, j, server, name, t[name].installId)
    && forall l :: j < l <= k ==> WaitsFor(states[l], server, name, t[name].installId)
  }

  /** In any run a request is answered with a server that registered the name as its owner. */
  lemma ClaimsOwner(
    cfg: Config, states: seq<System>, events: seq<Event>, k: nat, server: SocketId, client: SocketId)
    returns (j: nat)
    requires IsRun(cfg, states, events) && PairedBy(cfg, states, events, k, server, client)
    ensures PairedAsOwner(cfg, states, events, j, k, server, client)
  {
    var name := AskedName(cfg, states, events, k, server, client);
    j := RegistrationOf(cfg, states, events, k, server, name, states[k].relay.world.table[name].installId);
  }

  lemma StepPairs(cfg: Config, s: System, e: Event, p: Pair)
    requires Accounted(s) && Enabled(s, e) && p in Step(cfg, s, e).relay.world.manager.pairs
    ensures p in s.relay.world.manager.pairs
      || (e.Message? && e.ws == p.client && ClaimOf(cfg, s, e.ws, e.frame) == Some(p.server))
  {
    hide OnMessage, OnClose, Accounted, NamesKnown, Records;
    AccountedKnows(s);
    match e
    case Message(ws, frame, stamp) => MessageManager(cfg, s, ws, frame, stamp);
    case CloseEvent(ws) => CloseKeepsNames(cfg, s, ws);
    case _ =>
  }

  /**
   * In any run every pair that stands was made by a request of its client for a
   * name that its server had registered as the name's owner.
   */
  lemma {:induction false} PairsOwnTheName(cfg: Config, states: seq<System>, events: seq<Event>, i: nat, p: Pair)
    returns (j: nat, k: nat)
    requires IsRun(cfg, states, events) && i < |states| && p in states[i].relay.world.manager.pairs
    ensures k < i && PairedAsOwner(cfg, states, events, j, k, p.server, p.client)
  {
    hide Step, Enabled, ClaimOf, PairedAsOwner;
    if i == 0 {
      assert false;
    } else {
      RunAccounted(cfg, states, events, i - 1);
      StepPairs(cfg, states[i - 1], events[i - 1], p);
      if p in states[i - 1].relay.world.manager.pairs {
        j, k := PairsOwnTheName(cfg, states, events, i - 1, p);
      } else {
        k := i - 1;
        j := ClaimsOwner(cfg, states, events, k, p.server, p.client);
      }
    }
  }

  lemma StepPeer(cfg: Config, s: System, e: Event, ws: SocketId)
    requires s.log.Keys == s.relay.world.net.Keys && Enabled(s, e)
    requires TrackOf(Step(cfg, s, e), ws).peer.Some?
    ensures var peer := TrackOf(Step(cfg, s, e), ws).peer;
      || peer == TrackOf(s, ws).peer
      || (e.Message? && var claim := ClaimOf(cfg, s, e.ws, e.frame);
                        claim.Some? && ((e.ws == ws && peer == claim) || (claim == Some(ws) && peer == Some(e.ws))))
  {
    hide RouteOf, ClaimOf, OnMessage, OnClose, OnTick, OnPong;
  }

  /**
   * In any run, two sockets whose notes name each other's pairing were brought
   * together by one request for a name that the server had registered as its owner.
   */
  lemma {:induction false} PartnersOwnTheName(
    cfg: Config, states: seq<System>, events: seq<Event>, i: nat, ws: SocketId)
    returns (j: nat, k: nat, server: SocketId, client: SocketId)
    requires IsRun(cfg, states, events) && i < |states| && TrackOf(states[i], ws).peer.Some?
    ensures var peer := TrackOf(states[i], ws).peer.value;
      (server, client) == (ws, peer) || (server, client) == (peer, ws)
    ensures k < i && PairedAsOwner(cfg, states, events, j, k, server, client)
  {
    hide Step, Enabled, ClaimOf, PairedAsOwner;
    if i == 0 {
      assert false;
    } else {
      RunAccounted(cfg, states, events, i - 1);
      AccountedKnows(states[i - 1]);
      StepPeer(cfg, states[i - 1], events[i - 1], ws);
      var peer := TrackOf(states[i], ws).peer.value;
      if TrackOf(states[i - 1], ws).peer == Some(peer) {
        j, k, server, client := PartnersOwnTheName(cfg, states, events, i - 1, ws);
      } else {
        k := i - 1;
        client := events[k].ws;
        server := ClaimOf(cfg, states[k], client, events[k].frame).value;
        j := ClaimsOwner(cfg, states, events, k, server, client);
      }
    }
  }
}
