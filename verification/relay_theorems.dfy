/** The relay's guarantees, stated over whole runs. */
module RelayTheorems {
  import opened Wrappers
  import opened Sockets
  import opened Connections
  import opened WsHandler
  import opened RelaySystem
  import opened ConnectionIndex
  import opened RelayShape
  import opened RelayLinks
  import opened RelayPipe
  import opened RelayKeepalive
  import Registry
  import Usernames

  /** One step of a run, without the invariant. */
  lemma RunStep(cfg: Config, states: seq<System>, events: seq<Event>, i: nat)
    requires IsDisciplinedRun(cfg, states, events) && i < |events|
    ensures Enabled(states[i], events[i]) && Disciplined(cfg, states[i], events[i])
    ensures states[i + 1] == Step(cfg, states[i], events[i])
    ensures states[i].log.Keys == states[i].relay.world.net.Keys
  {
    RunCoherent(cfg, states, events, i);
  }

  // ---- Index agreement and draining ----

  /** A live socket's `paired` flag: it is in the lookup, or its partner closed first. */
  ghost predicate FlagExplained(s: System, ws: SocketId) {
    StateOf(s.relay, ws).paired <==>
    || ws in s.relay.world.manager.pairLookup
    || (TrackOf(s, ws).peer.Some? && PhaseIn(s, TrackOf(s, ws).peer.value).Closed?)
  }

  lemma FlagsExplained(s: System, ws: SocketId)
    requires Coherent(s) && !PhaseIn(s, ws).Closed?
    ensures FlagExplained(s, ws)
  {
    var sh := ShapeOf(s);
    assert sh[ws].live && sh[ws].paired == StateOf(s.relay, ws).paired;
    if ws in s.relay.world.manager.pairLookup {
      assert sh[ws].peer.Some?;
    } else if sh[ws].peer.Some? {
      assert !IsLive(sh, sh[ws].peer.value);
    }
  }

  /** Every state of a disciplined run: the collections and the flags agree. */
  lemma IndexAgreement(cfg: Config, states: seq<System>, events: seq<Event>, i: nat)
    requires IsDisciplinedRun(cfg, states, events) && i < |states|
    ensures Indexed(states[i].relay.world.manager)
    ensures forall ws :: !PhaseIn(states[i], ws).Closed? ==> FlagExplained(states[i], ws)
  {
    RunCoherent(cfg, states, events, i);
    forall ws | !PhaseIn(states[i], ws).Closed? ensures FlagExplained(states[i], ws) {
      FlagsExplained(states[i], ws);
    }
  }

  lemma HeldIsLive(s: System, ws: SocketId)
    requires Coherent(s) && Held(s.relay.world.manager, ws)
    ensures !PhaseIn(s, ws).Closed?
  {
    var m, sh := s.relay.world.manager, ShapeOf(s);
    if n :| IsWaitingAs(m, ws, n) {
      assert IsLive(sh, ws);
    } else {
      assert ws in m.pairLookup;
      assert IsLive(sh, ws);
    }
  }

  /** Whoever is named in a collection has its close event still to come. */
  ghost predicate HeldAreLive(s: System) {
    forall ws :: Held(s.relay.world.manager, ws) ==> !PhaseIn(s, ws).Closed?
  }

  /** So when all sockets have closed, all four collections are empty. */
  lemma NobodyHeld(s: System)
    requires HeldAreLive(s) && forall ws :: PhaseIn(s, ws).Closed?
    ensures var m := s.relay.world.manager;
      m.waiting == map[] && m.pairs == {} && m.pairLookup == map[] && m.activeServers == map[]
  {
    var m := s.relay.world.manager;
    assert forall n :: n in m.waiting ==> IsWaitingAs(m, m.waiting[n], n);
    assert forall n :: n in m.waiting ==> Held(m, m.waiting[n]);
    assert forall ws :: ws in m.pairLookup || ws in m.activeServers ==> Held(m, ws);
    assert forall p :: p in m.pairs ==> Held(m, p.server);
  }

  lemma Draining(cfg: Config, states: seq<System>, events: seq<Event>, i: nat)
    requires IsDisciplinedRun(cfg, states, events) && i < |states|
    ensures HeldAreLive(states[i])
    ensures (forall ws :: PhaseIn(states[i], ws).Closed?) ==>
      var m := states[i].relay.world.manager;
      m.waiting == map[] && m.pairs == {} && m.pairLookup == map[] && m.activeServers == map[]
  {
    RunCoherent(cfg, states, events, i);
    forall ws | Held(states[i].relay.world.manager, ws) ensures !PhaseIn(states[i], ws).Closed? {
      HeldIsLive(states[i], ws);
    }
    if forall ws :: PhaseIn(states[i], ws).Closed? {
      NobodyHeld(states[i]);
    }
  }

  // ---- Stale closes ----

  /** The manager without the socket's waiting entry and pair. */
  ghost predicate LacksOnly(m: Manager, m': Manager, ws: SocketId) {
    && (forall n :: n in m'.waiting <==> n in m.waiting && m.waiting[n] != ws)
    && (forall n :: n in m'.waiting ==> m'.waiting[n] == m.waiting[n])
    && (forall p :: p in m'.pairs <==> p in m.pairs && p.server != ws && p.client != ws)
  }

  lemma DropWaitingTakesOwn(m: Manager, ws: SocketId, name: string)
    requires Indexed(m) && IsWaitingAs(m, ws, name)
    ensures LacksOnly(m, DropWaiting(m, ws, name), ws)
  {
    assert forall p :: p in m.pairs ==> p.server in m.pairLookup && p.client in m.pairLookup;
  }

  lemma DropPairTakesOwn(m: Manager, ws: SocketId)
    requires Matching(m) && WaitingTagged(m) && ws in m.pairLookup
    ensures LacksOnly(m, DropPair(m, m.pairLookup[ws]), ws)
  {
    assert forall p :: p in m.pairs && (p.server == ws || p.client == ws) ==> p == m.pairLookup[ws];
  }

  lemma CloseTakesOwn(w: World, sh: Shape, ws: SocketId)
    requires Linked(w.manager, sh) && IsLive(sh, ws)
    ensures LacksOnly(w.manager, AfterClose(w, ws, sh[ws].username).0.manager, ws)
  {
    var m, name := w.manager, sh[ws].username;
    if name.Some? && IsWaitingAs(m, ws, name.value) {
      DropWaitingTakesOwn(m, ws, name.value);
    } else if ws in m.pairLookup {
      DropPairTakesOwn(m, ws);
    } else {
      StrayIsUnknown(m, sh, ws);
      assert forall p :: p in m.pairs ==> p.server in m.pairLookup && p.client in m.pairLookup;
    }
  }

  /** In a disciplined run the close takes out the socket's own waiting entry and pair, and exactly those. */
  lemma CloseRemovesOwnEntries(cfg: Config, states: seq<System>, events: seq<Event>, i: nat, ws: SocketId)
    requires IsDisciplinedRun(cfg, states, events) && i < |events| && events[i] == CloseEvent(ws)
    ensures LacksOnly(states[i].relay.world.manager, states[i + 1].relay.world.manager, ws)
  {
    RunCoherent(cfg, states, events, i);
    var s := states[i];
    var m, sh := s.relay.world.manager, ShapeOf(s);
    ClosedFacts(cfg, s, ws);
    CloseTakesOwn(s.relay.world, sh, ws);
    assert sh[ws].username == FaceOf(s.relay, ws).username;
  }

  // ---- The pipe ----

  /** The frames a socket sent during these events. */
  function FramesOf(events: seq<Event>, ws: SocketId): seq<Frame> {
    if events == [] then []
    else
      var e := events[|events| - 1];
      FramesOf(events[..|events| - 1], ws) + if e.Message? && e.ws == ws then [e.frame] else []
  }

  lemma {:induction false} FramesOfConcat(a: seq<Event>, b: seq<Event>, ws: SocketId)
    ensures FramesOf(a + b, ws) == FramesOf(a, ws) + FramesOf(b, ws)
  {
    if b == [] {
      assert a + b == a;
    } else {
      FramesOfConcat(a, b[..|b| - 1], ws);
      assert (a + b)[..|a + b| - 1] == a + b[..|b| - 1];
    }
  }

  lemma StepReceived(cfg: Config, s: System, e: Event, ws: SocketId)
    requires s.log.Keys == s.relay.world.net.Keys && Enabled(s, e)
    ensures TrackOf(Step(cfg, s, e), ws).received ==
      TrackOf(s, ws).received + if e.Message? && e.ws == ws then [e.frame] else []
  {
    hide OnMessage, OnClose, OnTick, OnPong, OnTimeout, RouteOf, ClaimOf, Attach;
  }

  lemma {:induction false} ReceivedAlong(received: seq<seq<Frame>>, events: seq<Event>, i: nat, ws: SocketId)
    requires i < |received| && i <= |events| && received[0] == []
    requires forall k :: 0 <= k < i ==>
      received[k + 1] == received[k] + if events[k].Message? && events[k].ws == ws then [events[k].frame] else []
    ensures received[i] == FramesOf(events[..i], ws)
  {
    if i > 0 {
      ReceivedAlong(received, events, i - 1, ws);
      assert received[i - 1 + 1] == received[i];
      assert events[..i][..i - 1] == events[..i - 1];
    }
  }

  lemma ReceivedIsFrames(cfg: Config, states: seq<System>, events: seq<Event>, i: nat, ws: SocketId)
    requires IsDisciplinedRun(cfg, states, events) && i < |states|
    ensures TrackOf(states[i], ws).received == FramesOf(events[..i], ws)
  {
    var received := seq(|states|, k requires 0 <= k < |states| => TrackOf(states[k], ws).received);
    forall k | 0 <= k < i
      ensures received[k + 1] ==
        received[k] + if events[k].Message? && events[k].ws == ws then [events[k].frame] else []
    {
      RunStep(cfg, states, events, k);
      StepReceived(cfg, states[k], events[k], ws);
    }
    NobodyPairedAtFirst(cfg, states, events, ws);
    ReceivedAlong(received, events, i, ws);
  }

  /** Event `k` is the `client_connect` that pairs the two sockets. */
  ghost predicate PairedBy(
    cfg: Config, states: seq<System>, events: seq<Event>, k: nat, server: SocketId, client: SocketId) {
    && k < |events| && k < |states| && events[k].Message? && events[k].ws == client
    && ClaimOf(cfg, states[k], client, events[k].frame) == Some(server)
  }

  /** Both marks count the frames up to the pairing event. */
  ghost predicate MarkedAt(s: System, events: seq<Event>, k: nat, ws: SocketId) {
    k < |events| && TrackOf(s, ws).mark == |FramesOf(events[..k + 1], ws)|
  }

  /** What a message does to the notes of two partners. */
  lemma MessageMarks(cfg: Config, s: System, sender: SocketId, frame: Frame, ws: SocketId, peer: SocketId)
    requires ws != peer
    requires var log' := LogMessage(cfg, s, sender, frame);
      ws in log' && log'[ws].peer == Some(peer) && peer in log' && log'[peer].peer == Some(ws)
    ensures var log' := LogMessage(cfg, s, sender, frame);
      || (&& TrackOf(s, ws).peer == Some(peer) && TrackOf(s, peer).peer == Some(ws)
          && log'[ws].mark == TrackOf(s, ws).mark && log'[peer].mark == TrackOf(s, peer).mark)
      || (&& log'[ws].mark == |log'[ws].received| && log'[peer].mark == |log'[peer].received|
          && ((sender == ws && ClaimOf(cfg, s, ws, frame) == Some(peer))
              || (sender == peer && ClaimOf(cfg, s, peer, frame) == Some(ws))))
  {
  }

  /** Without a message nobody is paired. */
  lemma QuietMarks(cfg: Config, s: System, e: Event, ws: SocketId)
    requires s.log.Keys == s.relay.world.net.Keys && Enabled(s, e) && !e.Message?
    ensures TrackOf(Step(cfg, s, e), ws).peer == TrackOf(s, ws).peer
    ensures TrackOf(Step(cfg, s, e), ws).mark == TrackOf(s, ws).mark
    ensures TrackOf(Step(cfg, s, e), ws).received == TrackOf(s, ws).received
  {
  }

  datatype Partnership = Partnership(together: bool, here: bool, mark: nat, peerMark: nat)

  /** If every step either pairs the two or leaves everything about them alone, some step paired them. */
  lemma {:induction false} PairingFound(ps: seq<Partnership>, i: nat) returns (k: nat)
    requires i < |ps| && !ps[0].together && ps[i].together
    requires forall n :: 0 <= n < i && ps[n + 1].together && !ps[n].here ==>
      ps[n].together && ps[n + 1].mark == ps[n].mark && ps[n + 1].peerMark == ps[n].peerMark
    ensures k < i && ps[k].here && ps[i].mark == ps[k + 1].mark && ps[i].peerMark == ps[k + 1].peerMark
  {
    if ps[i - 1].here {
      k := i - 1;
    } else {
      assert ps[i - 1 + 1].together;
      k := PairingFound(ps, i - 1);
    }
  }

  ghost function PartnershipAt(
    cfg: Config, states: seq<System>, events: seq<Event>, ws: SocketId, peer: SocketId, n: nat): Partnership
    requires n < |states|
  {
    Partnership(
      TrackOf(states[n], ws).peer == Some(peer) && TrackOf(states[n], peer).peer == Some(ws),
      n < |events| && n + 1 < |states| && PairedHere(cfg, states, events, n, ws, peer),
      TrackOf(states[n], ws).mark, TrackOf(states[n], peer).mark)
  }

  /** Two partners were paired by one event, and both marks date from it. */
  lemma PairingEvent(
    cfg: Config, states: seq<System>, events: seq<Event>, i: nat, ws: SocketId, peer: SocketId) returns (k: nat)
    requires IsDisciplinedRun(cfg, states, events) && i < |states| && ws != peer
    requires TrackOf(states[i], ws).peer == Some(peer) && TrackOf(states[i], peer).peer == Some(ws)
    ensures k < i && (PairedBy(cfg, states, events, k, peer, ws) || PairedBy(cfg, states, events, k, ws, peer))
    ensures MarkedAt(states[i], events, k, ws) && MarkedAt(states[i], events, k, peer)
  {
    ghost var ps := seq(|states|, n requires 0 <= n < |states| => PartnershipAt(cfg, states, events, ws, peer, n));
    forall n | 0 <= n < i && ps[n + 1].together && !ps[n].here
      ensures ps[n].together && ps[n + 1].mark == ps[n].mark && ps[n + 1].peerMark == ps[n].peerMark {
      PairingStep(cfg, states, events, n, ws, peer);
    }
    NobodyPairedAtFirst(cfg, states, events, ws);
    k := PairingFound(ps, i);
    ReceivedIsFrames(cfg, states, events, k + 1, ws);
    ReceivedIsFrames(cfg, states, events, k + 1, peer);
  }

  lemma NobodyPairedAtFirst(cfg: Config, states: seq<System>, events: seq<Event>, ws: SocketId)
    requires IsRun(cfg, states, events)
    ensures TrackOf(states[0], ws) == FreshTrack
  {
    var table :| states[0] == InitialSystem(table);
  }

  predicate PairedHere(cfg: Config, states: seq<System>, events: seq<Event>, i: nat, ws: SocketId, peer: SocketId)
    requires i < |events| && i + 1 < |states|
  {
    && events[i].Message?
    && TrackOf(states[i + 1], ws).mark == |TrackOf(states[i + 1], ws).received|
    && TrackOf(states[i + 1], peer).mark == |TrackOf(states[i + 1], peer).received|
    && ((events[i].ws == ws && ClaimOf(cfg, states[i], ws, events[i].frame) == Some(peer))
        || (events[i].ws == peer && ClaimOf(cfg, states[i], peer, events[i].frame) == Some(ws)))
  }

  lemma PairingStep(cfg: Config, states: seq<System>, events: seq<Event>, i: nat, ws: SocketId, peer: SocketId)
    requires IsDisciplinedRun(cfg, states, events) && i < |events| && ws != peer
    requires TrackOf(states[i + 1], ws).peer == Some(peer) && TrackOf(states[i + 1], peer).peer == Some(ws)
    requires !PairedHere(cfg, states, events, i, ws, peer)
    ensures TrackOf(states[i], ws).peer == Some(peer) && TrackOf(states[i], peer).peer == Some(ws)
    ensures TrackOf(states[i + 1], ws).mark == TrackOf(states[i], ws).mark
    ensures TrackOf(states[i + 1], peer).mark == TrackOf(states[i], peer).mark
  {
    RunStep(cfg, states, events, i);
    StepMarks(cfg, states[i], events[i], ws, peer);
  }

  /** This step pairs the two. */
  predicate StepPairs(cfg: Config, s: System, e: Event, ws: SocketId, peer: SocketId)
    requires Enabled(s, e)
  {
    && e.Message?
    && TrackOf(Step(cfg, s, e), ws).mark == |TrackOf(Step(cfg, s, e), ws).received|
    && TrackOf(Step(cfg, s, e), peer).mark == |TrackOf(Step(cfg, s, e), peer).received|
    && (|| (e.ws == ws && ClaimOf(cfg, s, ws, e.frame) == Some(peer))
        || (e.ws == peer && ClaimOf(cfg, s, peer, e.frame) == Some(ws)))
  }

  lemma StepMarks(cfg: Config, s: System, e: Event, ws: SocketId, peer: SocketId)
    requires s.log.Keys == s.relay.world.net.Keys && Enabled(s, e) && ws != peer
    requires TrackOf(Step(cfg, s, e), ws).peer == Some(peer) && TrackOf(Step(cfg, s, e), peer).peer == Some(ws)
    requires !StepPairs(cfg, s, e, ws, peer)
    ensures TrackOf(s, ws).peer == Some(peer) && TrackOf(s, peer).peer == Some(ws)
    ensures TrackOf(Step(cfg, s, e), ws).mark == TrackOf(s, ws).mark
    ensures TrackOf(Step(cfg, s, e), peer).mark == TrackOf(s, peer).mark
  {
    if e.Message? {
      MessageMarks(cfg, s, e.ws, e.frame, ws, peer);
    } else {
      QuietMarks(cfg, s, e, ws);
      QuietMarks(cfg, s, e, peer);
    }
  }

  function ItemsOn(net: Net, ws: SocketId): seq<Sent> {
    if ws in net then net[ws].outbox else []
  }

  function OutboxOf(s: System, ws: SocketId): seq<Sent> {
    ItemsOn(s.relay.world.net, ws)
  }

  /** The frames since the pairing, in terms of the events. */
  lemma SincePairingIsFrames(cfg: Config, states: seq<System>, events: seq<Event>, i: nat, k: nat, peer: SocketId)
    requires IsDisciplinedRun(cfg, states, events) && k < i < |states| && MarkedAt(states[i], events, k, peer)
    ensures SincePairing(TrackOf(states[i], peer)) == FramesOf(events[k + 1..i], peer)
  {
    ReceivedIsFrames(cfg, states, events, i, peer);
    FramesAfter(events, k + 1, i, peer);
  }

  lemma FramesAfter(events: seq<Event>, j: nat, i: nat, ws: SocketId)
    requires j <= i <= |events|
    ensures var before, all := FramesOf(events[..j], ws), FramesOf(events[..i], ws);
      |before| <= |all| && all[|before|..] == FramesOf(events[j..i], ws)
  {
    FramesOfConcat(events[..j], events[j..i], ws);
    assert events[..i] == events[..j] + events[j..i];
  }

  lemma PipedAsDue(s: System, ws: SocketId, peer: SocketId)
    requires Piping(s) && ws in s.relay.world.net && ws in s.log && peer in s.log && s.log[ws].peer == Some(peer)
    ensures var due := [Ack(TrackOf(s, ws))] + PipedFrames(SincePairing(TrackOf(s, peer)));
      && OutboxOf(s, ws) <= due
      && (PhaseIn(s, ws).Open? && !PhaseIn(s, peer).Closed? ==> OutboxOf(s, ws) == due)
  {
    assert PipedAt(s.relay.world.manager, s.relay.world.net, s.log, ws);
  }

  /**
   * A partner's outbox is its acknowledgement and then, in order and with their
   * kind, frames that its own partner sent after the pairing: a prefix of them,
   * and all of them while the socket is open and the partner has not closed.
   */
  lemma PipeRefinement(cfg: Config, states: seq<System>, events: seq<Event>, i: nat, ws: SocketId, peer: SocketId)
    returns (k: nat)
    requires IsDisciplinedRun(cfg, states, events) && i < |states|
    requires ws in states[i].relay.world.net && TrackOf(states[i], ws).peer == Some(peer)
    ensures k < i <= |events|
    ensures PairedBy(cfg, states, events, k, peer, ws) || PairedBy(cfg, states, events, k, ws, peer)
    ensures var ack := if PairedBy(cfg, states, events, k, peer, ws) then ClientConnected else ServerRegistered;
      var due := [Control(ack)] + PipedFrames(FramesOf(events[k + 1..i], peer));
      && OutboxOf(states[i], ws) <= due
      && (PhaseIn(states[i], ws).Open? && !PhaseIn(states[i], peer).Closed? ==> OutboxOf(states[i], ws) == due)
  {
    RunPartners(cfg, states, events, i, ws);
    k := PairingEvent(cfg, states, events, i, ws, peer);
    SincePairingIsFrames(cfg, states, events, i, k, peer);
    RunPiping(cfg, states, events, i);
    PipedAsDue(states[i], ws, peer);
    AckIsRole(cfg, states, events, i, k, ws, peer);
  }

  lemma RunPartners(cfg: Config, states: seq<System>, events: seq<Event>, i: nat, ws: SocketId)
    requires IsDisciplinedRun(cfg, states, events) && i < |states|
    requires ws in states[i].relay.world.net && TrackOf(states[i], ws).peer.Some?
    ensures var s := states[i];
      var peer := TrackOf(s, ws).peer.value;
      && peer != ws && TrackOf(s, peer).peer == Some(ws) && peer in s.log && ws in s.log && peer in s.relay.world.net
      && TrackOf(s, ws).route.Some? && TrackOf(s, peer).route.Some?
      && (TrackOf(s, ws).route.value.Register? <==> TrackOf(s, peer).route.value.Connect?)
  {
    RunCoherent(cfg, states, events, i);
    PartnerFacts(states[i], ws);
  }

  lemma PartnerFacts(s: System, ws: SocketId)
    requires Coherent(s) && ws in s.relay.world.net && TrackOf(s, ws).peer.Some?
    ensures var peer := TrackOf(s, ws).peer.value;
      && peer != ws && TrackOf(s, peer).peer == Some(ws) && peer in s.log && ws in s.log && peer in s.relay.world.net
      && TrackOf(s, ws).route.Some? && TrackOf(s, peer).route.Some?
      && (TrackOf(s, ws).route.value.Register? <==> TrackOf(s, peer).route.value.Connect?)
  {
    var sh := ShapeOf(s);
    assert sh[ws].peer == TrackOf(s, ws).peer;
    var peer := sh[ws].peer.value;
    assert sh[peer].peer == TrackOf(s, peer).peer && sh[peer].route == TrackOf(s, peer).route;
  }

  lemma PipingStep(cfg: Config, states: seq<System>, events: seq<Event>, i: nat)
    requires IsDisciplinedRun(cfg, states, events) && i < |events| && Piping(states[i])
    ensures Piping(states[i + 1])
  {
    RunStep(cfg, states, events, i);
    RunCoherent(cfg, states, events, i);
    StepKeepsPiping(cfg, states[i], events[i]);
  }

  lemma {:induction false} RunPiping(cfg: Config, states: seq<System>, events: seq<Event>, i: nat)
    requires IsDisciplinedRun(cfg, states, events) && i < |states|
    ensures Piping(states[i])
  {
    if i == 0 {
      var table :| states[0] == InitialSystem(table);
    } else {
      RunPiping(cfg, states, events, i - 1);
      PipingStep(cfg, states, events, i - 1);
    }
  }

  /** A socket's routing message is noted once and stays noted. */
  lemma {:induction false} RouteStays(
    cfg: Config, states: seq<System>, events: seq<Event>, j: nat, i: nat, ws: SocketId)
    requires IsDisciplinedRun(cfg, states, events) && j <= i < |states| && TrackOf(states[j], ws).route.Some?
    ensures TrackOf(states[i], ws).route == TrackOf(states[j], ws).route
  {
    if j < i {
      RouteStays(cfg, states, events, j, i - 1, ws);
      RunStep(cfg, states, events, i - 1);
      StepRoute(cfg, states[i - 1], events[i - 1], ws);
    }
  }

  lemma StepRoute(cfg: Config, s: System, e: Event, ws: SocketId)
    requires s.log.Keys == s.relay.world.net.Keys && Enabled(s, e) && Disciplined(cfg, s, e)
    requires TrackOf(s, ws).route.Some?
    ensures TrackOf(Step(cfg, s, e), ws).route == TrackOf(s, ws).route
  {
  }

  lemma ClaimIsNoted(cfg: Config, s: System, ws: SocketId, frame: Frame, stamp: string)
    requires Enabled(s, Message(ws, frame, stamp)) && ClaimOf(cfg, s, ws, frame).Some?
    ensures var route := TrackOf(Step(cfg, s, Message(ws, frame, stamp)), ws).route;
      route.Some? && route.value.Connect?
  {
  }

  /** The client of the pairing event asked, so the server of it registered. */
  lemma AckIsRole(cfg: Config, states: seq<System>, events: seq<Event>, i: nat, k: nat, ws: SocketId, peer: SocketId)
    requires IsDisciplinedRun(cfg, states, events) && k < i < |states|
    requires ws in states[i].relay.world.net && TrackOf(states[i], ws).peer == Some(peer)
    requires PairedBy(cfg, states, events, k, peer, ws) || PairedBy(cfg, states, events, k, ws, peer)
    ensures Ack(TrackOf(states[i], ws)) ==
      Control(if PairedBy(cfg, states, events, k, peer, ws) then ClientConnected else ServerRegistered)
  {
    RunPartners(cfg, states, events, i, ws);
    var client := if PairedBy(cfg, states, events, k, peer, ws) then ws else peer;
    RunStep(cfg, states, events, k);
    ClaimIsNoted(cfg, states[k], client, events[k].frame, events[k].stamp);
    RouteStays(cfg, states, events, k + 1, i, client);
  }

  /** A socket that is known and no longer open. */
  predicate Shut(net: Net, ws: SocketId) {
    ws in net && !net[ws].phase.Open?
  }

  ghost predicate Frozen(net: Net, net': Net, ws: SocketId) {
    Shut(net, ws) ==> Shut(net', ws) && net'[ws].outbox == net[ws].outbox
  }

  lemma SendFreezes(net: Net, to: SocketId, item: Sent, x: SocketId)
    ensures Frozen(net, Send(net, to, item), x)
  {
  }

  lemma StartCloseFreezes(net: Net, to: SocketId, x: SocketId)
    ensures Frozen(net, StartClose(net, to), x)
  {
  }

  lemma RegisterFreezes(cfg: Config, r: Relay, ws: SocketId, msg: Routing, stamp: string, x: SocketId)
    requires ws in r.stateOf && msg.Register?
    ensures Frozen(r.world.net, OnRegister(cfg, r, ws, msg, stamp).world.net, x)
  {
    var (world, result) := AfterRegister(r.world, ws, msg.username, msg.installId, msg.metadata, stamp);
    if result.Registered? {
      if msg.username in r.world.manager.waiting {
        StartCloseFreezes(r.world.net, r.world.manager.waiting[msg.username], x);
      }
      SendFreezes(world.net, ws, Control(ServerRegistered), x);
    } else {
      var reply := Control(ServerRejected(result.reason));
      SendFreezes(world.net, ws, reply, x);
      StartCloseFreezes(Send(world.net, ws, reply), ws, x);
    }
  }

  lemma ConnectFreezes(r: Relay, ws: SocketId, msg: Routing, stamp: string, x: SocketId)
    requires ws in r.stateOf && msg.Connect?
    ensures Frozen(r.world.net, OnConnect(r, ws, msg, stamp).world.net, x)
  {
    var (world, result) := AfterConnect(r.world, ws, msg.username, stamp);
    if result.Connected? {
      SendFreezes(r.world.net, ws, Control(ClientConnected), x);
    } else {
      var reply := Control(ClientError(result.error));
      SendFreezes(r.world.net, ws, reply, x);
      StartCloseFreezes(Send(r.world.net, ws, reply), ws, x);
    }
  }

  lemma MessageFreezes(cfg: Config, r: Relay, ws: SocketId, frame: Frame, stamp: string, x: SocketId)
    ensures Frozen(r.world.net, OnMessage(cfg, r, ws, frame, stamp).world.net, x)
  {
    var r0 := Attach(r, ws);
    if StateOf(r0, ws).paired {
      if ws in r.world.manager.pairLookup {
        SendFreezes(r.world.net, Other(r.world.manager.pairLookup[ws], ws), Piped(frame), x);
      }
    } else if !frame.isBinary {
      match cfg.parse(frame.data)
      case Register(_, _, _) => RegisterFreezes(cfg, r0, ws, cfg.parse(frame.data), stamp, x);
      case Connect(_) => ConnectFreezes(r0, ws, cfg.parse(frame.data), stamp, x);
      case _ =>
    }
  }

  lemma StepFreezes(cfg: Config, s: System, e: Event, x: SocketId)
    requires Enabled(s, e)
    ensures Frozen(s.relay.world.net, Step(cfg, s, e).relay.world.net, x)
  {
    match e
    case Message(ws, frame, stamp) => MessageFreezes(cfg, s.relay, ws, frame, stamp, x);
    case CloseEvent(ws) => CloseFading(s.relay, ws);
    case _ =>
  }

  lemma FreezeStep(cfg: Config, states: seq<System>, events: seq<Event>, i: nat, x: SocketId)
    requires IsRun(cfg, states, events) && i < |events|
    ensures Frozen(states[i].relay.world.net, states[i + 1].relay.world.net, x)
  {
    StepFreezes(cfg, states[i], events[i], x);
  }

  lemma {:induction false} FrozenAlong(nets: seq<Net>, j: nat, i: nat, x: SocketId)
    requires j <= i < |nets| && Shut(nets[j], x)
    requires forall k :: j <= k < i ==> Frozen(nets[k], nets[k + 1], x)
    ensures Shut(nets[i], x) && nets[i][x].outbox == nets[j][x].outbox
  {
    if j < i {
      FrozenAlong(nets, j, i - 1, x);
      assert Frozen(nets[i - 1], nets[i], x);
    }
  }

  /** No run adds anything to the outbox of a socket that is no longer open. */
  lemma ShutStaysFrozen(cfg: Config, states: seq<System>, events: seq<Event>, j: nat, i: nat, ws: SocketId)
    requires IsRun(cfg, states, events) && j <= i < |states| && Shut(states[j].relay.world.net, ws)
    ensures Shut(states[i].relay.world.net, ws) && OutboxOf(states[i], ws) == OutboxOf(states[j], ws)
  {
    var nets := seq(|states|, k requires 0 <= k < |states| => states[k].relay.world.net);
    forall k | j <= k < i ensures Frozen(nets[k], nets[k + 1], ws) {
      FreezeStep(cfg, states, events, k, ws);
    }
    FrozenAlong(nets, j, i, ws);
  }

  /** Two live partners are in the lookup, and neither waits. */
  lemma LivePartners(s: System, ws: SocketId, peer: SocketId)
    requires Coherent(s) && !PhaseIn(s, ws).Closed? && !PhaseIn(s, peer).Closed? && TrackOf(s, ws).peer == Some(peer)
    ensures var m := s.relay.world.manager;
      && ws in m.pairLookup && Other(m.pairLookup[ws], ws) == peer
      && forall n :: n in m.waiting ==> m.waiting[n] != ws
  {
    var m, sh := s.relay.world.manager, ShapeOf(s);
    assert sh[ws].peer == Some(peer) && IsLive(sh, peer);
    PairedIsNotWaiting(m, sh, ws);
  }

  lemma CloseStep(cfg: Config, s: System, ws: SocketId)
    requires Enabled(s, CloseEvent(ws))
    ensures Step(cfg, s, CloseEvent(ws)).relay == OnClose(SeenClosed(s.relay, ws), ws)
  {
  }

  lemma CoherentRecords(s: System)
    requires Coherent(s)
    ensures Records(s.relay)
  {
  }

  lemma CloseShutsPartner(cfg: Config, s: System, ws: SocketId, peer: SocketId)
    requires Coherent(s) && Enabled(s, CloseEvent(ws)) && TrackOf(s, ws).peer == Some(peer)
    ensures Shut(Step(cfg, s, CloseEvent(ws)).relay.world.net, peer)
  {
    hide OnClose, Coherent, Step, Records;
    PartnerFacts(s, ws);
    CloseStep(cfg, s, ws);
    if PhaseIn(s, peer).Closed? {
      StepFreezes(cfg, s, CloseEvent(ws), peer);
    } else {
      LivePartners(s, ws, peer);
      CoherentRecords(s);
      SameRecords(s.relay, SeenClosed(s.relay, ws));
      CloseStartsOther(SeenClosed(s.relay, ws), ws);
    }
  }

  lemma PairedIsNotWaiting(m: Manager, sh: Shape, ws: SocketId)
    requires WaitingTagged(m) && ws in m.pairLookup
    ensures forall n :: n in m.waiting ==> m.waiting[n] != ws
  {
  }

  lemma CloseStartsOther(r: Relay, ws: SocketId)
    requires Records(r) && ws in r.world.manager.pairLookup
    requires forall n :: n in r.world.manager.waiting ==> r.world.manager.waiting[n] != ws
    ensures var other := Other(r.world.manager.pairLookup[ws], ws);
      OnClose(r, ws).world.net == StartClose(r.world.net, other)
  {
  }

  /** Once the close event of either partner is handled, neither outbox ever grows. */
  lemma NothingAfterClose(
    cfg: Config, states: seq<System>, events: seq<Event>, j: nat, i: nat, ws: SocketId, peer: SocketId, x: SocketId)
    requires IsDisciplinedRun(cfg, states, events) && j < i < |states| && events[j] == CloseEvent(ws)
    requires TrackOf(states[j], ws).peer == Some(peer) && (x == ws || x == peer)
    ensures OutboxOf(states[i], x) == OutboxOf(states[j + 1], x)
  {
    RunStep(cfg, states, events, j);
    RunCoherent(cfg, states, events, j);
    CloseShutsPartner(cfg, states[j], ws, peer);
    ClosedKept(cfg, states[j], ws);
    ShutStaysFrozen(cfg, states, events, j + 1, i, x);
  }

  // ---- Keepalive ----

  lemma {:induction false} RunAlive(cfg: Config, states: seq<System>, events: seq<Event>, i: nat)
    requires Delays(cfg) && IsDisciplinedRun(cfg, states, events) && i < |states|
    ensures Alive(cfg, states[i])
  {
    if i == 0 {
      var table :| states[0] == InitialSystem(table);
    } else {
      RunAlive(cfg, states, events, i - 1);
      AliveStep(cfg, states, events, i - 1);
    }
  }

  lemma AliveStep(cfg: Config, states: seq<System>, events: seq<Event>, i: nat)
    requires Delays(cfg) && IsDisciplinedRun(cfg, states, events) && i < |events| && Alive(cfg, states[i])
    ensures Alive(cfg, states[i + 1])
  {
    RunStep(cfg, states, events, i);
    RunCoherent(cfg, states, events, i);
    StepKeepsAlive(cfg, states[i], events[i]);
  }

  /** At most one timer of each kind per socket, named by its record; none for paired or closed sockets. */
  lemma TimersAreNamed(cfg: Config, states: seq<System>, events: seq<Event>, i: nat, id: TimerId)
    requires Delays(cfg) && IsDisciplinedRun(cfg, states, events) && i < |states| && id in states[i].relay.timers
    ensures var s := states[i];
      var t := s.relay.timers[id];
      && !PhaseIn(s, t.ws).Closed? && !StateOf(s.relay, t.ws).paired && s.relay.now <= t.due
      && (if t.Timeout? then StateOf(s.relay, t.ws).pongTimeout == Some(id)
          else StateOf(s.relay, t.ws).pingInterval == Some(id))
  {
    RunAlive(cfg, states, events, i);
    RunCoherent(cfg, states, events, i);
    assert TimerAt(cfg, states[i].relay, id);
  }

  /** The timer's socket is unpaired, was pinged exactly the timeout ago, and has not answered that ping. */
  predicate Earned(cfg: Config, s: System, id: TimerId) {
    id in s.relay.timers &&
    var ws := s.relay.timers[id].ws;
    && !StateOf(s.relay, ws).paired
    && TrackOf(s, ws).pingedAt + cfg.pongTimeoutMs == s.relay.now && !TrackOf(s, ws).answered
  }

  /**
   * A pong timeout closes only an unpaired socket that was pinged exactly
   * `pongTimeoutMs` ago and has not answered that ping.
   */
  lemma TimeoutIsEarned(cfg: Config, states: seq<System>, events: seq<Event>, i: nat)
    requires Delays(cfg) && IsDisciplinedRun(cfg, states, events) && i < |events| && events[i].Expire?
    ensures Earned(cfg, states[i], events[i].id)
  {
    RunStep(cfg, states, events, i);
    RunAlive(cfg, states, events, i);
    var s := states[i];
    var ws := s.relay.timers[events[i].id].ws;
    assert TimerAt(cfg, s.relay, events[i].id);
    assert SocketAlive(cfg, s.relay, ws, TrackOf(s, ws));
  }
}
