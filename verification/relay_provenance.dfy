/** Where the frames on a socket come from, in every run, disciplined or not. */
module RelayProvenance {
  import opened Wrappers
  import opened Sockets
  import opened Connections
  import opened WsHandler
  import opened RelaySystem
  import opened RelayLinks
  import opened RelayPipe
  import opened RelayTelemetry
  import opened RelayTheorems
  import opened RelayOwnership
  import opened Conservation

  /** The step pipes the frame to the socket: the sender's pair has the two as its ends. */
  predicate Pipes(s: System, e: Event, ws: SocketId, frame: Frame) {
    && e.Message? && e.frame == frame && StateOf(s.relay, e.ws).paired
    && e.ws in s.relay.world.manager.pairLookup && Other(s.relay.world.manager.pairLookup[e.ws], e.ws) == ws
  }

  /** The outbox is what it was, or has one control item more. */
  ghost predicate NothingPiped(net: Net, net': Net, ws: SocketId) {
    ItemsOn(net', ws) == ItemsOn(net, ws)
    || (|ItemsOn(net', ws)| > 0 && ItemsOn(net', ws)[..|ItemsOn(net', ws)| - 1] == ItemsOn(net, ws)
        && ItemsOn(net', ws)[|ItemsOn(net', ws)| - 1].Control?)
  }

  lemma RegisterPipesNothing(cfg: Config, r: Relay, x: SocketId, msg: Routing, stamp: string, ws: SocketId)
    requires x in r.stateOf && msg.Register?
    ensures NothingPiped(r.world.net, OnRegister(cfg, r, x, msg, stamp).world.net, ws)
  {
  }

  lemma ConnectPipesNothing(r: Relay, x: SocketId, msg: Routing, stamp: string, ws: SocketId)
    requires x in r.stateOf && msg.Connect?
    ensures NothingPiped(r.world.net, OnConnect(r, x, msg, stamp).world.net, ws)
  {
    hide MarkPaired;
    var (world, result) := AfterConnect(r.world, x, msg.username, stamp);
    if result.Connected? {
      MarkPairedWorld(r.(world := world), x, msg.username, result.serverWs);
    }
  }

  lemma MarkPairedWorld(r: Relay, x: SocketId, name: string, serverWs: SocketId)
    requires x in r.stateOf
    ensures MarkPaired(r, x, name, serverWs).world == r.world
  {
  }

  /** A message pipes its own frame to the other end of its sender's pair, and nothing else to anybody. */
  lemma MessagePipes(cfg: Config, s: System, x: SocketId, frame: Frame, stamp: string, ws: SocketId)
    requires Records(s.relay)
    ensures var net, net' := s.relay.world.net, OnMessage(cfg, s.relay, x, frame, stamp).world.net;
      || NothingPiped(net, net', ws)
      || (ItemsOn(net', ws) == ItemsOn(net, ws) + [Piped(frame)] && Pipes(s, Message(x, frame, stamp), ws, frame))
  {
    hide OnRegister, OnConnect, Records;
    AttachView(s.relay, x);
    var r0 := Attach(s.relay, x);
    if !StateOf(r0, x).paired && !frame.isBinary {
      match cfg.parse(frame.data)
      case Register(_, _, _) => RegisterPipesNothing(cfg, r0, x, cfg.parse(frame.data), stamp, ws);
      case Connect(_) => ConnectPipesNothing(r0, x, cfg.parse(frame.data), stamp, ws);
      case _ =>
    }
  }

  lemma QuietPipesNothing(cfg: Config, s: System, e: Event, ws: SocketId)
    requires Enabled(s, e) && !e.Message?
    ensures NothingPiped(s.relay.world.net, Step(cfg, s, e).relay.world.net, ws)
  {
    hide OnClose, OnPong, Attach;
    match e
    case CloseEvent(x) => CloseFading(s.relay, x);
    case Pong(x) => PongWorld(s.relay, x);
    case Errored(x) => AttachWorld(s.relay, x);
    case _ =>
  }

  lemma PongWorld(r: Relay, x: SocketId)
    ensures OnPong(r, x).world == r.world
  {
  }

  lemma AttachWorld(r: Relay, x: SocketId)
    ensures Attach(r, x).world == r.world
  {
  }

  /** The outbox after a step, if the step piped something. */
  predicate PipesOn(s: System, e: Event, net: Net, net': Net, ws: SocketId) {
    e.Message? && ItemsOn(net', ws) == ItemsOn(net, ws) + [Piped(e.frame)] && Pipes(s, e, ws, e.frame)
  }

  lemma StepItems(cfg: Config, s: System, e: Event, ws: SocketId)
    requires Records(s.relay) && Enabled(s, e)
    ensures var net, net' := s.relay.world.net, Step(cfg, s, e).relay.world.net;
      NothingPiped(net, net', ws) || PipesOn(s, e, net, net', ws)
  {
    hide OnMessage, Records, Pipes, NothingPiped;
    if e.Message? {
      MessagePipes(cfg, s, e.ws, e.frame, e.stamp, ws);
    } else {
      QuietPipesNothing(cfg, s, e, ws);
    }
  }

  /** A piped item was there before the step, or the step pipes it. */
  lemma StepPipes(cfg: Config, s: System, e: Event, ws: SocketId, m: nat)
    requires Records(s.relay) && Enabled(s, e)
    requires m < |OutboxOf(Step(cfg, s, e), ws)| && OutboxOf(Step(cfg, s, e), ws)[m].Piped?
    ensures var item := OutboxOf(Step(cfg, s, e), ws)[m];
      (m < |OutboxOf(s, ws)| && OutboxOf(s, ws)[m] == item) || Pipes(s, e, ws, item.frame)
  {
    hide Step, Records, Pipes, ItemsOn;
    StepItems(cfg, s, e, ws);
  }

  /** The event that piped an item. */
  lemma {:induction false} PipingEvent(
    cfg: Config, states: seq<System>, events: seq<Event>, i: nat, ws: SocketId, m: nat)
    returns (l: nat)
    requires IsRun(cfg, states, events) && i < |states|
    requires m < |OutboxOf(states[i], ws)| && OutboxOf(states[i], ws)[m].Piped?
    ensures l < i && Pipes(states[l], events[l], ws, OutboxOf(states[i], ws)[m].frame)
  {
    hide Step, Enabled, Pipes;
    if i == 0 {
      assert false;
    } else {
      RunRecords(cfg, states, events, i - 1);
      StepPipes(cfg, states[i - 1], events[i - 1], ws, m);
      if m < |OutboxOf(states[i - 1], ws)| && OutboxOf(states[i - 1], ws)[m] == OutboxOf(states[i], ws)[m] {
        l := PipingEvent(cfg, states, events, i - 1, ws, m);
      } else {
        l := i - 1;
      }
    }
  }

  lemma LookedUpPair(s: System, x: SocketId)
    requires Accounted(s) && x in s.relay.world.manager.pairLookup
    ensures var p := s.relay.world.manager.pairLookup[x];
      p in s.relay.world.manager.pairs && (x == p.server || x == p.client)
  {
  }

  /**
   * In any run every piped frame on a socket was sent, as it is, by a socket
   * that an earlier request had paired with it, and the server of the two had
   * registered the name asked for as its owner.
   */
  lemma PipedIsFromPartner(cfg: Config, states: seq<System>, events: seq<Event>, i: nat, ws: SocketId, m: nat)
    returns (j: nat, k: nat, l: nat, server: SocketId, client: SocketId)
    requires IsRun(cfg, states, events) && i < |states|
    requires m < |OutboxOf(states[i], ws)| && OutboxOf(states[i], ws)[m].Piped?
    ensures l < i && events[l].Message? && Piped(events[l].frame) == OutboxOf(states[i], ws)[m]
    ensures (server, client) == (ws, events[l].ws) || (server, client) == (events[l].ws, ws)
    ensures k < l && PairedAsOwner(cfg, states, events, j, k, server, client)
  {
    hide PairedAsOwner, Step, Enabled;
    l := PipingEvent(cfg, states, events, i, ws, m);
    RunAccounted(cfg, states, events, l);
    LookedUpPair(states[l], events[l].ws);
    var p := states[l].relay.world.manager.pairLookup[events[l].ws];
    j, k := PairsOwnTheName(cfg, states, events, l, p);
    server, client := p.server, p.client;
  }

  // ---- Sockets without a partner ----

  lemma StepKeepsPeer(cfg: Config, s: System, e: Event, ws: SocketId)
    requires s.log.Keys == s.relay.world.net.Keys && Enabled(s, e) && TrackOf(s, ws).peer.Some?
    ensures TrackOf(Step(cfg, s, e), ws).peer.Some?
  {
    hide RouteOf, ClaimOf, OnMessage, OnClose, OnTick, OnPong;
  }

  lemma {:induction false} PeerStays(
    cfg: Config, states: seq<System>, events: seq<Event>, k: nat, i: nat, ws: SocketId)
    requires IsRun(cfg, states, events) && k <= i < |states| && TrackOf(states[k], ws).peer.Some?
    ensures TrackOf(states[i], ws).peer.Some?
  {
    hide Step, Enabled, TrackOf;
    if k < i {
      PeerStays(cfg, states, events, k, i - 1, ws);
      RunAccounted(cfg, states, events, i - 1);
      AccountedKnows(states[i - 1]);
      StepKeepsPeer(cfg, states[i - 1], events[i - 1], ws);
    }
  }

  lemma ClaimIsNotedByBoth(cfg: Config, s: System, e: Event, server: SocketId)
    requires Enabled(s, e) && e.Message? && ClaimOf(cfg, s, e.ws, e.frame) == Some(server)
    ensures TrackOf(Step(cfg, s, e), server).peer.Some? && TrackOf(Step(cfg, s, e), e.ws).peer.Some?
  {
    hide ClaimOf, RouteOf, OnMessage;
  }

  /** In any run a socket that was never paired, be it refused, replaced or still waiting, gets no piped frame. */
  lemma NoPartnerNoFrames(cfg: Config, states: seq<System>, events: seq<Event>, i: nat, ws: SocketId)
    requires IsRun(cfg, states, events) && i < |states| && TrackOf(states[i], ws).peer.None?
    ensures forall m :: 0 <= m < |OutboxOf(states[i], ws)| ==> OutboxOf(states[i], ws)[m].Control?
  {
    hide Step, Enabled, TrackOf, RegisteredAt, WaitsFor;
    forall m | 0 <= m < |OutboxOf(states[i], ws)| ensures OutboxOf(states[i], ws)[m].Control? {
      if OutboxOf(states[i], ws)[m].Piped? {
        var j, k, l, server, client := PipedIsFromPartner(cfg, states, events, i, ws, m);
        ClaimIsNotedByBoth(cfg, states[k], events[k], server);
        PeerStays(cfg, states, events, k + 1, i, ws);
      }
    }
  }
}
