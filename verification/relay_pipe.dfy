/** What a paired socket receives: an acknowledgement, then its partner's frames. */
module RelayPipe {
  import opened Wrappers
  import opened Sockets
  import opened Connections
  import opened WsHandler
  import opened RelaySystem
  import opened ConnectionIndex
  import opened RelayShape
  import opened RelayLinks
  import Registry

  type Notes = map<SocketId, Track>

  function PipedFrames(frames: seq<Frame>): (items: seq<Sent>)
    ensures |items| == |frames|
    ensures forall i :: 0 <= i < |frames| ==> items[i] == Piped(frames[i])
  {
    seq(|frames|, i requires 0 <= i < |frames| => Piped(frames[i]))
  }

  function Ack(t: Track): Sent {
    Control(if t.route.Some? && t.route.value.Register? then ServerRegistered else ClientConnected)
  }

  /** The frames a socket has sent since it was paired. */
  function SincePairing(t: Track): seq<Frame> {
    if t.mark <= |t.received| then t.received[t.mark..] else []
  }

  /** Everything a socket can get: its acknowledgement, then the partner's frames since the pairing. */
  function Due(log: Notes, ws: SocketId): seq<Sent> {
    if ws !in log then []
    else
      [Ack(log[ws])]
      + if log[ws].peer.Some? && log[ws].peer.value in log
        then PipedFrames(SincePairing(log[log[ws].peer.value])) else []
  }

  /** A socket that is waiting or has a partner is served. */
  predicate Served(m: Manager, log: Notes, ws: SocketId) {
    ws in log && (log[ws].peer.Some? || (exists n :: n in m.waiting && m.waiting[n] == ws))
  }

  /** Nothing was lost yet: the socket is open and its partner, if it has one, is not closed. */
  predicate Flowing(net: Net, log: Notes, ws: SocketId) {
    PhaseOf(net, ws).Open? && (ws in log && log[ws].peer.Some? ==> !PhaseOf(net, log[ws].peer.value).Closed?)
  }

  ghost predicate PipedAt(m: Manager, net: Net, log: Notes, ws: SocketId) {
    ws in net && ws in log ==>
      && log[ws].mark <= |log[ws].received|
      && (log[ws].route.None? ==> net[ws].outbox == [])
      && (Served(m, log, ws) ==> net[ws].outbox <= Due(log, ws))
      && (Served(m, log, ws) && Flowing(net, log, ws) ==> net[ws].outbox == Due(log, ws))
  }

  ghost predicate Piping(s: System) {
    forall ws: SocketId :: PipedAt(s.relay.world.manager, s.relay.world.net, s.log, ws)
  }

  lemma PipedFramesExtend(frames: seq<Frame>, f: Frame)
    ensures PipedFrames(frames + [f]) == PipedFrames(frames) + [Piped(f)]
  {
  }

  /** Nothing a socket is judged by got worse. */
  lemma QuietPiped(m: Manager, net: Net, log: Notes, m': Manager, net': Net, log': Notes, ws: SocketId)
    requires PipedAt(m, net, log, ws)
    requires ws in net' ==> ws in net && net'[ws].outbox == net[ws].outbox
    requires Flowing(net', log', ws) ==> Flowing(net, log, ws)
    requires ws in net' && ws in log' ==>
      ws in log && log'[ws].route == log[ws].route && log'[ws].mark <= |log'[ws].received|
    requires Served(m', log', ws) ==> Served(m, log, ws)
    requires Due(log', ws) == Due(log, ws)
    ensures PipedAt(m', net', log', ws)
  {
  }

  /** The marks, the sockets and the notes speak of the same sockets. */
  ghost predicate Noted(sh: Shape, net: Net, log: Notes) {
    && sh.Keys == net.Keys == log.Keys
    && forall ws :: ws in sh ==>
         sh[ws].peer == log[ws].peer && sh[ws].route == log[ws].route && (sh[ws].live <==> !net[ws].phase.Closed?)
  }

  ghost predicate AllPiped(m: Manager, net: Net, log: Notes) {
    forall ws: SocketId :: PipedAt(m, net, log, ws)
  }

  /** The notes that the pipe is judged by are the same. */
  ghost predicate SameNotes(log: Notes, log': Notes) {
    && log'.Keys == log.Keys
    && forall ws :: ws in log ==>
         && log'[ws].received == log[ws].received && log'[ws].route == log[ws].route
         && log'[ws].peer == log[ws].peer && log'[ws].mark == log[ws].mark
  }

  /** Phases only move forward, and outboxes stay. */
  ghost predicate Fading(net: Net, net': Net) {
    && net'.Keys == net.Keys
    && forall ws :: ws in net ==>
         && net'[ws].outbox == net[ws].outbox
         && (net'[ws].phase.Open? ==> net[ws].phase.Open?)
         && (net[ws].phase.Closed? ==> net'[ws].phase.Closed?)
  }

  /** No waiting entry is new. */
  ghost predicate FewerWaiting(m: Manager, m': Manager) {
    forall n :: n in m'.waiting ==> n in m.waiting && m'.waiting[n] == m.waiting[n]
  }

  lemma FadingKeepsPiped(m: Manager, net: Net, log: Notes, m': Manager, net': Net, log': Notes)
    requires AllPiped(m, net, log) && Fading(net, net') && SameNotes(log, log') && FewerWaiting(m, m')
    ensures AllPiped(m', net', log')
  {
    forall ws: SocketId ensures PipedAt(m', net', log', ws) {
      assert PipedAt(m, net, log, ws);
      assert Due(log', ws) == Due(log, ws);
      QuietPiped(m, net, log, m', net', log', ws);
    }
  }

  lemma OpenKeepsPiped(m: Manager, sh: Shape, net: Net, log: Notes, ws: SocketId)
    requires AllPiped(m, net, log) && Noted(sh, net, log) && PartnersLinked(sh) && WaitingLinked(m, sh) && ws !in sh
    ensures AllPiped(m, net[ws := Socket(Open, [])], log[ws := FreshTrack])
  {
    var net', log' := net[ws := Socket(Open, [])], log[ws := FreshTrack];
    forall x: SocketId ensures PipedAt(m, net', log', x) {
      assert PipedAt(m, net, log, x);
      if x == ws {
        assert !Served(m, log', x);
      } else if x in log {
        assert Due(log', x) == Due(log, x);
        QuietPiped(m, net, log, m, net', log', x);
      }
    }
  }

  /** A frame that is piped, or ignored by an unpaired socket. */
  lemma FrameKeepsPiped(m: Manager, sh: Shape, net: Net, log: Notes, ws: SocketId, frame: Frame, log': Notes)
    requires AllPiped(m, net, log) && Noted(sh, net, log) && IsLive(sh, ws)
    requires PartnersLinked(sh) && LookupSound(m, sh) && LookupComplete(m, sh)
    requires log' == log[ws := log[ws].(received := log[ws].received + [frame])]
    ensures AllPiped(m, AfterForward(m, net, ws, frame), log')
  {
    var net' := AfterForward(m, net, ws, frame);
    forall x: SocketId ensures PipedAt(m, net', log', x) {
      assert PipedAt(m, net, log, x) && PipedAt(m, net, log, ws);
      if x in log && log[x].peer == Some(ws) {
        PartnerPiped(m, sh, net, log, ws, frame, log', x);
      } else if x in log {
        assert ws in m.pairLookup ==>
          sh[ws].peer == Some(Other(m.pairLookup[ws], ws)) && sh[sh[ws].peer.value].peer == Some(ws);
        assert Due(log', x) == Due(log, x);
        QuietPiped(m, net, log, m, net', log', x);
      }
    }
  }

  lemma PartnerPiped(m: Manager, sh: Shape, net: Net, log: Notes, ws: SocketId, frame: Frame, log': Notes, x: SocketId)
    requires PipedAt(m, net, log, x) && PipedAt(m, net, log, ws) && Noted(sh, net, log) && IsLive(sh, ws)
    requires PartnersLinked(sh) && LookupSound(m, sh) && LookupComplete(m, sh)
    requires x in log && log[x].peer == Some(ws)
    requires log' == log[ws := log[ws].(received := log[ws].received + [frame])]
    ensures PipedAt(m, AfterForward(m, net, ws, frame), log', x)
  {
    assert sh[x].peer == Some(ws) && sh[ws].peer == Some(x) && x != ws;
    DueGrows(log, ws, frame, x);
    assert IsLive(sh, x) ==> ws in m.pairLookup;
    assert Served(m, log, x);
  }

  lemma DueGrows(log: Notes, ws: SocketId, frame: Frame, x: SocketId)
    requires ws in log && x in log && log[x].peer == Some(ws) && x != ws && log[ws].mark <= |log[ws].received|
    ensures Due(log[ws := log[ws].(received := log[ws].received + [frame])], x) == Due(log, x) + [Piped(frame)]
  {
    var t := log[ws];
    assert (t.received + [frame])[t.mark..] == t.received[t.mark..] + [frame];
    PipedFramesExtend(t.received[t.mark..], frame);
  }

  /** A blank socket is answered: nobody else's outbox or notes change. */
  ghost predicate Answered(net: Net, net': Net, log: Notes, log': Notes, ws: SocketId, reply: Reply) {
    && AnsweredNet(net, net', ws, reply) && ws in log && log'.Keys == log.Keys
    && log'[ws].peer.None? && log'[ws].route.Some? && log'[ws].mark <= |log'[ws].received|
    && forall x :: x in log && x != ws ==> log'[x] == log[x]
  }

  lemma AnswerKeepsOthersPiped(
    m: Manager, sh: Shape, net: Net, log: Notes, m': Manager, net': Net, log': Notes,
    ws: SocketId, reply: Reply, x: SocketId)
    requires AllPiped(m, net, log) && Noted(sh, net, log) && PartnersLinked(sh)
    requires Answered(net, net', log, log', ws, reply) && sh[ws] == BlankMark && x != ws
    requires forall n :: n in m'.waiting && m'.waiting[n] == x ==> n in m.waiting && m.waiting[n] == x
    ensures PipedAt(m', net', log', x)
  {
    assert PipedAt(m, net, log, x);
    if x in log {
      assert log[x].peer != Some(ws);
      assert Due(log', x) == Due(log, x);
      QuietPiped(m, net, log, m', net', log', x);
    }
  }

  lemma RefusalKeepsPiped(
    m: Manager, sh: Shape, net: Net, log: Notes, net': Net, log': Notes, ws: SocketId, reply: Reply)
    requires AllPiped(m, net, log) && Noted(sh, net, log) && PartnersLinked(sh)
    requires Answered(net, net', log, log', ws, reply) && sh[ws] == BlankMark && Unknown(m, ws)
    ensures AllPiped(m, net', log')
  {
    forall x: SocketId ensures PipedAt(m, net', log', x) {
      if x != ws {
        AnswerKeepsOthersPiped(m, sh, net, log, m, net', log', ws, reply, x);
      } else {
        assert !Served(m, log', x);
      }
    }
  }

  lemma RegisteredKeepsPiped(
    m: Manager, sh: Shape, net: Net, log: Notes, net': Net, log': Notes, ws: SocketId, entry: ActiveServer)
    requires AllPiped(m, net, log) && Noted(sh, net, log) && PartnersLinked(sh)
    requires Answered(net, net', log, log', ws, ServerRegistered) && sh[ws] == BlankMark && Unknown(m, ws)
    requires log'[ws].route.value.Register?
    ensures AllPiped(AddWaiting(m, ws, entry), net', log')
  {
    forall x: SocketId ensures PipedAt(AddWaiting(m, ws, entry), net', log', x) {
      if x != ws {
        AnswerKeepsOthersPiped(m, sh, net, log, AddWaiting(m, ws, entry), net', log', ws, ServerRegistered, x);
      } else {
        assert PipedAt(m, net, log, ws);
        assert Due(log', ws) == [Control(ServerRegistered)];
      }
    }
  }

  lemma ClaimKeepsPiped(
    m: Manager, sh: Shape, net: Net, log: Notes, log': Notes, ws: SocketId, name: string)
    requires AllPiped(m, net, log) && Noted(sh, net, log) && PartnersLinked(sh) && WaitingLinked(m, sh)
    requires Unknown(m, ws) && IsLive(sh, ws) && sh[ws] == BlankMark && name in m.waiting
    requires var serverWs := m.waiting[name];
      && log'.Keys == log.Keys
      && log'[ws].route.Some? && log'[ws].route.value.Connect? && log'[ws].peer == Some(serverWs)
      && log'[ws].mark == |log'[ws].received|
      && log'[serverWs].route == log[serverWs].route && log'[serverWs].peer == Some(ws)
      && log'[serverWs].mark == |log'[serverWs].received|
      && forall x :: x in log && x != ws && x != serverWs ==> log'[x] == log[x]
    ensures AllPiped(Claim(m, ws, name), Send(net, ws, Control(ClientConnected)), log')
  {
    var serverWs := m.waiting[name];
    var m', net' := Claim(m, ws, name), Send(net, ws, Control(ClientConnected));
    forall x: SocketId ensures PipedAt(m', net', log', x) {
      assert PipedAt(m, net, log, x);
      if x == ws {
        assert Due(log', x) == [Control(ClientConnected)];
      } else if x == serverWs {
        assert RelayShape.Registered(sh, serverWs, name) && sh[serverWs].peer.None?;
        assert Due(log, x) == [Control(ServerRegistered)] == Due(log', x);
        assert Served(m, log, x);
      } else if x in log {
        assert log[x].peer != Some(ws) && log[x].peer != Some(serverWs);
        assert Due(log', x) == Due(log, x);
        QuietPiped(m, net, log, m', net', log', x);
      }
    }
  }

  lemma NotedFrom(s: System)
    requires Coherent(s)
    ensures Noted(ShapeOf(s), s.relay.world.net, s.log)
  {
  }

  /** A socket about to send its routing message, in the terms of the pipe. */
  ghost predicate AboutToRoute(s: System, ws: SocketId) {
    && Records(s.relay) && ws in s.relay.world.net
    && Noted(ShapeOf(s), s.relay.world.net, s.log) && PartnersLinked(ShapeOf(s))
    && WaitingLinked(s.relay.world.manager, ShapeOf(s))
    && Unknown(s.relay.world.manager, ws) && IsLive(ShapeOf(s), ws) && ShapeOf(s)[ws] == BlankMark
  }

  lemma BlankIsAboutToRoute(s: System, ws: SocketId)
    requires Coherent(s) && !PhaseIn(s, ws).Closed? && TrackOf(s, ws).route.None?
    ensures AboutToRoute(s, ws)
  {
    NotedFrom(s);
    BlankIsUnknown(s.relay.world.manager, ShapeOf(s), ws);
  }

  /** The notes' side of an answer. */
  lemma AnswerLog(cfg: Config, s: System, ws: SocketId, frame: Frame)
    requires ws in s.log && s.log[ws].peer.None? && s.log[ws].mark <= |s.log[ws].received|
    requires RouteOf(cfg, s, ws, frame).Some? && ClaimOf(cfg, s, ws, frame).None?
    ensures var log' := LogMessage(cfg, s, ws, frame);
      && log'.Keys == s.log.Keys
      && log'[ws].peer.None? && log'[ws].route == RouteOf(cfg, s, ws, frame) && log'[ws].mark <= |log'[ws].received|
      && forall x :: x in s.log && x != ws ==> log'[x] == s.log[x]
  {
  }

  lemma RegisterWorld(w: World, ws: SocketId, msg: Routing, stamp: string)
    requires msg.Register?
    ensures var (w', result) := AfterRegister(w, ws, msg.username, msg.installId, msg.metadata, stamp);
      w'.manager == if result.Registered?
        then AddWaiting(w.manager, ws, ActiveServer(msg.username, msg.installId, stamp, Waiting, msg.metadata))
        else w.manager
  {
  }

  lemma RegisterPiped(cfg: Config, s: System, ws: SocketId, frame: Frame, stamp: string)
    requires AboutToRoute(s, ws) && Piping(s)
    requires RouteOf(cfg, s, ws, frame).Some? && RouteOf(cfg, s, ws, frame).value.Register?
    ensures var r' := OnRegister(cfg, Attach(s.relay, ws), ws, RouteOf(cfg, s, ws, frame).value, stamp);
      AllPiped(r'.world.manager, r'.world.net, LogMessage(cfg, s, ws, frame))
  {
    RegisterClaimsNobody(cfg, s, ws, frame);
    RegisterManager(cfg, Attach(s.relay, ws), ws, RouteOf(cfg, s, ws, frame).value, stamp);
    RegisterWorld(s.relay.world, ws, RouteOf(cfg, s, ws, frame).value, stamp);
    hide OnRegister, LogMessage, RouteOf, ClaimOf, ShapeOf, AfterRegister, AddWaiting;
    var m, sh, net, msg := s.relay.world.manager, ShapeOf(s), s.relay.world.net, RouteOf(cfg, s, ws, frame).value;
    var r', log' := OnRegister(cfg, Attach(s.relay, ws), ws, msg, stamp), LogMessage(cfg, s, ws, frame);
    assert PipedAt(m, net, s.log, ws);
    AnswerLog(cfg, s, ws, frame);
    RegisterAnswers(cfg, s.relay, ws, msg, stamp);
    var result := AfterRegister(s.relay.world, ws, msg.username, msg.installId, msg.metadata, stamp).1;
    if result.Registered? {
      RegisteredKeepsPiped(m, sh, net, s.log, r'.world.net, log', ws,
                           ActiveServer(msg.username, msg.installId, stamp, Waiting, msg.metadata));
    } else {
      RefusalKeepsPiped(m, sh, net, s.log, r'.world.net, log', ws, ServerRejected(result.reason));
    }
  }

  /** The sockets' side of an answer. */
  ghost predicate AnsweredNet(net: Net, net': Net, ws: SocketId, reply: Reply) {
    && net'.Keys == net.Keys && ws in net
    && net'[ws].outbox == (if net[ws].phase.Open? then net[ws].outbox + [Control(reply)] else net[ws].outbox)
    && (net'[ws].phase.Open? ==> net[ws].phase.Open?)
    && forall x :: x in net && x != ws ==>
         && net'[x].outbox == net[x].outbox
         && (net'[x].phase.Open? ==> net[x].phase.Open?)
         && (net'[x].phase.Closed? <==> net[x].phase.Closed?)
  }

  lemma ReplaceAndAnswer(net: Net, existing: SocketId, ws: SocketId, reply: Reply)
    requires ws in net && existing != ws
    ensures AnsweredNet(net, Send(StartClose(net, existing), ws, Control(reply)), ws, reply)
  {
  }

  lemma AnswerAndClose(net: Net, ws: SocketId, reply: Reply)
    requires ws in net
    ensures AnsweredNet(net, Send(net, ws, Control(reply)), ws, reply)
    ensures AnsweredNet(net, StartClose(Send(net, ws, Control(reply)), ws), ws, reply)
  {
  }

  lemma RegisterAnswers(cfg: Config, r: Relay, ws: SocketId, msg: Routing, stamp: string)
    requires msg.Register? && ws in r.world.net && Unknown(r.world.manager, ws)
    ensures var result := AfterRegister(r.world, ws, msg.username, msg.installId, msg.metadata, stamp).1;
      AnsweredNet(r.world.net, OnRegister(cfg, Attach(r, ws), ws, msg, stamp).world.net, ws,
                  if result.Registered? then ServerRegistered else ServerRejected(result.reason))
  {
    var (world, result) := AfterRegister(r.world, ws, msg.username, msg.installId, msg.metadata, stamp);
    if result.Rejected? {
      AnswerAndClose(r.world.net, ws, ServerRejected(result.reason));
    } else if msg.username in r.world.manager.waiting {
      ReplaceAndAnswer(r.world.net, r.world.manager.waiting[msg.username], ws, ServerRegistered);
    } else {
      AnswerAndClose(r.world.net, ws, ServerRegistered);
    }
  }

  lemma RefusedConnectAnswers(r: Relay, ws: SocketId, msg: Routing, stamp: string)
    requires msg.Connect? && ws in r.world.net && AfterConnect(r.world, ws, msg.username, stamp).1.Refused?
    ensures AnsweredNet(r.world.net, OnConnect(Attach(r, ws), ws, msg, stamp).world.net, ws,
                        ClientError(AfterConnect(r.world, ws, msg.username, stamp).1.error))
  {
    AnswerAndClose(r.world.net, ws, ClientError(AfterConnect(r.world, ws, msg.username, stamp).1.error));
  }

  lemma RefusedConnectManager(r: Relay, ws: SocketId, msg: Routing, stamp: string)
    requires msg.Connect? && AfterConnect(r.world, ws, msg.username, stamp).1.Refused?
    ensures OnConnect(Attach(r, ws), ws, msg, stamp).world.manager == r.world.manager
  {
  }

  lemma RefusedConnectPiped(cfg: Config, s: System, ws: SocketId, frame: Frame, stamp: string)
    requires AboutToRoute(s, ws) && Piping(s)
    requires ClaimOf(cfg, s, ws, frame).None?
    requires RouteOf(cfg, s, ws, frame).Some? && RouteOf(cfg, s, ws, frame).value.Connect?
    ensures var r' := OnConnect(Attach(s.relay, ws), ws, RouteOf(cfg, s, ws, frame).value, stamp);
      AllPiped(r'.world.manager, r'.world.net, LogMessage(cfg, s, ws, frame))
  {
    var w, name := s.relay.world, RouteOf(cfg, s, ws, frame).value.username;
    assert AfterConnect(w, ws, name, stamp).1.Refused?;
    RefusedConnectManager(s.relay, ws, RouteOf(cfg, s, ws, frame).value, stamp);
    hide OnConnect, LogMessage, RouteOf, ClaimOf, ShapeOf, AfterConnect;
    var m, sh, net, msg := s.relay.world.manager, ShapeOf(s), s.relay.world.net, RouteOf(cfg, s, ws, frame).value;
    var r', log' := OnConnect(Attach(s.relay, ws), ws, msg, stamp), LogMessage(cfg, s, ws, frame);
    assert PipedAt(m, net, s.log, ws);
    AnswerLog(cfg, s, ws, frame);
    RefusedConnectAnswers(s.relay, ws, msg, stamp);
    var error := AfterConnect(s.relay.world, ws, msg.username, stamp).1.error;
    RefusalKeepsPiped(m, sh, net, s.log, r'.world.net, log', ws, ClientError(error));
  }

  lemma ClaimPiped(cfg: Config, s: System, ws: SocketId, frame: Frame, stamp: string)
    requires AboutToRoute(s, ws) && Piping(s)
    requires ClaimOf(cfg, s, ws, frame).Some?
    ensures var r' := OnConnect(Attach(s.relay, ws), ws, RouteOf(cfg, s, ws, frame).value, stamp);
      AllPiped(r'.world.manager, r'.world.net, LogMessage(cfg, s, ws, frame))
  {
    var m, sh, msg := s.relay.world.manager, ShapeOf(s), RouteOf(cfg, s, ws, frame).value;
    assert IsLive(sh, m.waiting[msg.username]);
    ClaimLog(cfg, s, ws, frame);
    ClaimIsRouted(cfg, s, ws, frame);
    ConnectWorld(s.relay, ws, msg, stamp);
    hide OnConnect, LogMessage, Claim, ClaimOf, RouteOf;
    ClaimKeepsPiped(m, sh, s.relay.world.net, s.log, LogMessage(cfg, s, ws, frame), ws, msg.username);
  }

  /** The notes' side of a pairing. */
  lemma ClaimLog(cfg: Config, s: System, ws: SocketId, frame: Frame)
    requires ClaimOf(cfg, s, ws, frame).Some? && ClaimOf(cfg, s, ws, frame).value != ws
    requires ws in s.log && ClaimOf(cfg, s, ws, frame).value in s.log
    ensures var log', serverWs := LogMessage(cfg, s, ws, frame), ClaimOf(cfg, s, ws, frame).value;
      && log'.Keys == s.log.Keys
      && log'[ws].route == RouteOf(cfg, s, ws, frame) && log'[ws].peer == Some(serverWs)
      && log'[ws].mark == |log'[ws].received|
      && log'[serverWs].route == s.log[serverWs].route && log'[serverWs].peer == Some(ws)
      && log'[serverWs].mark == |log'[serverWs].received|
      && forall x :: x in s.log && x != ws && x != serverWs ==> log'[x] == s.log[x]
  {
  }

  lemma MarkPairedWorld(r: Relay, ws: SocketId, name: string, serverWs: SocketId)
    requires ws in r.stateOf
    ensures MarkPaired(r, ws, name, serverWs).world == r.world
  {
  }

  lemma ConnectWorld(r: Relay, ws: SocketId, msg: Routing, stamp: string)
    requires msg.Connect? && msg.username in r.world.table && msg.username in r.world.manager.waiting
    ensures var r' := OnConnect(Attach(r, ws), ws, msg, stamp);
      && r'.world.net == Send(r.world.net, ws, Control(ClientConnected))
      && r'.world.manager == Claim(r.world.manager, ws, msg.username)
  {
    var (world, result) := AfterConnect(r.world, ws, msg.username, stamp);
    MarkPairedWorld(Attach(r, ws).(world := world), ws, msg.username, result.serverWs);
    hide MarkPaired, Claim;
  }

  /** A frame from a paired socket is forwarded; an unpaired socket has nowhere to forward to. */
  lemma FrameForwards(cfg: Config, s: System, ws: SocketId, frame: Frame, stamp: string)
    requires Records(s.relay) && RouteOf(cfg, s, ws, frame).None? && ws in s.log
    requires ws in s.relay.world.manager.pairLookup ==> StateOf(s.relay, ws).paired
    ensures OnMessage(cfg, s.relay, ws, frame, stamp).world.net ==
      AfterForward(s.relay.world.manager, s.relay.world.net, ws, frame)
    ensures OnMessage(cfg, s.relay, ws, frame, stamp).world.manager == s.relay.world.manager
    ensures LogMessage(cfg, s, ws, frame) == s.log[ws := s.log[ws].(received := s.log[ws].received + [frame])]
  {
    AttachView(s.relay, ws);
  }

  lemma LookedUpIsPaired(s: System, ws: SocketId)
    requires Coherent(s) && !PhaseIn(s, ws).Closed?
    ensures ws in s.relay.world.manager.pairLookup ==> StateOf(s.relay, ws).paired
    ensures ws in s.log && IsLive(ShapeOf(s), ws)
    ensures var m, sh := s.relay.world.manager, ShapeOf(s);
      PartnersLinked(sh) && LookupSound(m, sh) && LookupComplete(m, sh)
  {
    var sh := ShapeOf(s);
    assert sh[ws].paired == StateOf(s.relay, ws).paired && sh[ws].live;
  }

  lemma FramePiped(cfg: Config, s: System, ws: SocketId, frame: Frame, stamp: string)
    requires Coherent(s) && Piping(s) && Enabled(s, Message(ws, frame, stamp)) && RouteOf(cfg, s, ws, frame).None?
    ensures Piping(Step(cfg, s, Message(ws, frame, stamp)))
  {
    NotedFrom(s);
    LookedUpIsPaired(s, ws);
    FrameForwards(cfg, s, ws, frame, stamp);
    hide Coherent, OnMessage, LogMessage, RouteOf, ShapeOf, AfterForward;
    FrameKeepsPiped(s.relay.world.manager, ShapeOf(s), s.relay.world.net, s.log, ws, frame,
      LogMessage(cfg, s, ws, frame));
  }

  lemma CloseFading(r: Relay, ws: SocketId)
    requires ws in r.world.net
    ensures Fading(r.world.net, OnClose(SeenClosed(r, ws), ws).world.net)
    ensures FewerWaiting(r.world.manager, OnClose(SeenClosed(r, ws), ws).world.manager)
  {
    var r0 := SeenClosed(r, ws);
    var r1 := StopPing(Attach(r0, ws), Attach(r0, ws).stateOf[ws]);
    CloseWorldFading(r1.world, ws, StateOf(r1, ws).username);
  }

  lemma CloseWorldFading(w: World, ws: SocketId, name: Option<string>)
    ensures Fading(w.net, AfterClose(w, ws, name).0.net)
    ensures FewerWaiting(w.manager, AfterClose(w, ws, name).0.manager)
  {
  }

  lemma ClosePiped(cfg: Config, s: System, ws: SocketId)
    requires Piping(s) && Enabled(s, CloseEvent(ws))
    ensures Piping(Step(cfg, s, CloseEvent(ws)))
  {
    CloseFading(s.relay, ws);
    var r' := OnClose(SeenClosed(s.relay, ws), ws);
    FadingKeepsPiped(s.relay.world.manager, s.relay.world.net, s.log, r'.world.manager, r'.world.net, s.log);
  }

  lemma PongNotes(cfg: Config, s: System, ws: SocketId)
    requires Enabled(s, Pong(ws)) && ws in s.log
    ensures var s' := Step(cfg, s, Pong(ws)); s'.relay.world == s.relay.world && SameNotes(s.log, s'.log)
  {
  }

  lemma TickNotes(cfg: Config, s: System, id: TimerId)
    requires Enabled(s, Tick(id)) && s.relay.timers[id].ws in s.log
    ensures var s' := Step(cfg, s, Tick(id)); s'.relay.world == s.relay.world && SameNotes(s.log, s'.log)
  {
  }

  lemma QuietFading(cfg: Config, s: System, e: Event)
    requires Enabled(s, e) && !e.Opened? && !e.Message? && !e.CloseEvent?
    requires e.Pong? ==> e.ws in s.log
    requires e.Tick? ==> s.relay.timers[e.id].ws in s.log
    ensures var s' := Step(cfg, s, e);
      && s'.relay.world.manager == s.relay.world.manager
      && Fading(s.relay.world.net, s'.relay.world.net) && SameNotes(s.log, s'.log)
  {
    hide OnPong, OnTick;
    match e
    case Pong(ws) => PongNotes(cfg, s, ws);
    case Tick(id) => TickNotes(cfg, s, id);
    case _ =>
  }

  lemma QuietEventPiped(cfg: Config, s: System, e: Event)
    requires Coherent(s) && Piping(s) && Enabled(s, e)
    requires !e.Opened? && !e.Message? && !e.CloseEvent?
    ensures Piping(Step(cfg, s, e))
  {
    QuietFading(cfg, s, e);
    var s' := Step(cfg, s, e);
    FadingKeepsPiped(s.relay.world.manager, s.relay.world.net, s.log, s'.relay.world.manager, s'.relay.world.net,
      s'.log);
  }

  lemma StepKeepsPiping(cfg: Config, s: System, e: Event)
    requires Coherent(s) && Piping(s) && Enabled(s, e) && Disciplined(cfg, s, e)
    ensures Piping(Step(cfg, s, e))
  {
    match e
    case Opened(ws) =>
      NotedFrom(s);
      OpenKeepsPiped(s.relay.world.manager, ShapeOf(s), s.relay.world.net, s.log, ws);
    case Message(ws, frame, stamp) =>
      var route := RouteOf(cfg, s, ws, frame);
      if route.None? {
        FramePiped(cfg, s, ws, frame, stamp);
      } else {
        BlankIsAboutToRoute(s, ws);
        RoutedMessage(cfg, s, ws, frame, stamp);
        if route.value.Register? {
          RegisterPiped(cfg, s, ws, frame, stamp);
        } else if ClaimOf(cfg, s, ws, frame).Some? {
          ClaimPiped(cfg, s, ws, frame, stamp);
        } else {
          RefusedConnectPiped(cfg, s, ws, frame, stamp);
        }
      }
    case CloseEvent(ws) => ClosePiped(cfg, s, ws);
    case _ => QuietEventPiped(cfg, s, e);
  }
}
