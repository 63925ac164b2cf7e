/** The relay's message, close, pong and timer handlers (packages/relay/src/ws-handler.ts). */
module WsHandler {
  import opened Bytes
  import opened Wrappers
  import opened Sockets
  import opened Connections
  import Registry

  /** What a text frame means to the router once it has been read as JSON. */
  datatype Routing =
    | NotJson
    | Register(username: string, installId: string, metadata: Metadata)
    | Connect(username: string)
    | OtherJson

  /** JSON reading is foreign code: the handler works for every `parse`. */
  datatype Config = Config(pingIntervalMs: nat, pongTimeoutMs: nat, parse: seq<Byte> -> Routing)

  type TimerId = nat

  /** The per-socket record. */
  datatype ConnectionState = ConnectionState(
    username: Option<string>,
    isServer: Option<bool>,
    paired: bool,
    pingInterval: Option<TimerId>,
    pongTimeout: Option<TimerId>,
    lastPong: Option<nat>)

  /** A pending timer, with the socket and the record its callback captured. */
  datatype Timer =
    | Interval(ws: SocketId, ref: nat, due: nat)
    | Timeout(ws: SocketId, ref: nat, due: nat)

  datatype Telemetry =
    | ServerRegister(username: string, installId: string)
    | ClientConnectSuccess(username: string, owner: Option<string>)
    | ClientConnectError(username: string, reason: ConnectError)
    | PairDisconnect(username: string, initiator: Role)
    | ServerDisconnect(username: string, installId: string, connectionState: ServerState)

  /**
   * `stateOf` is the weak map from sockets to records; records keep their
   * identity after they are detached, since timer callbacks still hold them.
   */
  datatype Relay = Relay(
    world: World,
    stateOf: map<SocketId, nat>,
    records: map<nat, ConnectionState>,
    nextRecord: nat,
    timers: map<TimerId, Timer>,
    nextTimer: TimerId,
    now: nat,
    telemetry: seq<Telemetry>)

  const FreshState := ConnectionState(None, None, false, None, None, None)

  function RecordAt(r: Relay, ref: nat): ConnectionState {
    if ref in r.records then r.records[ref] else FreshState
  }

  function StateOf(r: Relay, ws: SocketId): ConnectionState {
    if ws in r.stateOf then RecordAt(r, r.stateOf[ws]) else FreshState
  }

  /** `getState`: creates the record on first use. */
  function Attach(r: Relay, ws: SocketId): (r': Relay)
    ensures ws in r'.stateOf
  {
    if ws in r.stateOf then r
    else
      r.(stateOf := r.stateOf[ws := r.nextRecord], records := r.records[r.nextRecord := FreshState],
         nextRecord := r.nextRecord + 1)
  }

  function SetRecord(r: Relay, ref: nat, st: ConnectionState): Relay {
    r.(records := r.records[ref := st])
  }

  function WithReply(r: Relay, ws: SocketId, reply: Reply): Relay {
    r.(world := r.world.(net := Send(r.world.net, ws, Control(reply))))
  }

  function Drop(timers: map<TimerId, Timer>, id: Option<TimerId>): map<TimerId, Timer> {
    if id.Some? then timers - {id.value} else timers
  }

  function StopPing(r: Relay, ref: nat): Relay {
    var st := RecordAt(r, ref);
    SetRecord(r, ref, st.(pingInterval := None, pongTimeout := None))
    .(timers := Drop(Drop(r.timers, st.pingInterval), st.pongTimeout))
  }

  function StartPing(cfg: Config, r: Relay, ws: SocketId, ref: nat): Relay {
    SetRecord(r, ref, RecordAt(r, ref).(pingInterval := Some(r.nextTimer)))
    .(timers := r.timers[r.nextTimer := Interval(ws, ref, r.now + cfg.pingIntervalMs)], nextTimer := r.nextTimer + 1)
  }

  function Log(r: Relay, t: Telemetry): Relay {
    r.(telemetry := r.telemetry + [t])
  }

  function OnRegister(cfg: Config, r: Relay, ws: SocketId, msg: Routing, stamp: string): Relay
    requires msg.Register? && ws in r.stateOf
  {
    var ref := r.stateOf[ws];
    var (world, result) := AfterRegister(r.world, ws, msg.username, msg.installId, msg.metadata, stamp);
    var r1 := r.(world := world);
    match result
    case Registered =>
      var st := RecordAt(r1, ref).(username := Some(msg.username), isServer := Some(true));
      var r2 := WithReply(SetRecord(r1, ref, st), ws, ServerRegistered);
      Log(StartPing(cfg, r2, ws, ref), ServerRegister(msg.username, msg.installId))
    case Rejected(reason) =>
      var r2 := WithReply(r1, ws, ServerRejected(reason));
      r2.(world := r2.world.(net := StartClose(r2.world.net, ws)))
  }

  /** Both records learn of the pairing, and the server's timers stop. */
  function MarkPaired(r: Relay, ws: SocketId, name: string, serverWs: SocketId): Relay
    requires ws in r.stateOf
  {
    var st := StateOf(r, ws).(username := Some(name), isServer := Some(false), paired := true);
    MarkServerPaired(SetRecord(r, r.stateOf[ws], st), serverWs)
  }

  function MarkServerPaired(r: Relay, serverWs: SocketId): Relay {
    var r1 := Attach(r, serverWs);
    var ref := r1.stateOf[serverWs];
    StopPing(SetRecord(r1, ref, RecordAt(r1, ref).(paired := true)), ref)
  }

  function OnConnect(r: Relay, ws: SocketId, msg: Routing, stamp: string): Relay
    requires msg.Connect? && ws in r.stateOf
  {
    var (world, result) := AfterConnect(r.world, ws, msg.username, stamp);
    var r1 := r.(world := world);
    match result
    case Connected(serverWs, server) =>
      Log(WithReply(MarkPaired(r1, ws, msg.username, serverWs), ws, ClientConnected),
          ClientConnectSuccess(msg.username, if server.Some? then Some(server.value.installId) else None))
    case Refused(error) =>
      var r2 := Log(WithReply(r1, ws, ClientError(error)), ClientConnectError(msg.username, error));
      r2.(world := r2.world.(net := StartClose(r2.world.net, ws)))
  }

  function OnMessage(cfg: Config, r: Relay, ws: SocketId, frame: Frame, stamp: string): Relay {
    var r0 := Attach(r, ws);
    if StateOf(r0, ws).paired then
      r0.(world := r0.world.(net := AfterForward(r0.world.manager, r0.world.net, ws, frame)))
    else if frame.isBinary then r0
    else
      match cfg.parse(frame.data)
      case NotJson => r0
      case Register(_, _, _) => OnRegister(cfg, r0, ws, cfg.parse(frame.data), stamp)
      case Connect(_) => OnConnect(r0, ws, cfg.parse(frame.data), stamp)
      case OtherJson => r0
  }

  function CloseTelemetry(name: Option<string>, result: CloseResult): seq<Telemetry> {
    if name.None? || name.value == "" then []
    else
      match result
      case WaitingServerClosed(server) =>
        if server.Some? then [ServerDisconnect(name.value, server.value.installId, Waiting)] else []
      case PairDisconnected(initiator, server) =>
        [PairDisconnect(name.value, initiator)]
        + (if initiator.Server? && server.Some?
           then [ServerDisconnect(name.value, server.value.installId, Paired)] else [])
      case NoneClosed => []
  }

  function OnClose(r: Relay, ws: SocketId): Relay {
    var r0 := Attach(r, ws);
    var r1 := StopPing(r0, r0.stateOf[ws]);
    var name := StateOf(r1, ws).username;
    var (world, result) := AfterClose(r1.world, ws, name);
    r1.(world := world, telemetry := r1.telemetry + CloseTelemetry(name, result), stateOf := r1.stateOf - {ws})
  }

  function OnPong(r: Relay, ws: SocketId): Relay {
    var r0 := Attach(r, ws);
    var st := StateOf(r0, ws);
    SetRecord(r0, r0.stateOf[ws], st.(lastPong := Some(r0.now), pongTimeout := None))
    .(timers := Drop(r0.timers, st.pongTimeout))
  }

  /** The interval stays armed unless its own callback cleared it. */
  function Rearm(cfg: Config, timers: map<TimerId, Timer>, id: TimerId): map<TimerId, Timer> {
    if id in timers && timers[id].Interval? then timers[id := timers[id].(due := timers[id].due + cfg.pingIntervalMs)]
    else timers
  }

  /** The interval callback. */
  function OnTick(cfg: Config, r: Relay, id: TimerId): Relay
    requires id in r.timers && r.timers[id].Interval?
  {
    var t := r.timers[id];
    var st := RecordAt(r, t.ref);
    var r1 :=
      if st.paired then
        if st.pingInterval.Some? then
          SetRecord(r, t.ref, st.(pingInterval := None)).(timers := Drop(r.timers, st.pingInterval))
        else r
      else
        SetRecord(r, t.ref, st.(pongTimeout := Some(r.nextTimer)))
        .(timers := r.timers[r.nextTimer := Timeout(t.ws, t.ref, r.now + cfg.pongTimeoutMs)],
          nextTimer := r.nextTimer + 1);
    r1.(timers := Rearm(cfg, r1.timers, id))
  }

  /** The pong-timeout callback: the record still names the timer that fired. */
  function OnTimeout(r: Relay, id: TimerId): Relay
    requires id in r.timers
  {
    r.(timers := r.timers - {id}, world := r.world.(net := StartClose(r.world.net, r.timers[id].ws)))
  }

  class Handler {
    var stateOf: map<SocketId, nat>
    var records: map<nat, ConnectionState>
    var nextRecord: nat
    var timers: map<TimerId, Timer>
    var nextTimer: TimerId
    var now: nat
    var telemetry: seq<Telemetry>
    const cfg: Config
    const manager: ConnectionManager

    constructor (cfg: Config, manager: ConnectionManager)
      ensures this.cfg == cfg && this.manager == manager
      ensures View() == Relay(manager.View(), map[], map[], 0, map[], 0, 0, [])
    {
      this.cfg, this.manager := cfg, manager;
      stateOf, records, nextRecord, timers, nextTimer, now, telemetry := map[], map[], 0, map[], 0, 0, [];
    }

    ghost function View(): Relay
      reads this, manager, manager.registry, manager.network
    {
      Relay(manager.View(), stateOf, records, nextRecord, timers, nextTimer, now, telemetry)
    }

    method GetState(ws: SocketId) returns (ref: nat)
      modifies this
      ensures View() == Attach(old(View()), ws) && ref == stateOf[ws]
    {
      if ws !in stateOf {
        records := records[nextRecord := FreshState];
        stateOf := stateOf[ws := nextRecord];
        nextRecord := nextRecord + 1;
      }
      ref := stateOf[ws];
    }

    /** Reads the record behind a reference. */
    function Get(ref: nat): ConnectionState
      reads this
    {
      if ref in records then records[ref] else FreshState
    }

    method SendReply(ws: SocketId, reply: Reply)
      modifies manager.network
      ensures View() == WithReply(old(View()), ws, reply)
    {
      manager.network.SendTo(ws, Control(reply));
    }

    method StartPingInterval(ws: SocketId, ref: nat)
      modifies this
      ensures View() == StartPing(cfg, old(View()), ws, ref)
    {
      timers := timers[nextTimer := Interval(ws, ref, now + cfg.pingIntervalMs)];
      records := records[ref := Get(ref).(pingInterval := Some(nextTimer))];
      nextTimer := nextTimer + 1;
    }

    method StopPingInterval(ref: nat)
      modifies this
      ensures View() == StopPing(old(View()), ref)
    {
      var st := Get(ref);
      if st.pingInterval.Some? {
        timers := timers - {st.pingInterval.value};
        st := st.(pingInterval := None);
      }
      if st.pongTimeout.Some? {
        timers := timers - {st.pongTimeout.value};
        st := st.(pongTimeout := None);
      }
      records := records[ref := st];
    }

    method HandleRegister(ws: SocketId, ref: nat, msg: Routing, stamp: string)
      requires msg.Register? && ws in stateOf && ref == stateOf[ws]
      modifies this, manager, manager.registry, manager.network
      ensures View() == OnRegister(cfg, old(View()), ws, msg, stamp)
    {
      var result := manager.RegisterServer(ws, msg.username, msg.installId, msg.metadata, stamp);
      match result
      case Registered =>
        records := records[ref := Get(ref).(username := Some(msg.username), isServer := Some(true))];
        SendReply(ws, ServerRegistered);
        StartPingInterval(ws, ref);
        telemetry := telemetry + [ServerRegister(msg.username, msg.installId)];
      case Rejected(reason) =>
        SendReply(ws, ServerRejected(reason));
        manager.network.Close(ws);
    }

    method HandleConnect(ws: SocketId, ref: nat, msg: Routing, stamp: string)
      requires msg.Connect? && ws in stateOf && ref == stateOf[ws]
      modifies this, manager, manager.registry, manager.network
      ensures View() == OnConnect(old(View()), ws, msg, stamp)
    {
      hide AfterConnect;
      ghost var was := old(View());
      var result := manager.ConnectClient(ws, msg.username, stamp);
      match result
      case Connected(serverWs, server) =>
        records := records[ref := Get(ref).(username := Some(msg.username), isServer := Some(false), paired := true)];
        var serverRef := GetState(serverWs);
        records := records[serverRef := Get(serverRef).(paired := true)];
        StopPingInterval(serverRef);
        assert View() ==
          MarkPaired(was.(world := AfterConnect(was.world, ws, msg.username, stamp).0), ws, msg.username, serverWs);
        hide MarkPaired;
        SendReply(ws, ClientConnected);
        telemetry := telemetry
        + [ClientConnectSuccess(msg.username, if server.Some? then Some(server.value.installId) else None)];
      case Refused(error) =>
        SendReply(ws, ClientError(error));
        telemetry := telemetry + [ClientConnectError(msg.username, error)];
        manager.network.Close(ws);
    }

    method HandleMessage(ws: SocketId, frame: Frame, stamp: string)
      modifies this, manager, manager.registry, manager.network
      ensures View() == OnMessage(cfg, old(View()), ws, frame, stamp)
    {
      var ref := GetState(ws);
      if Get(ref).paired {
        manager.Forward(ws, frame);
        return;
      }
      if frame.isBinary {
        return;
      }
      var msg := cfg.parse(frame.data);
      match msg
      case NotJson =>
      case Register(_, _, _) => HandleRegister(ws, ref, msg, stamp);
      case Connect(_) => HandleConnect(ws, ref, msg, stamp);
      case OtherJson =>
    }

    method HandleClose(ws: SocketId)
      modifies this, manager, manager.network
      ensures View() == OnClose(old(View()), ws)
    {
      hide AfterClose;
      var ref := GetState(ws);
      StopPingInterval(ref);
      var name := Get(ref).username;
      var result := manager.HandleClose(ws, name);
      if result.PairDisconnected? && name.Some? && name.value != "" {
        telemetry := telemetry + [PairDisconnect(name.value, result.initiator)];
      }
      if result.WaitingServerClosed? && result.server.Some? && name.Some? && name.value != "" {
        telemetry := telemetry + [ServerDisconnect(name.value, result.server.value.installId, Waiting)];
      }
      if result.PairDisconnected? && result.initiator.Server? && result.server.Some? && name.Some? && name.value != "" {
        telemetry := telemetry + [ServerDisconnect(name.value, result.server.value.installId, Paired)];
      }
      stateOf := stateOf - {ws};
    }

    method HandlePong(ws: SocketId)
      modifies this
      ensures View() == OnPong(old(View()), ws)
    {
      var ref := GetState(ws);
      var st := Get(ref).(lastPong := Some(now));
      if st.pongTimeout.Some? {
        timers := timers - {st.pongTimeout.value};
        st := st.(pongTimeout := None);
      }
      records := records[ref := st];
    }

    method FireInterval(id: TimerId)
      requires id in timers && timers[id].Interval?
      modifies this
      ensures View() == OnTick(cfg, old(View()), id)
    {
      var t := timers[id];
      var st := Get(t.ref);
      if st.paired {
        if st.pingInterval.Some? {
          timers := timers - {st.pingInterval.value};
          records := records[t.ref := st.(pingInterval := None)];
        }
      } else {
        timers := timers[nextTimer := Timeout(t.ws, t.ref, now + cfg.pongTimeoutMs)];
        records := records[t.ref := st.(pongTimeout := Some(nextTimer))];
        nextTimer := nextTimer + 1;
      }
      if id in timers && timers[id].Interval? {
        timers := timers[id := timers[id].(due := timers[id].due + cfg.pingIntervalMs)];
      }
    }

    method FireTimeout(id: TimerId)
      requires id in timers
      modifies this, manager.network
      ensures View() == OnTimeout(old(View()), id)
    {
      var ws := timers[id].ws;
      timers := timers - {id};
      manager.network.Close(ws);
    }
  }
}
