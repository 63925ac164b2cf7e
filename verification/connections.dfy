/** Waiting servers, pairs and forwarding (packages/relay/src/connections.ts). */
module Connections {
  import opened Wrappers
  import opened Usernames
  import opened Sockets
  import Registry

  datatype Metadata = Metadata(
    appVersion: Option<string>,
    resumeProtocolVersion: Option<real>,
    renderProtocolVersion: Option<real>,
    capabilities: Option<seq<string>>)

  datatype ServerState = Waiting | Paired

  datatype ActiveServer = ActiveServer(
    username: string, installId: string, connectedAt: string, state: ServerState, metadata: Metadata)

  /** The serial number stands for the identity of the pair object. */
  datatype Pair = Pair(serial: nat, server: SocketId, client: SocketId)

  datatype Manager = Manager(
    waiting: map<string, SocketId>,
    pairs: set<Pair>,
    pairLookup: map<SocketId, Pair>,
    activeServers: map<SocketId, ActiveServer>,
    nextSerial: nat)

  /** Everything one call on the manager can change. */
  datatype World = World(table: Registry.Table, manager: Manager, net: Net)

  datatype RegistrationResult = Registered | Rejected(reason: Rejection)

  datatype ConnectionResult =
    | Connected(serverWs: SocketId, server: Option<ActiveServer>)
    | Refused(error: ConnectError)

  datatype Role = Server | Client

  datatype CloseResult =
    | WaitingServerClosed(server: Option<ActiveServer>)
    | PairDisconnected(initiator: Role, server: Option<ActiveServer>)
    | NoneClosed

  function EmptyManager(): Manager {
    Manager(map[], {}, map[], map[], 0)
  }

  function Lookup<K, V>(m: map<K, V>, k: K): Option<V> {
    if k in m then Some(m[k]) else None
  }

  /** The other end of a pair, chosen as the source chooses it. */
  function Other(p: Pair, ws: SocketId): SocketId {
    if p.server == ws then p.client else p.server
  }

  /** The new entry replaces whatever waited under its name. */
  function AddWaiting(m: Manager, ws: SocketId, entry: ActiveServer): Manager {
    var name := entry.username;
    var active := if name in m.waiting then m.activeServers - {m.waiting[name]} else m.activeServers;
    m.(waiting := m.waiting[name := ws], activeServers := active[ws := entry])
  }

  /** A client takes the server waiting under `name`. */
  function Claim(m: Manager, ws: SocketId, name: string): Manager
    requires name in m.waiting
  {
    var serverWs := m.waiting[name];
    var active :=
      if serverWs in m.activeServers then m.activeServers[serverWs := m.activeServers[serverWs].(state := Paired)]
      else m.activeServers;
    var pair := Pair(m.nextSerial, serverWs, ws);
    Manager(m.waiting - {name}, m.pairs + {pair}, m.pairLookup[serverWs := pair][ws := pair], active, m.nextSerial + 1)
  }

  function DropWaiting(m: Manager, ws: SocketId, name: string): Manager {
    m.(waiting := m.waiting - {name}, activeServers := m.activeServers - {ws})
  }

  function DropPair(m: Manager, p: Pair): Manager {
    m.(pairs := m.pairs - {p}, pairLookup := m.pairLookup - {p.server} - {p.client},
       activeServers := m.activeServers - {p.server})
  }

  function AfterRegister(w: World, ws: SocketId, name: string, installId: string, metadata: Metadata, now: string)
    : (World, RegistrationResult)
  {
    if !IsValidRelayUsername(name) then (w, Rejected(InvalidUsername))
    else if !Registry.MayRegister(w.table, name, installId) then (w, Rejected(UsernameTaken))
    else
      (World(
         Registry.RegisterRow(w.table, name, installId, now).0,
         AddWaiting(w.manager, ws, ActiveServer(name, installId, now, Waiting, metadata)),
         if name in w.manager.waiting then StartClose(w.net, w.manager.waiting[name]) else w.net),
       Registered)
  }

  function AfterConnect(w: World, ws: SocketId, name: string, now: string): (World, ConnectionResult) {
    if name !in w.table then (w, Refused(UnknownUsername))
    else if name !in w.manager.waiting then (w, Refused(ServerOffline))
    else
      var serverWs := w.manager.waiting[name];
      var m := Claim(w.manager, ws, name);
      (World(Registry.Touch(w.table, name, now), m, w.net), Connected(serverWs, Lookup(m.activeServers, serverWs)))
  }

  function AfterForward(m: Manager, net: Net, ws: SocketId, frame: Frame): Net {
    if ws in m.pairLookup then Send(net, Other(m.pairLookup[ws], ws), Piped(frame)) else net
  }

  function AfterClose(w: World, ws: SocketId, name: Option<string>): (World, CloseResult) {
    var m := w.manager;
    if name.Some? && name.value != "" && Lookup(m.waiting, name.value) == Some(ws) then
      (w.(manager := DropWaiting(m, ws, name.value)), WaitingServerClosed(Lookup(m.activeServers, ws)))
    else if ws in m.pairLookup then
      var p := m.pairLookup[ws];
      (World(w.table, DropPair(m, p), StartClose(w.net, Other(p, ws))),
       PairDisconnected(if p.server == ws then Server else Client, Lookup(m.activeServers, p.server)))
    else (w, NoneClosed)
  }

  class ConnectionManager {
    var waiting: map<string, SocketId>
    var pairs: set<Pair>
    var pairLookup: map<SocketId, Pair>
    var activeServers: map<SocketId, ActiveServer>
    var nextSerial: nat
    const registry: Registry.UsernameRegistry
    const network: Network

    constructor (registry: Registry.UsernameRegistry, network: Network)
      ensures this.registry == registry && this.network == network
      ensures View() == World(registry.rows, EmptyManager(), network.sockets)
    {
      this.registry, this.network := registry, network;
      waiting, pairs, pairLookup, activeServers, nextSerial := map[], {}, map[], map[], 0;
    }

    ghost function View(): World
      reads this, registry, network
    {
      World(registry.rows, Manager(waiting, pairs, pairLookup, activeServers, nextSerial), network.sockets)
    }

    method RegisterServer(ws: SocketId, name: string, installId: string, metadata: Metadata, now: string)
      returns (result: RegistrationResult)
      modifies this, registry, network
      ensures (View(), result) == AfterRegister(old(View()), ws, name, installId, metadata, now)
    {
      if !IsValidRelayUsername(name) {
        return Rejected(InvalidUsername);
      }
      var allowed := registry.CanRegister(name, installId);
      if !allowed {
        return Rejected(UsernameTaken);
      }
      var registered := registry.Register(name, installId, now);
      if !registered {
        // The first check already answered this one.
        assert false;
        return Rejected(UsernameTaken);
      }
      if name in waiting {
        var existing := waiting[name];
        activeServers := activeServers - {existing};
        network.Close(existing);
      }
      waiting := waiting[name := ws];
      activeServers := activeServers[ws := ActiveServer(name, installId, now, Waiting, metadata)];
      return Registered;
    }

    method ConnectClient(ws: SocketId, name: string, now: string) returns (result: ConnectionResult)
      modifies this, registry
      ensures (View(), result) == AfterConnect(old(View()), ws, name, now)
    {
      var known := registry.IsRegistered(name);
      if !known {
        return Refused(UnknownUsername);
      }
      if name !in waiting {
        return Refused(ServerOffline);
      }
      var serverWs := waiting[name];
      waiting := waiting - {name};
      if serverWs in activeServers {
        activeServers := activeServers[serverWs := activeServers[serverWs].(state := Paired)];
      }
      var pair := Pair(nextSerial, serverWs, ws);
      nextSerial := nextSerial + 1;
      pairs := pairs + {pair};
      pairLookup := pairLookup[serverWs := pair];
      pairLookup := pairLookup[ws := pair];
      registry.UpdateLastSeen(name, now);
      return Connected(serverWs, Lookup(activeServers, serverWs));
    }

    method Forward(ws: SocketId, frame: Frame)
      modifies network
      ensures View() == old(View()).(net := AfterForward(old(View()).manager, old(View()).net, ws, frame))
    {
      if ws !in pairLookup {
        return;
      }
      var pair := pairLookup[ws];
      var target := if pair.server == ws then pair.client else pair.server;
      network.SendTo(target, Piped(frame));
    }

    method HandleClose(ws: SocketId, name: Option<string>) returns (result: CloseResult)
      modifies this, network
      ensures (View(), result) == AfterClose(old(View()), ws, name)
    {
      if name.Some? && name.value != "" {
        if name.value in waiting && waiting[name.value] == ws {
          var info := Lookup(activeServers, ws);
          waiting := waiting - {name.value};
          activeServers := activeServers - {ws};
          return WaitingServerClosed(info);
        }
      }
      if ws in pairLookup {
        var pair := pairLookup[ws];
        var info := Lookup(activeServers, pair.server);
        pairs := pairs - {pair};
        pairLookup := pairLookup - {pair.server};
        pairLookup := pairLookup - {pair.client};
        activeServers := activeServers - {pair.server};
        var other := if pair.server == ws then pair.client else pair.server;
        network.Close(other);
        return PairDisconnected(if pair.server == ws then Server else Client, info);
      }
      return NoneClosed;
    }

    method GetWaitingCount() returns (n: nat)
      ensures n == |View().manager.waiting|
    {
      n := |waiting|;
    }

    method GetPairCount() returns (n: nat)
      ensures n == |View().manager.pairs|
    {
      n := |pairs|;
    }
  }
}
