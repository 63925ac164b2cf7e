/** What a close clears when sockets may route more than once, and why the relay needs them not to. */
module RelayDiscipline {
  import opened Wrappers
  import opened Sockets
  import opened Connections
  import opened WsHandler
  import opened RelaySystem
  import opened ConnectionIndex
  import opened RelayLinks
  import opened RelayOwnership
  import opened RelayTelemetry
  import opened RelayTheorems
  import Conservation
  import Registry
  import Usernames

  // ---- What one close clears ----

  predicate IsEnd(p: Pair, ws: SocketId) {
    p.server == ws || p.client == ws
  }

  /**
   * The socket is named at most where its close event looks: it waits under its
   * recorded name only and is in no pair; or it does not wait, and the pair that
   * it looks up is its only one and explains its entry; or it is not named.
   */
  ghost predicate NamedWhereLooked(m: Manager, ws: SocketId, name: Option<string>) {
    if name.Some? && name.value != "" && IsWaitingAs(m, ws, name.value) then
      && (forall n :: IsWaitingAs(m, ws, n) ==> n == name.value)
      && ws !in m.pairLookup
      && forall p :: p in m.pairs ==> !IsEnd(p, ws)
    else if ws in m.pairLookup then
      && (forall n :: !IsWaitingAs(m, ws, n))
      && (forall p :: p in m.pairs && IsEnd(p, ws) ==> p == m.pairLookup[ws])
      && (ws in m.activeServers ==> ws == m.pairLookup[ws].server)
    else !Held(m, ws)
  }

  /** A close leaves the socket in none of the collections exactly if it is named only where its close event looks. */
  lemma CloseClearsExactly(w: World, ws: SocketId, name: Option<string>)
    requires Conservation.EntriesLive(w.manager)
    ensures !Held(AfterClose(w, ws, name).0.manager, ws) <==> NamedWhereLooked(w.manager, ws, name)
  {
    var m, m' := w.manager, AfterClose(w, ws, name).0.manager;
    if name.Some? && name.value != "" && IsWaitingAs(m, ws, name.value) {
      assert forall n :: IsWaitingAs(m', ws, n) <==> IsWaitingAs(m, ws, n) && n != name.value;
    } else {
      assert forall n :: IsWaitingAs(m', ws, n) <==> IsWaitingAs(m, ws, n);
    }
  }

  lemma CloseNamesNobody(w: World, ws: SocketId, name: Option<string>, x: SocketId)
    requires Held(AfterClose(w, ws, name).0.manager, x)
    ensures Held(w.manager, x)
  {
    if n :| IsWaitingAs(AfterClose(w, ws, name).0.manager, x, n) {
      assert IsWaitingAs(w.manager, x, n);
    }
  }

  // ---- Whole runs ----

  /** Names only those that were named before, and perhaps one more; and no socket is more closed. */
  ghost predicate NamesAtMost(s: System, s': System, ws: SocketId) {
    && (forall x :: Held(s'.relay.world.manager, x) ==> Held(s.relay.world.manager, x) || x == ws)
    && (forall x :: PhaseIn(s', x).Closed? ==> PhaseIn(s, x).Closed?)
  }

  lemma RegisterNames(w: World, ws: SocketId, msg: Routing, stamp: string, x: SocketId)
    requires msg.Register?
    requires Held(AfterRegister(w, ws, msg.username, msg.installId, msg.metadata, stamp).0.manager, x)
    ensures Held(w.manager, x) || x == ws
  {
    var m' := AfterRegister(w, ws, msg.username, msg.installId, msg.metadata, stamp).0.manager;
    if n :| IsWaitingAs(m', x, n) {
      assert IsWaitingAs(w.manager, x, n) || x == ws;
    }
  }

  lemma ClaimNames(m: Manager, ws: SocketId, name: string, x: SocketId)
    requires name in m.waiting && Held(Claim(m, ws, name), x)
    ensures Held(m, x) || x == ws
  {
    assert IsWaitingAs(m, m.waiting[name], name);
    if n :| IsWaitingAs(Claim(m, ws, name), x, n) {
      assert IsWaitingAs(m, x, n);
    }
  }

  lemma MessageNames(cfg: Config, s: System, ws: SocketId, frame: Frame, stamp: string)
    requires Records(s.relay) && Enabled(s, Message(ws, frame, stamp))
    ensures NamesAtMost(s, Step(cfg, s, Message(ws, frame, stamp)), ws)
  {
    var route := RouteOf(cfg, s, ws, frame);
    if route.None? {
      UnroutedEffect(cfg, s.relay, ws, frame, stamp);
    } else {
      RoutedMessage(cfg, s, ws, frame, stamp);
      var msg := route.value;
      if msg.Register? {
        RegisterEffect(cfg, s.relay, ws, msg, stamp);
        forall x | Held(AfterRegister(s.relay.world, ws, msg.username, msg.installId, msg.metadata, stamp).0.manager, x)
          ensures Held(s.relay.world.manager, x) || x == ws
        {
          RegisterNames(s.relay.world, ws, msg, stamp, x);
        }
      } else if ClaimOf(cfg, s, ws, frame).Some? {
        ConnectEffect(s.relay, ws, msg, stamp);
        forall x | Held(Claim(s.relay.world.manager, ws, msg.username), x)
          ensures Held(s.relay.world.manager, x) || x == ws
        {
          ClaimNames(s.relay.world.manager, ws, msg.username, x);
        }
      } else {
        RefusedConnectEffect(s.relay, ws, msg, stamp);
      }
    }
    hide OnMessage, OnRegister, OnConnect, AfterRegister, Claim, Held, Records;
  }

  lemma StepKeepsHeldLive(cfg: Config, s: System, e: Event)
    requires Accounted(s) && Enabled(s, e) && HeldAreLive(s) && !e.CloseEvent?
    ensures HeldAreLive(Step(cfg, s, e))
  {
    AccountedKnows(s);
    if e.Message? {
      MessageNames(cfg, s, e.ws, e.frame, e.stamp);
      hide Step;
    }
  }

  lemma CloseManagerAndPhases(cfg: Config, s: System, ws: SocketId)
    requires Accounted(s) && Enabled(s, CloseEvent(ws))
    ensures var s' := Step(cfg, s, CloseEvent(ws));
      && s'.relay.world.manager == AfterClose(s.relay.world, ws, FaceOf(s.relay, ws).username).0.manager
      && forall x :: PhaseIn(s', x).Closed? <==> PhaseIn(s, x).Closed? || x == ws
  {
    AccountedKnows(s);
    assert Step(cfg, s, CloseEvent(ws)).relay == OnClose(SeenClosed(s.relay, ws), ws);
    hide Accounted, NamesKnown, OnClose, AfterClose, FaceOf;
    CloseKeepsNames(cfg, s, ws);
    SameRecords(s.relay, SeenClosed(s.relay, ws));
    ClosedEffect(SeenClosed(s.relay, ws), ws);
    hide Step;
  }

  lemma CloseKeepsHeldLive(cfg: Config, s: System, ws: SocketId)
    requires Accounted(s) && Enabled(s, CloseEvent(ws)) && HeldAreLive(s)
    ensures HeldAreLive(Step(cfg, s, CloseEvent(ws))) <==>
      NamedWhereLooked(s.relay.world.manager, ws, FaceOf(s.relay, ws).username)
  {
    var name := FaceOf(s.relay, ws).username;
    CloseManagerAndPhases(cfg, s, ws);
    AccountedKnows(s);
    CloseClearsExactly(s.relay.world, ws, name);
    var s' := Step(cfg, s, CloseEvent(ws));
    forall x | Held(s'.relay.world.manager, x) ensures Held(s.relay.world.manager, x) {
      CloseNamesNobody(s.relay.world, ws, name, x);
    }
    hide Step, Held, NamedWhereLooked, AfterClose;
  }

  /** The close events of the run up to state `i` found their sockets named only where they looked. */
  ghost predicate ClosesLookRight(states: seq<System>, events: seq<Event>, i: nat)
    requires i <= |events| && |states| == |events| + 1
  {
    forall k :: 0 <= k < i && events[k].CloseEvent? ==>
      NamedWhereLooked(states[k].relay.world.manager, events[k].ws, FaceOf(states[k].relay, events[k].ws).username)
  }

  lemma {:induction false} LookedRightIsLive(cfg: Config, states: seq<System>, events: seq<Event>, i: nat)
    requires IsRun(cfg, states, events) && i <= |events| && ClosesLookRight(states, events, i)
    ensures HeldAreLive(states[i])
  {
    if i == 0 {
      var table :| states[0] == InitialSystem(table);
    } else {
      LookedRightIsLive(cfg, states, events, i - 1);
      RunAccounted(cfg, states, events, i - 1);
      hide Accounted, HeldAreLive, NamedWhereLooked, Step;
      if events[i - 1].CloseEvent? {
        CloseKeepsHeldLive(cfg, states[i - 1], events[i - 1].ws);
      } else {
        StepKeepsHeldLive(cfg, states[i - 1], events[i - 1]);
      }
    }
  }

  /**
   * In every run, disciplined or not, the collections name only sockets whose
   * close event is still to come, at all times, exactly if every close event
   * finds its socket named only where it looks.
   */
  lemma HeldLiveExactly(cfg: Config, states: seq<System>, events: seq<Event>)
    requires IsRun(cfg, states, events)
    ensures (forall i :: 0 <= i <= |events| ==> HeldAreLive(states[i])) <==> ClosesLookRight(states, events, |events|)
  {
    if ClosesLookRight(states, events, |events|) {
      forall i | 0 <= i <= |events| ensures HeldAreLive(states[i]) {
        LookedRightIsLive(cfg, states, events, i);
      }
    }
    if forall i :: 0 <= i <= |events| ==> HeldAreLive(states[i]) {
      forall k | 0 <= k < |events| && events[k].CloseEvent?
        ensures NamedWhereLooked(
          states[k].relay.world.manager, events[k].ws, FaceOf(states[k].relay, events[k].ws).username)
      {
        RunAccounted(cfg, states, events, k);
        assert HeldAreLive(states[k + 1]);
        CloseKeepsHeldLive(cfg, states[k], events[k].ws);
        hide Accounted, HeldAreLive, NamedWhereLooked, Step;
      }
    }
  }

  /** So such a run leaves nothing behind once all sockets have closed. */
  lemma LookedRightDrains(cfg: Config, states: seq<System>, events: seq<Event>)
    requires IsRun(cfg, states, events) && ClosesLookRight(states, events, |events|)
    requires forall ws :: PhaseIn(states[|events|], ws).Closed?
    ensures var m := states[|events|].relay.world.manager;
      m.waiting == map[] && m.pairs == {} && m.pairLookup == map[] && m.activeServers == map[]
  {
    LookedRightIsLive(cfg, states, events, |events|);
    NobodyHeld(states[|events|]);
  }

  // ---- Two ways to leak ----

  ghost predicate Reachable(cfg: Config, s: System) {
    exists states, events :: Reaches(cfg, states, events, s)
  }

  lemma OneMore(cfg: Config, s: System, e: Event)
    requires Reachable(cfg, s) && Enabled(s, e)
    ensures Reachable(cfg, Step(cfg, s, e))
  {
    var states, events :| Reaches(cfg, states, events, s);
    ExtendRun(cfg, states, events, s, e);
  }

  /** The manager without its active servers, the names in the table, the faces of the live sockets, and all sockets. */
  datatype Scene = Scene(m: Manager, names: set<string>, faces: map<SocketId, Face>, known: set<SocketId>)

  function Bare(m: Manager): Manager {
    m.(activeServers := map[])
  }

  ghost predicate Shows(s: System, sc: Scene) {
    && Kept(s) && s.relay.world.net.Keys == sc.known
    && (forall x :: x in sc.faces <==> !PhaseIn(s, x).Closed?)
    && (forall x :: x in sc.faces ==> FaceOf(s.relay, x) == sc.faces[x])
    && s.relay.world.table.Keys == sc.names
    && Bare(s.relay.world.manager) == sc.m
  }

  predicate IsRegister(cfg: Config, frame: Frame, name: string) {
    !frame.isBinary && cfg.parse(frame.data).Register? && cfg.parse(frame.data).username == name
  }

  predicate IsConnect(cfg: Config, frame: Frame, name: string) {
    !frame.isBinary && cfg.parse(frame.data).Connect? && cfg.parse(frame.data).username == name
  }

  function AfterOpening(sc: Scene, ws: SocketId): Scene {
    sc.(faces := sc.faces[ws := Face(None, false)], known := sc.known + {ws})
  }

  function AfterNaming(sc: Scene, ws: SocketId, name: string): Scene {
    sc.(m := sc.m.(waiting := sc.m.waiting[name := ws]), names := sc.names + {name},
        faces := sc.faces[ws := Face(Some(name), false)])
  }

  function AfterPairing(sc: Scene, ws: SocketId, name: string): Scene
    requires name in sc.m.waiting && sc.m.waiting[name] in sc.faces
  {
    var server := sc.m.waiting[name];
    sc.(m := Bare(Claim(sc.m, ws, name)),
        faces := sc.faces[server := sc.faces[server].(paired := true)][ws := Face(Some(name), true)])
  }

  function AfterLeaving(sc: Scene, ws: SocketId): Scene
    requires ws in sc.faces
  {
    sc.(m := Bare(AfterClose(World(map[], sc.m, map[]), ws, sc.faces[ws].username).0.manager), faces := sc.faces - {ws})
  }

  lemma Begin(cfg: Config) returns (s: System)
    ensures Reachable(cfg, s) && Shows(s, Scene(EmptyManager(), {}, map[], {}))
  {
    s := InitialSystem(map[]);
    assert Reaches(cfg, [s], [], s);
  }

  lemma OpeningShows(cfg: Config, s: System, sc: Scene, ws: SocketId)
    requires Shows(s, sc) && ws !in sc.known
    ensures Enabled(s, Opened(ws)) && Shows(Step(cfg, s, Opened(ws)), AfterOpening(sc, ws))
  {
    OpenedShape(cfg, s, ws);
    OpenedFaces(cfg, s, ws);
    hide Kept, Records, FaceOf, ShapeOf;
  }

  lemma OpenedFaces(cfg: Config, s: System, ws: SocketId)
    requires Kept(s) && Enabled(s, Opened(ws))
    ensures forall x :: FaceOf(Step(cfg, s, Opened(ws)).relay, x) == FaceOf(s.relay, x)
    ensures FaceOf(s.relay, ws) == Face(None, false)
  {
  }

  /** What `Shows` says besides `Kept`, and what it takes to say it again. */
  lemma ShownFrom(s: System, s': System, sc: Scene, sc': Scene)
    requires Shows(s, sc) && Kept(s') && sc'.known == sc.known && s'.relay.world.net.Keys == s.relay.world.net.Keys
    requires sc'.faces.Keys == sc.faces.Keys && forall x :: PhaseIn(s', x).Closed? <==> PhaseIn(s, x).Closed?
    requires forall x :: x in sc'.faces ==> FaceOf(s'.relay, x) == sc'.faces[x]
    requires s'.relay.world.table.Keys == sc'.names && Bare(s'.relay.world.manager) == sc'.m
    ensures Shows(s', sc')
  {
    hide Kept, FaceOf;
  }

  lemma Shown(cfg: Config, s: System, sc: Scene, ws: SocketId, frame: Frame)
    requires Shows(s, sc) && ws in sc.faces && !sc.faces[ws].paired
    ensures Kept(s) && Enabled(s, Message(ws, frame, "")) && Bare(s.relay.world.manager) == sc.m
    ensures forall x :: x in sc.faces ==> FaceOf(s.relay, x) == sc.faces[x] && !PhaseIn(s, x).Closed?
    ensures !frame.isBinary && (cfg.parse(frame.data).Register? || cfg.parse(frame.data).Connect?) ==>
      RouteOf(cfg, s, ws, frame) == Some(cfg.parse(frame.data))
  {
    assert StateOf(s.relay, ws).paired == FaceOf(s.relay, ws).paired;
  }

  lemma NamingWorld(w: World, ws: SocketId, msg: Routing)
    requires msg.Register? && Usernames.IsValidRelayUsername(msg.username) && msg.username !in w.table
    ensures var (w', result) := AfterRegister(w, ws, msg.username, msg.installId, msg.metadata, "");
      && result.Registered?
      && Registry.RegisterRow(w.table, msg.username, msg.installId, "").0.Keys == w.table.Keys + {msg.username}
      && Registry.MayRegister(w.table, msg.username, msg.installId)
      && Bare(w'.manager) == Bare(w.manager).(waiting := w.manager.waiting[msg.username := ws])
  {
  }

  lemma StepTable(cfg: Config, s: System, ws: SocketId, frame: Frame)
    requires Enabled(s, Message(ws, frame, ""))
    ensures Step(cfg, s, Message(ws, frame, "")).relay.world.table == TableAfter(cfg, s, ws, frame, "")
  {
    MessageTable(cfg, s, ws, frame, "");
  }

  /** A free valid name is granted to a socket that is not paired, whatever it registered before. */
  lemma NamingShows(cfg: Config, s: System, sc: Scene, ws: SocketId, frame: Frame, name: string)
    requires Shows(s, sc) && ws in sc.faces && !sc.faces[ws].paired
    requires IsRegister(cfg, frame, name) && Usernames.IsValidRelayUsername(name) && name !in sc.names
    requires name !in sc.m.waiting
    ensures Enabled(s, Message(ws, frame, "")) && Shows(Step(cfg, s, Message(ws, frame, "")), AfterNaming(sc, ws, name))
  {
    hide Kept, FaceOf, Step, AfterRegister, RouteOf, ClaimOf, Registry.RegisterRow, Registry.MayRegister,
      Usernames.IsValidRelayUsername;
    Shown(cfg, s, sc, ws, frame);
    StepTable(cfg, s, ws, frame);
    NamingWorld(s.relay.world, ws, cfg.parse(frame.data));
    RegisterFacts(cfg, s, ws, frame, "");
    ShownFrom(s, Step(cfg, s, Message(ws, frame, "")), sc, AfterNaming(sc, ws, name));
  }

  lemma PairingClaim(cfg: Config, s: System, ws: SocketId, frame: Frame, name: string)
    requires RouteOf(cfg, s, ws, frame) == Some(cfg.parse(frame.data)) && IsConnect(cfg, frame, name)
    requires name in s.relay.world.table && name in s.relay.world.manager.waiting
    ensures ClaimOf(cfg, s, ws, frame) == Some(s.relay.world.manager.waiting[name])
    ensures TableAfter(cfg, s, ws, frame, "").Keys == s.relay.world.table.Keys
  {
  }

  lemma PairingManager(m: Manager, ws: SocketId, name: string)
    requires name in m.waiting
    ensures Bare(Claim(m, ws, name)) == Bare(Claim(Bare(m), ws, name))
  {
  }

  /** So is a waiting server to an unpaired socket that asks for it, whatever it did before. */
  lemma PairingShows(cfg: Config, s: System, sc: Scene, ws: SocketId, frame: Frame, name: string)
    requires Shows(s, sc) && ws in sc.faces && !sc.faces[ws].paired
    requires IsConnect(cfg, frame, name) && name in sc.names && name in sc.m.waiting
    requires sc.m.waiting[name] in sc.faces && sc.m.waiting[name] != ws
    ensures Enabled(s, Message(ws, frame, ""))
    ensures Shows(Step(cfg, s, Message(ws, frame, "")), AfterPairing(sc, ws, name))
  {
    hide Kept, FaceOf, Step, RouteOf, ClaimOf, TableAfter, Claim;
    Shown(cfg, s, sc, ws, frame);
    StepTable(cfg, s, ws, frame);
    PairingClaim(cfg, s, ws, frame, name);
    PairingManager(s.relay.world.manager, ws, name);
    ConnectFacts(cfg, s, ws, frame, "");
    ShownFrom(s, Step(cfg, s, Message(ws, frame, "")), sc, AfterPairing(sc, ws, name));
  }

  lemma LeavingWorld(w: World, ws: SocketId, name: Option<string>)
    ensures Bare(AfterClose(w, ws, name).0.manager) ==
      Bare(AfterClose(World(map[], Bare(w.manager), map[]), ws, name).0.manager)
    ensures AfterClose(w, ws, name).0.table == w.table
  {
  }

  lemma LeavingShows(cfg: Config, s: System, sc: Scene, ws: SocketId)
    requires Shows(s, sc) && ws in sc.faces
    ensures Enabled(s, CloseEvent(ws)) && Shows(Step(cfg, s, CloseEvent(ws)), AfterLeaving(sc, ws))
  {
    hide Kept, FaceOf, Step, OnClose, AfterClose;
    LeavingTable(cfg, s, ws);
    ClosedFacts(cfg, s, ws);
    ClosedKept(cfg, s, ws);
    LeavingWorld(s.relay.world, ws, FaceOf(s.relay, ws).username);
  }

  lemma LeavingTable(cfg: Config, s: System, ws: SocketId)
    requires Enabled(s, CloseEvent(ws))
    ensures Step(cfg, s, CloseEvent(ws)).relay.world.table == s.relay.world.table
  {
  }

  lemma Opens(cfg: Config, s: System, sc: Scene, ws: SocketId) returns (s': System)
    requires Reachable(cfg, s) && Shows(s, sc) && ws !in sc.known
    ensures Reachable(cfg, s') && Shows(s', AfterOpening(sc, ws))
  {
    OpeningShows(cfg, s, sc, ws);
    hide Shows, Step, Reachable;
    OneMore(cfg, s, Opened(ws));
    s' := Step(cfg, s, Opened(ws));
  }

  lemma Names(cfg: Config, s: System, sc: Scene, ws: SocketId, frame: Frame, name: string) returns (s': System)
    requires Reachable(cfg, s) && Shows(s, sc) && ws in sc.faces && !sc.faces[ws].paired
    requires IsRegister(cfg, frame, name) && Usernames.IsValidRelayUsername(name) && name !in sc.names
    requires name !in sc.m.waiting
    ensures Reachable(cfg, s') && Shows(s', AfterNaming(sc, ws, name))
  {
    NamingShows(cfg, s, sc, ws, frame, name);
    hide Shows, Step, Reachable;
    OneMore(cfg, s, Message(ws, frame, ""));
    s' := Step(cfg, s, Message(ws, frame, ""));
  }

  lemma Pairs(cfg: Config, s: System, sc: Scene, ws: SocketId, frame: Frame, name: string) returns (s': System)
    requires Reachable(cfg, s) && Shows(s, sc) && ws in sc.faces && !sc.faces[ws].paired
    requires IsConnect(cfg, frame, name) && name in sc.names && name in sc.m.waiting
    requires sc.m.waiting[name] in sc.faces && sc.m.waiting[name] != ws
    ensures Reachable(cfg, s') && Shows(s', AfterPairing(sc, ws, name))
  {
    PairingShows(cfg, s, sc, ws, frame, name);
    hide Shows, Step, Reachable;
    OneMore(cfg, s, Message(ws, frame, ""));
    s' := Step(cfg, s, Message(ws, frame, ""));
  }

  lemma Leaves(cfg: Config, s: System, sc: Scene, ws: SocketId) returns (s': System)
    requires Reachable(cfg, s) && Shows(s, sc) && ws in sc.faces
    ensures Reachable(cfg, s') && Shows(s', AfterLeaving(sc, ws))
  {
    LeavingShows(cfg, s, sc, ws);
    hide Shows, Step, Reachable;
    OneMore(cfg, s, CloseEvent(ws));
    s' := Step(cfg, s, CloseEvent(ws));
  }

  /**
   * A socket that registers two free names and closes stays waiting under the
   * first, although every socket has closed.
   */
  lemma TwoNamesLeak(cfg: Config, ws: SocketId, f: Frame, g: Frame, a: string, b: string) returns (s: System)
    requires IsRegister(cfg, f, a) && Usernames.IsValidRelayUsername(a)
    requires IsRegister(cfg, g, b) && Usernames.IsValidRelayUsername(b) && a != b
    ensures Reachable(cfg, s) && (forall x :: PhaseIn(s, x).Closed?)
    ensures IsWaitingAs(s.relay.world.manager, ws, a)
  {
    var sc := Scene(EmptyManager(), {}, map[], {});
    s := Begin(cfg);
    hide Shows;
    s := Opens(cfg, s, sc, ws);
    sc := AfterOpening(sc, ws);
    s := Names(cfg, s, sc, ws, f, a);
    sc := AfterNaming(sc, ws, a);
    s := Names(cfg, s, sc, ws, g, b);
    sc := AfterNaming(sc, ws, b);
    s := Leaves(cfg, s, sc, ws);
    sc := AfterLeaving(sc, ws);
    ShowsEnd(s, sc);
  }

  /** A pair is still listed although nobody is waiting, nobody is looked up and every socket has closed. */
  ghost predicate LeaksPair(s: System, server: SocketId, client: SocketId) {
    && (forall x :: PhaseIn(s, x).Closed?)
    && s.relay.world.manager.waiting == map[] && s.relay.world.manager.pairLookup == map[]
    && s.relay.world.manager.pairs == {Pair(0, server, client)}
  }

  /** The names three sockets register or ask for, and the frames with which they do. */
  datatype Script = Script(a: string, b: string, c: string, takeA: Frame, takeB: Frame, takeC: Frame,
                           askA: Frame, askB: Frame, askC: Frame)

  predicate IsScript(cfg: Config, f: Script) {
    && IsRegister(cfg, f.takeA, f.a) && IsRegister(cfg, f.takeB, f.b) && IsRegister(cfg, f.takeC, f.c)
    && IsConnect(cfg, f.askA, f.a) && IsConnect(cfg, f.askB, f.b) && IsConnect(cfg, f.askC, f.c)
    && Usernames.IsValidRelayUsername(f.a) && Usernames.IsValidRelayUsername(f.b) && Usernames.IsValidRelayUsername(f.c)
    && f.a != f.b && f.a != f.c && f.b != f.c
  }

  /** Sockets 0 to 3 are open; socket 0 registered `a` and `b`, socket 1 registered `c`. */
  function Prepared(f: Script): Scene {
    Scene(EmptyManager().(waiting := map[f.a := 0, f.b := 0, f.c := 1]), {f.a, f.b, f.c},
          map[0 := Face(Some(f.b), false), 1 := Face(Some(f.c), false), 2 := Face(None, false), 3 := Face(None, false)],
          {0, 1, 2, 3})
  }

  function FourOpen(): Scene {
    var blank := Face(None, false);
    Scene(EmptyManager(), {}, map[0 := blank, 1 := blank, 2 := blank, 3 := blank], {0, 1, 2, 3})
  }

  lemma OpenFour(cfg: Config) returns (s: System)
    ensures Reachable(cfg, s) && Shows(s, FourOpen())
  {
    hide Shows, Reachable;
    s := Begin(cfg);
    var sc := Scene(EmptyManager(), {}, map[], {});
    s := Opens(cfg, s, sc, 0);
    sc := AfterOpening(sc, 0);
    s := Opens(cfg, s, sc, 1);
    sc := AfterOpening(sc, 1);
    s := Opens(cfg, s, sc, 2);
    sc := AfterOpening(sc, 2);
    s := Opens(cfg, s, sc, 3);
    assert AfterOpening(sc, 3) == FourOpen();
  }

  lemma Prepare(cfg: Config, f: Script) returns (s: System)
    requires IsScript(cfg, f)
    ensures Reachable(cfg, s) && Shows(s, Prepared(f))
  {
    hide Shows, Reachable, Usernames.IsValidRelayUsername, IsRegister, IsConnect;
    s := OpenFour(cfg);
    var sc := FourOpen();
    s := Names(cfg, s, sc, 0, f.takeA, f.a);
    sc := AfterNaming(sc, 0, f.a);
    s := Names(cfg, s, sc, 0, f.takeB, f.b);
    sc := AfterNaming(sc, 0, f.b);
    s := Names(cfg, s, sc, 1, f.takeC, f.c);
    assert AfterNaming(sc, 1, f.c) == Prepared(f);
  }

  /** Then socket 1 asks for `a`, socket 2 for `b` and socket 3 for `c`: sockets 0 and 1 are in two pairs each. */
  function Entangled(f: Script): Scene {
    var p, q, r := Pair(0, 0, 1), Pair(1, 0, 2), Pair(2, 1, 3);
    Scene(Manager(map[], {p, q, r}, map[0 := q, 2 := q, 1 := r, 3 := r], map[], 3), {f.a, f.b, f.c},
          map[0 := Face(Some(f.b), true), 1 := Face(Some(f.a), true),
              2 := Face(Some(f.b), true), 3 := Face(Some(f.c), true)],
          {0, 1, 2, 3})
  }

  lemma Entangle(cfg: Config, f: Script, s: System) returns (s': System)
    requires IsScript(cfg, f) && Reachable(cfg, s) && Shows(s, Prepared(f))
    ensures Reachable(cfg, s') && Shows(s', Entangled(f))
  {
    hide Shows, Reachable, Usernames.IsValidRelayUsername;
    var sc := Prepared(f);
    s' := Pairs(cfg, s, sc, 1, f.askA, f.a);
    sc := AfterPairing(sc, 1, f.a);
    s' := Pairs(cfg, s', sc, 2, f.askB, f.b);
    sc := AfterPairing(sc, 2, f.b);
    s' := Pairs(cfg, s', sc, 3, f.askC, f.c);
    sc := AfterPairing(sc, 3, f.c);
    assert sc == Entangled(f);
  }

  /** Each of the two looks up its later pair only, and the first pair stays. */
  function Abandoned(f: Script): Scene {
    Scene(Manager(map[], {Pair(0, 0, 1)}, map[], map[], 3), {f.a, f.b, f.c},
          map[2 := Face(Some(f.b), true), 3 := Face(Some(f.c), true)], {0, 1, 2, 3})
  }

  lemma Abandon(cfg: Config, f: Script, s: System) returns (s': System)
    requires Reachable(cfg, s) && Shows(s, Entangled(f))
    ensures Reachable(cfg, s') && Shows(s', Abandoned(f))
  {
    hide Shows, Reachable;
    var sc := Entangled(f);
    s' := Leaves(cfg, s, sc, 0);
    sc := AfterLeaving(sc, 0);
    var p, r := Pair(0, 0, 1), Pair(2, 1, 3);
    assert sc.m == Manager(map[], {p, r}, map[1 := r, 3 := r], map[], 3);
    s' := Leaves(cfg, s', sc, 1);
    sc := AfterLeaving(sc, 1);
    assert sc.m == Manager(map[], {p}, map[], map[], 3);
    assert sc == Abandoned(f);
  }

  /**
   * A socket that registers two names, and one that registers a name and asks
   * for another, leave the pair between them listed for good.
   */
  lemma PairLeak(cfg: Config, f: Script) returns (s: System)
    requires IsScript(cfg, f)
    ensures Reachable(cfg, s) && LeaksPair(s, 0, 1)
  {
    hide IsScript, Shows, Reachable;
    s := Prepare(cfg, f);
    s := Entangle(cfg, f, s);
    s := Abandon(cfg, f, s);
    s := Finish(cfg, f, s);
    ShowsLeak(f, s);
  }

  lemma Finish(cfg: Config, f: Script, s: System) returns (s': System)
    requires Reachable(cfg, s) && Shows(s, Abandoned(f))
    ensures Reachable(cfg, s') && Shows(s', Abandoned(f).(faces := map[]))
  {
    hide Shows, Reachable;
    var sc := Abandoned(f);
    s' := LeavesUnheld(cfg, s, sc, 2);
    s' := LeavesUnheld(cfg, s', sc.(faces := sc.faces - {2}), 3);
    assert sc.faces - {2} - {3} == map[];
  }

  lemma ShowsLeak(f: Script, s: System)
    requires Shows(s, Abandoned(f).(faces := map[]))
    ensures LeaksPair(s, 0, 1)
  {
    ShowsEnd(s, Abandoned(f).(faces := map[]));
  }

  lemma LeavesUnheld(cfg: Config, s: System, sc: Scene, ws: SocketId) returns (s': System)
    requires Reachable(cfg, s) && Shows(s, sc) && ws in sc.faces
    requires sc.m.waiting == map[] && sc.m.pairLookup == map[] && Bare(sc.m) == sc.m
    ensures Reachable(cfg, s') && Shows(s', sc.(faces := sc.faces - {ws}))
  {
    hide Shows, Reachable;
    s' := Leaves(cfg, s, sc, ws);
    assert AfterLeaving(sc, ws) == sc.(faces := sc.faces - {ws});
  }

  lemma ShowsEnd(s: System, sc: Scene)
    requires Shows(s, sc) && sc.faces == map[]
    ensures forall x :: PhaseIn(s, x).Closed?
    ensures Bare(s.relay.world.manager) == sc.m
  {
  }
}
