/**
 * The part of the relay's state that decides who is connected to whom, as one
 * mark per socket beside the manager, and what every change of it keeps.
 */
module RelayShape {
  import opened Wrappers
  import opened Sockets
  import opened Connections
  import opened WsHandler
  import opened ConnectionIndex

  /**
   * One socket: its close event is still to come; its record's name and
   * `paired` flag; the routing message it sent; its partner at the pairing.
   */
  datatype Mark = Mark(
    live: bool, username: Option<string>, paired: bool, route: Option<Routing>, peer: Option<SocketId>)

  type Shape = map<SocketId, Mark>

  const BlankMark := Mark(true, None, false, None, None)

  predicate Registered(sh: Shape, ws: SocketId, name: string) {
    ws in sh && sh[ws].route.Some? && sh[ws].route.value.Register? && sh[ws].route.value.username == name
  }

  predicate AskedFor(sh: Shape, ws: SocketId, name: string) {
    ws in sh && sh[ws].route.Some? && sh[ws].route.value.Connect? && sh[ws].route.value.username == name
  }

  predicate IsLive(sh: Shape, ws: SocketId) {
    ws in sh && sh[ws].live
  }

  /** A waiting socket is live and unpaired; its record, its registration and its entry name it. */
  ghost predicate WaitingLinked(m: Manager, sh: Shape) {
    forall n :: n in m.waiting ==>
      && IsLive(sh, m.waiting[n]) && Registered(sh, m.waiting[n], n)
      && sh[m.waiting[n]].username == Some(n) && !sh[m.waiting[n]].paired && sh[m.waiting[n]].peer.None?
      && m.waiting[n] in m.activeServers
      && m.activeServers[m.waiting[n]].installId == sh[m.waiting[n]].route.value.installId
  }

  /** Before its routing message a socket is blank. */
  ghost predicate BlankBeforeRouting(sh: Shape) {
    forall ws :: ws in sh && sh[ws].route.None? ==>
      sh[ws].peer.None? && sh[ws].username.None? && !sh[ws].paired
  }

  /** While a socket is live, `paired` says that it has had a partner. */
  ghost predicate FlagsLinked(sh: Shape) {
    forall ws :: ws in sh && sh[ws].live ==> (sh[ws].paired <==> sh[ws].peer.Some?)
  }

  /** Partners know each other: one registered the name that the other asked for. */
  ghost predicate PartnersLinked(sh: Shape) {
    forall ws :: ws in sh && sh[ws].peer.Some? ==>
      && sh[ws].peer.value != ws && sh[ws].peer.value in sh && sh[sh[ws].peer.value].peer == Some(ws)
      && sh[ws].route.Some?
      && (if sh[ws].route.value.Register? then AskedFor(sh, sh[ws].peer.value, sh[ws].route.value.username)
          else sh[ws].route.value.Connect? && Registered(sh, sh[ws].peer.value, sh[ws].route.value.username))
  }

  /** What the lookup says is what the partners know; the server of the pair is the one that registered. */
  ghost predicate LookupSound(m: Manager, sh: Shape) {
    forall ws :: ws in m.pairLookup ==>
      && IsLive(sh, ws) && sh[ws].peer == Some(Other(m.pairLookup[ws], ws))
      && (IsPairServer(m, ws) <==> sh[ws].route.Some? && sh[ws].route.value.Register?)
  }

  /** The lookup forgets nobody: two live partners are in it. */
  ghost predicate LookupComplete(m: Manager, sh: Shape) {
    forall ws :: ws in sh && sh[ws].live && sh[ws].peer.Some? && IsLive(sh, sh[ws].peer.value) ==> ws in m.pairLookup
  }

  ghost predicate Linked(m: Manager, sh: Shape) {
    && Indexed(m)
    && WaitingLinked(m, sh) && BlankBeforeRouting(sh) && FlagsLinked(sh) && PartnersLinked(sh)
    && LookupSound(m, sh) && LookupComplete(m, sh)
  }

  function AfterOpen(sh: Shape, ws: SocketId): Shape {
    sh[ws := BlankMark]
  }

  function AfterRefusal(sh: Shape, ws: SocketId, msg: Routing): Shape
    requires ws in sh
  {
    sh[ws := sh[ws].(route := Some(msg))]
  }

  function AfterRegistered(sh: Shape, ws: SocketId, msg: Routing): Shape
    requires ws in sh && msg.Register?
  {
    sh[ws := sh[ws].(route := Some(msg), username := Some(msg.username))]
  }

  function AfterClaim(sh: Shape, ws: SocketId, msg: Routing, serverWs: SocketId): Shape
    requires ws in sh && serverWs in sh && msg.Connect?
  {
    sh
    [serverWs := sh[serverWs].(paired := true, peer := Some(ws))]
    [ws := Mark(sh[ws].live, Some(msg.username), true, Some(msg), Some(serverWs))]
  }

  function AfterClosed(sh: Shape, ws: SocketId): Shape
    requires ws in sh
  {
    sh[ws := sh[ws].(live := false, username := None, paired := false)]
  }

  lemma OpenKeepsPartners(sh: Shape, ws: SocketId)
    requires PartnersLinked(sh) && ws !in sh
    ensures PartnersLinked(AfterOpen(sh, ws))
  {
  }

  lemma OpenKeepsPairLinks(m: Manager, sh: Shape, ws: SocketId)
    requires PartnersLinked(sh) && LookupSound(m, sh) && LookupComplete(m, sh) && ws !in sh
    ensures LookupSound(m, AfterOpen(sh, ws)) && LookupComplete(m, AfterOpen(sh, ws))
  {
  }

  lemma OpenKeepsSocketLinks(m: Manager, sh: Shape, ws: SocketId)
    requires WaitingLinked(m, sh) && BlankBeforeRouting(sh) && FlagsLinked(sh) && ws !in sh
    ensures WaitingLinked(m, AfterOpen(sh, ws)) && BlankBeforeRouting(AfterOpen(sh, ws))
    ensures FlagsLinked(AfterOpen(sh, ws))
  {
  }

  lemma OpenKeepsLinks(m: Manager, sh: Shape, ws: SocketId)
    requires Linked(m, sh) && ws !in sh
    ensures Linked(m, AfterOpen(sh, ws))
  {
    OpenKeepsPartners(sh, ws);
    OpenKeepsPairLinks(m, sh, ws);
    OpenKeepsSocketLinks(m, sh, ws);
  }

  lemma BlankIsUnknown(m: Manager, sh: Shape, ws: SocketId)
    requires WaitingLinked(m, sh) && LookupSound(m, sh) && BlankBeforeRouting(sh)
    requires IsLive(sh, ws) && sh[ws].route.None?
    ensures Unknown(m, ws) && sh[ws] == BlankMark
  {
    forall n | n in m.waiting ensures m.waiting[n] != ws {
      assert Registered(sh, m.waiting[n], n);
    }
  }

  lemma RefusalKeepsLinks(m: Manager, sh: Shape, ws: SocketId, msg: Routing)
    requires Linked(m, sh) && IsLive(sh, ws) && sh[ws].route.None?
    ensures Linked(m, AfterRefusal(sh, ws, msg))
  {
    BlankIsUnknown(m, sh, ws);
    RefusalKeepsPartners(sh, ws, msg);
    RefusalKeepsPairLinks(m, sh, ws, msg);
    RefusalKeepsSocketLinks(m, sh, ws, msg);
  }

  lemma RefusalKeepsPartners(sh: Shape, ws: SocketId, msg: Routing)
    requires PartnersLinked(sh) && ws in sh && sh[ws] == BlankMark
    ensures PartnersLinked(AfterRefusal(sh, ws, msg))
  {
  }

  lemma RefusalKeepsPairLinks(m: Manager, sh: Shape, ws: SocketId, msg: Routing)
    requires LookupSound(m, sh) && LookupComplete(m, sh)
    requires Unknown(m, ws) && ws in sh && sh[ws] == BlankMark
    ensures var sh' := AfterRefusal(sh, ws, msg); LookupSound(m, sh') && LookupComplete(m, sh')
  {
  }

  lemma RefusalKeepsSocketLinks(m: Manager, sh: Shape, ws: SocketId, msg: Routing)
    requires WaitingLinked(m, sh) && BlankBeforeRouting(sh) && FlagsLinked(sh)
    requires Unknown(m, ws) && ws in sh && sh[ws] == BlankMark
    ensures var sh' := AfterRefusal(sh, ws, msg);
      WaitingLinked(m, sh') && BlankBeforeRouting(sh') && FlagsLinked(sh')
  {
  }

  lemma RegisteredKeepsSocketLinks(m: Manager, sh: Shape, ws: SocketId, msg: Routing, entry: ActiveServer)
    requires WaitingLinked(m, sh) && BlankBeforeRouting(sh) && FlagsLinked(sh)
    requires Unknown(m, ws) && ws in sh && sh[ws] == BlankMark && InjectiveWaiting(m)
    requires msg.Register? && entry.username == msg.username && entry.installId == msg.installId
    ensures var sh' := AfterRegistered(sh, ws, msg);
      WaitingLinked(AddWaiting(m, ws, entry), sh') && BlankBeforeRouting(sh') && FlagsLinked(sh')
  {
  }

  lemma RegisteredKeepsPartners(sh: Shape, ws: SocketId, msg: Routing)
    requires PartnersLinked(sh) && ws in sh && sh[ws] == BlankMark && msg.Register?
    ensures PartnersLinked(AfterRegistered(sh, ws, msg))
  {
  }

  lemma RegisteredKeepsLookup(m: Manager, sh: Shape, ws: SocketId, msg: Routing, entry: ActiveServer)
    requires LookupSound(m, sh) && LookupComplete(m, sh)
    requires Unknown(m, ws) && ws in sh && sh[ws] == BlankMark && msg.Register?
    ensures LookupSound(AddWaiting(m, ws, entry), AfterRegistered(sh, ws, msg))
    ensures LookupComplete(AddWaiting(m, ws, entry), AfterRegistered(sh, ws, msg))
  {
  }

  lemma RegisteredKeepsLinks(m: Manager, sh: Shape, ws: SocketId, msg: Routing, entry: ActiveServer)
    requires Linked(m, sh) && IsLive(sh, ws) && sh[ws].route.None?
    requires msg.Register? && entry.username == msg.username && entry.installId == msg.installId
    requires entry.state == Waiting && entry.username != ""
    ensures Linked(AddWaiting(m, ws, entry), AfterRegistered(sh, ws, msg))
  {
    BlankIsUnknown(m, sh, ws);
    AddWaitingKeepsIndex(m, ws, entry);
    RegisteredKeepsSocketLinks(m, sh, ws, msg, entry);
    RegisteredKeepsPartners(sh, ws, msg);
    RegisteredKeepsLookup(m, sh, ws, msg, entry);
  }

  lemma ClaimKeepsSocketLinks(m: Manager, sh: Shape, ws: SocketId, msg: Routing)
    requires WaitingLinked(m, sh) && BlankBeforeRouting(sh) && FlagsLinked(sh) && InjectiveWaiting(m)
    requires Unknown(m, ws) && ws in sh && sh[ws] == BlankMark && msg.Connect? && msg.username in m.waiting
    ensures var sh' := AfterClaim(sh, ws, msg, m.waiting[msg.username]);
      WaitingLinked(Claim(m, ws, msg.username), sh') && BlankBeforeRouting(sh') && FlagsLinked(sh')
  {
  }

  lemma ClaimKeepsPartners(m: Manager, sh: Shape, ws: SocketId, msg: Routing)
    requires WaitingLinked(m, sh) && PartnersLinked(sh)
    requires Unknown(m, ws) && ws in sh && sh[ws] == BlankMark && msg.Connect? && msg.username in m.waiting
    ensures PartnersLinked(AfterClaim(sh, ws, msg, m.waiting[msg.username]))
  {
    assert Registered(sh, m.waiting[msg.username], msg.username);
  }

  lemma ClaimKeepsLookup(m: Manager, sh: Shape, ws: SocketId, msg: Routing)
    requires WaitingLinked(m, sh) && PartnersLinked(sh) && LookupSound(m, sh) && LookupComplete(m, sh)
    requires WaitingTagged(m) && Matching(m)
    requires Unknown(m, ws) && ws in sh && sh[ws] == BlankMark && msg.Connect? && msg.username in m.waiting
    ensures var sh' := AfterClaim(sh, ws, msg, m.waiting[msg.username]);
      LookupSound(Claim(m, ws, msg.username), sh') && LookupComplete(Claim(m, ws, msg.username), sh')
  {
    assert Registered(sh, m.waiting[msg.username], msg.username);
  }

  lemma ClaimKeepsLinks(m: Manager, sh: Shape, ws: SocketId, msg: Routing)
    requires Linked(m, sh) && IsLive(sh, ws) && sh[ws].route.None? && msg.Connect? && msg.username in m.waiting
    ensures m.waiting[msg.username] in sh
    ensures Linked(Claim(m, ws, msg.username), AfterClaim(sh, ws, msg, m.waiting[msg.username]))
  {
    BlankIsUnknown(m, sh, ws);
    ClaimKeepsIndex(m, ws, msg.username);
    ClaimKeepsSocketLinks(m, sh, ws, msg);
    ClaimKeepsPartners(m, sh, ws, msg);
    ClaimKeepsLookup(m, sh, ws, msg);
  }

  lemma ClosedKeepsPartners(sh: Shape, ws: SocketId)
    requires PartnersLinked(sh) && FlagsLinked(sh) && BlankBeforeRouting(sh) && ws in sh
    ensures PartnersLinked(AfterClosed(sh, ws)) && FlagsLinked(AfterClosed(sh, ws))
    ensures BlankBeforeRouting(AfterClosed(sh, ws))
  {
  }

  /** A waiting socket closes: its name is free again. */
  lemma WaitingClosedKeepsLinks(m: Manager, sh: Shape, ws: SocketId, name: string)
    requires Linked(m, sh) && IsWaitingAs(m, ws, name)
    ensures ws in sh && Linked(DropWaiting(m, ws, name), AfterClosed(sh, ws))
  {
    assert IsLive(sh, ws);
    ClosedKeepsPartners(sh, ws);
    WaitingClosedKeepsRest(m, sh, ws, name);
    DropWaitingKeepsIndex(m, ws, name);
  }

  lemma WaitingClosedKeepsRest(m: Manager, sh: Shape, ws: SocketId, name: string)
    requires InjectiveWaiting(m) && WaitingLinked(m, sh) && LookupSound(m, sh) && LookupComplete(m, sh)
    requires IsWaitingAs(m, ws, name)
    ensures ws in sh
    ensures var m', sh' := DropWaiting(m, ws, name), AfterClosed(sh, ws);
      WaitingLinked(m', sh') && LookupSound(m', sh') && LookupComplete(m', sh')
  {
  }

  /** A pair's close takes its two sockets, and no other, out of the lookup. */
  lemma PairClosedLookup(m: Manager, sh: Shape, ws: SocketId)
    requires PartnersLinked(sh) && LookupSound(m, sh) && LookupComplete(m, sh) && Matching(m) && ws in m.pairLookup
    ensures var other, m' := Other(m.pairLookup[ws], ws), DropPair(m, m.pairLookup[ws]);
      && ws in sh && other in sh && sh[ws].peer == Some(other) && sh[other].peer == Some(ws)
      && (forall x :: x in m'.pairLookup <==> x in m.pairLookup && x != ws && x != other)
      && (forall x :: x in m'.pairLookup ==> m'.pairLookup[x] == m.pairLookup[x])
  {
  }

  lemma PairClosedKeepsSound(m: Manager, sh: Shape, ws: SocketId)
    requires PartnersLinked(sh) && LookupSound(m, sh) && LookupComplete(m, sh) && Matching(m) && ws in m.pairLookup
    ensures ws in sh && LookupSound(DropPair(m, m.pairLookup[ws]), AfterClosed(sh, ws))
  {
    PairClosedLookup(m, sh, ws);
    var m', sh' := DropPair(m, m.pairLookup[ws]), AfterClosed(sh, ws);
    forall x | x in m'.pairLookup
      ensures IsLive(sh', x) && sh'[x].peer == Some(Other(m'.pairLookup[x], x))
      ensures IsPairServer(m', x) <==> sh'[x].route.Some? && sh'[x].route.value.Register?
    {
      assert IsPairServer(m', x) <==> IsPairServer(m, x);
    }
  }

  lemma PairClosedKeepsComplete(m: Manager, sh: Shape, ws: SocketId)
    requires PartnersLinked(sh) && LookupSound(m, sh) && LookupComplete(m, sh) && Matching(m) && ws in m.pairLookup
    ensures ws in sh && LookupComplete(DropPair(m, m.pairLookup[ws]), AfterClosed(sh, ws))
  {
    PairClosedLookup(m, sh, ws);
    var m', sh' := DropPair(m, m.pairLookup[ws]), AfterClosed(sh, ws);
    forall x | x in sh' && sh'[x].live && sh'[x].peer.Some? && IsLive(sh', sh'[x].peer.value)
      ensures x in m'.pairLookup
    {
      assert sh[x] == sh'[x] && IsLive(sh, sh[x].peer.value);
    }
  }

  lemma PairClosedKeepsLinks(m: Manager, sh: Shape, ws: SocketId)
    requires Linked(m, sh) && ws in m.pairLookup
    ensures ws in sh && Linked(DropPair(m, m.pairLookup[ws]), AfterClosed(sh, ws))
  {
    assert IsLive(sh, ws);
    ClosedKeepsPartners(sh, ws);
    PairClosedKeepsSound(m, sh, ws);
    PairClosedKeepsComplete(m, sh, ws);
    DropPairKeepsIndex(m, m.pairLookup[ws]);
    PairClosedKeepsWaiting(m, sh, ws);
  }

  lemma PairClosedKeepsWaiting(m: Manager, sh: Shape, ws: SocketId)
    requires WaitingLinked(m, sh) && LookupSound(m, sh) && Matching(m) && ws in m.pairLookup && WaitingTagged(m)
    ensures ws in sh && WaitingLinked(DropPair(m, m.pairLookup[ws]), AfterClosed(sh, ws))
  {
  }

  /** Any other socket closes: the manager does not notice. */
  lemma StrayClosedKeepsLinks(m: Manager, sh: Shape, ws: SocketId)
    requires Linked(m, sh) && Unknown(m, ws) && ws in sh
    ensures Linked(m, AfterClosed(sh, ws))
  {
    ClosedKeepsPartners(sh, ws);
    StrayClosedKeepsLookup(m, sh, ws);
  }

  lemma StrayClosedKeepsLookup(m: Manager, sh: Shape, ws: SocketId)
    requires PartnersLinked(sh) && LookupSound(m, sh) && LookupComplete(m, sh) && Matching(m)
    requires Unknown(m, ws) && ws in sh
    ensures LookupSound(m, AfterClosed(sh, ws)) && LookupComplete(m, AfterClosed(sh, ws))
  {
  }

  lemma StrayIsUnknown(m: Manager, sh: Shape, ws: SocketId)
    requires WaitingLinked(m, sh) && IsLive(sh, ws) && ws !in m.pairLookup
    requires sh[ws].username.Some? ==> !IsWaitingAs(m, ws, sh[ws].username.value)
    ensures Unknown(m, ws)
  {
  }

  lemma LinkedWaiting(m: Manager, sh: Shape)
    requires Linked(m, sh)
    ensures WaitingTagged(m) && WaitingLinked(m, sh)
  {
  }

  /** The manager's answer to a close event, given the name in the socket's record. */
  lemma ClosedKeepsLinks(w: World, sh: Shape, ws: SocketId)
    requires Linked(w.manager, sh) && IsLive(sh, ws)
    ensures Linked(AfterClose(w, ws, sh[ws].username).0.manager, AfterClosed(sh, ws))
  {
    hide Linked;
    LinkedWaiting(w.manager, sh);
    var m, name := w.manager, sh[ws].username;
    if name.Some? && IsWaitingAs(m, ws, name.value) {
      WaitingClosedKeepsLinks(m, sh, ws, name.value);
    } else if ws in m.pairLookup {
      PairClosedKeepsLinks(m, sh, ws);
    } else {
      StrayIsUnknown(m, sh, ws);
      StrayClosedKeepsLinks(m, sh, ws);
    }
  }
}
