/** How the manager's four collections agree, one call at a time. */
module ConnectionIndex {
  import opened Wrappers
  import opened Sockets
  import opened Connections
  import Registry
  import Usernames

  /** No socket waits under two names. */
  ghost predicate InjectiveWaiting(m: Manager) {
    forall a, b :: a in m.waiting && b in m.waiting && m.waiting[a] == m.waiting[b] ==> a == b
  }

  /** `pairLookup` is a symmetric, fixed-point-free matching that covers exactly `pairs`. */
  ghost predicate Matching(m: Manager) {
    && (forall p :: p in m.pairs ==>
         && p.serial < m.nextSerial && p.server != p.client
         && p.server in m.pairLookup && m.pairLookup[p.server] == p
         && p.client in m.pairLookup && m.pairLookup[p.client] == p)
    && (forall k :: k in m.pairLookup ==>
         m.pairLookup[k] in m.pairs && (k == m.pairLookup[k].server || k == m.pairLookup[k].client))
  }

  predicate IsPairServer(m: Manager, ws: SocketId) {
    ws in m.pairLookup && m.pairLookup[ws].server == ws
  }

  predicate IsWaitingAs(m: Manager, ws: SocketId, name: string) {
    name in m.waiting && m.waiting[name] == ws
  }

  /** Waiting sockets are not paired, and carry the entry of their name. */
  ghost predicate WaitingTagged(m: Manager) {
    forall n :: n in m.waiting ==>
      && n != "" && m.waiting[n] !in m.pairLookup
      && m.waiting[n] in m.activeServers
      && m.activeServers[m.waiting[n]].username == n
      && m.activeServers[m.waiting[n]].state == Waiting
  }

  ghost predicate PairServersTagged(m: Manager) {
    forall a :: IsPairServer(m, a) ==> a in m.activeServers && m.activeServers[a].state == Paired
  }

  /** Nothing else is listed as active. */
  ghost predicate ActiveAccounted(m: Manager) {
    forall a :: a in m.activeServers ==>
      if m.activeServers[a].state == Waiting then IsWaitingAs(m, a, m.activeServers[a].username) else IsPairServer(m, a)
  }

  ghost predicate Counted(m: Manager) {
    |m.activeServers| == |m.waiting| + |m.pairs|
  }

  ghost predicate Indexed(m: Manager) {
    && InjectiveWaiting(m) && Matching(m)
    && WaitingTagged(m) && PairServersTagged(m) && ActiveAccounted(m) && Counted(m)
  }

  /** The socket neither waits nor has a pair to look up. */
  ghost predicate Unknown(m: Manager, ws: SocketId) {
    && (forall n :: n in m.waiting ==> m.waiting[n] != ws)
    && ws !in m.pairLookup
  }

  /** The socket is named in one of the collections. */
  ghost predicate Held(m: Manager, ws: SocketId) {
    || ws in m.pairLookup || ws in m.activeServers
    || (exists n :: IsWaitingAs(m, ws, n))
    || (exists p :: p in m.pairs && (p.server == ws || p.client == ws))
  }

  lemma UnknownIsInactive(m: Manager, ws: SocketId)
    requires ActiveAccounted(m) && Unknown(m, ws)
    ensures ws !in m.activeServers
  {
  }

  lemma AddWaitingKeepsTags(m: Manager, ws: SocketId, entry: ActiveServer)
    requires InjectiveWaiting(m) && WaitingTagged(m) && PairServersTagged(m) && ActiveAccounted(m)
    requires Unknown(m, ws) && entry.state == Waiting && entry.username != ""
    ensures var m' := AddWaiting(m, ws, entry);
      WaitingTagged(m') && PairServersTagged(m') && ActiveAccounted(m')
  {
  }

  lemma AddWaitingKeepsCount(m: Manager, ws: SocketId, entry: ActiveServer)
    requires Counted(m) && WaitingTagged(m) && ActiveAccounted(m) && Unknown(m, ws)
    ensures Counted(AddWaiting(m, ws, entry))
  {
    UnknownIsInactive(m, ws);
  }

  lemma AddWaitingKeepsIndex(m: Manager, ws: SocketId, entry: ActiveServer)
    requires Indexed(m) && Unknown(m, ws) && entry.state == Waiting && entry.username != ""
    ensures Indexed(AddWaiting(m, ws, entry))
  {
    AddWaitingKeepsTags(m, ws, entry);
    AddWaitingKeepsCount(m, ws, entry);
  }

  lemma ClaimKeepsMatching(m: Manager, ws: SocketId, name: string)
    requires Matching(m) && WaitingTagged(m) && Unknown(m, ws) && name in m.waiting
    ensures Matching(Claim(m, ws, name))
  {
  }

  lemma ClaimKeepsTags(m: Manager, ws: SocketId, name: string)
    requires InjectiveWaiting(m) && WaitingTagged(m) && PairServersTagged(m) && ActiveAccounted(m)
    requires Unknown(m, ws) && name in m.waiting
    ensures var m' := Claim(m, ws, name);
      WaitingTagged(m') && PairServersTagged(m') && ActiveAccounted(m')
  {
  }

  lemma ClaimKeepsCount(m: Manager, ws: SocketId, name: string)
    requires Counted(m) && Matching(m) && WaitingTagged(m) && name in m.waiting
    ensures Counted(Claim(m, ws, name))
  {
    var pair := Pair(m.nextSerial, m.waiting[name], ws);
    assert pair !in m.pairs;
  }

  lemma ClaimKeepsIndex(m: Manager, ws: SocketId, name: string)
    requires Indexed(m) && Unknown(m, ws) && name in m.waiting
    ensures Indexed(Claim(m, ws, name))
  {
    ClaimKeepsMatching(m, ws, name);
    ClaimKeepsTags(m, ws, name);
    ClaimKeepsCount(m, ws, name);
  }

  lemma DropWaitingKeepsIndex(m: Manager, ws: SocketId, name: string)
    requires Indexed(m) && IsWaitingAs(m, ws, name)
    ensures Indexed(DropWaiting(m, ws, name))
  {
    DropWaitingKeepsTags(m, ws, name);
  }

  lemma DropWaitingKeepsTags(m: Manager, ws: SocketId, name: string)
    requires InjectiveWaiting(m) && WaitingTagged(m) && PairServersTagged(m) && ActiveAccounted(m)
    requires IsWaitingAs(m, ws, name)
    ensures var m' := DropWaiting(m, ws, name);
      WaitingTagged(m') && PairServersTagged(m') && ActiveAccounted(m')
  {
  }

  lemma DropPairKeepsMatching(m: Manager, p: Pair)
    requires Matching(m) && p in m.pairs
    ensures Matching(DropPair(m, p))
  {
    var m' := DropPair(m, p);
    forall q | q in m'.pairs
      ensures q.server in m'.pairLookup && m'.pairLookup[q.server] == q
      ensures q.client in m'.pairLookup && m'.pairLookup[q.client] == q
    {
      assert m.pairLookup[q.server] == q && m.pairLookup[q.client] == q;
    }
    forall k | k in m'.pairLookup
      ensures m'.pairLookup[k] in m'.pairs && (k == m'.pairLookup[k].server || k == m'.pairLookup[k].client)
    {
      assert m.pairLookup[k] in m.pairs;
    }
  }

  lemma DropPairKeepsTags(m: Manager, p: Pair)
    requires Matching(m) && WaitingTagged(m) && PairServersTagged(m) && ActiveAccounted(m) && p in m.pairs
    ensures var m' := DropPair(m, p);
      WaitingTagged(m') && PairServersTagged(m') && ActiveAccounted(m')
  {
    assert IsPairServer(m, p.server);
    var m' := DropPair(m, p);
    forall a | a in m'.activeServers && m.activeServers[a].state == Paired
      ensures IsPairServer(m', a)
    {
      assert IsPairServer(m, a);
    }
  }

  lemma DropPairKeepsIndex(m: Manager, p: Pair)
    requires Indexed(m) && p in m.pairs
    ensures Indexed(DropPair(m, p))
  {
    DropPairKeepsMatching(m, p);
    DropPairKeepsTags(m, p);
    assert IsPairServer(m, p.server);
  }
}
