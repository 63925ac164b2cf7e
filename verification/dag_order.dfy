/** What ordering by parent chain guarantees, for lists with any ids, orphans, self-parents and cycles. */
module DagOrder {
  import opened Wrappers
  import opened Dag

  // ---- The order check ----

  /** The item's parent is not among the ids seen before it. */
  predicate Misplaced(s: seq<Item>, seen: set<string>, i: nat) {
    i < |s| && HasParent(s[i]) && s[i].parent.value !in seen + Ids(s[..i])
  }

  lemma IdsSnocFront(s: seq<Item>, i: nat)
    requires 0 < i <= |s|
    ensures Ids(s[..i]) == {DagId(s[0])} + Ids(s[1..][..i - 1])
  {
    assert s[..i][1..] == s[1..][..i - 1];
  }

  /** The one-pass check is exact: it reports a list exactly when some item comes before its parent. */
  lemma {:induction false} NeedsReorderMeans(s: seq<Item>, seen: set<string>)
    ensures NeedsReorderFrom(s, seen) <==> exists i: nat :: Misplaced(s, seen, i)
  {
    if s != [] {
      var seen' := seen + {DagId(s[0])};
      NeedsReorderMeans(s[1..], seen');
      forall i | 0 < i < |s| ensures Misplaced(s, seen, i) <==> Misplaced(s[1..], seen', i - 1) {
        IdsSnocFront(s, i);
      }
      assert Misplaced(s, seen, 0) <==> HasParent(s[0]) && s[0].parent.value !in seen;
      if i: nat :| Misplaced(s[1..], seen', i) {
        assert Misplaced(s, seen, i + 1);
      }
    }
  }

  // ---- Members ----

  lemma {:induction false} KidsMember(s: seq<Item>, k: Option<string>, x: Item)
    ensures x in Kids(s, k) <==> x in s && x.parent == k
  {
    if s != [] {
      KidsMember(s[1..], k, x);
    }
  }

  lemma {:induction false} OutsideMember(s: seq<Item>, v: set<string>, x: Item)
    ensures x in Outside(s, v) <==> x in s && DagId(x) !in v
  {
    if s != [] {
      OutsideMember(s[1..], v, x);
    }
  }

  lemma {:induction false} IdsMember(s: seq<Item>, id: string)
    ensures id in Ids(s) <==> exists x :: x in s && DagId(x) == id
  {
    if s != [] {
      IdsMember(s[1..], id);
      if id == DagId(s[0]) {
        assert s[0] in s;
      }
    }
  }

  lemma {:induction false} IdsConcat(a: seq<Item>, b: seq<Item>)
    ensures Ids(a + b) == Ids(a) + Ids(b)
  {
    if a == [] {
      assert a + b == b;
    } else {
      IdsConcat(a[1..], b);
      assert (a + b)[1..] == a[1..] + b;
    }
  }

  // ---- The walk ----

  /** The walk visits exactly the ids it appends. */
  lemma {:induction false} WalkIds(items: seq<Item>, list: seq<Item>, visited: set<string>)
    requires Ids(list) <= Ids(items)
    ensures var w := Walk(items, list, visited); w.1 == visited + Ids(w.0) && Ids(w.0) !! visited
    decreases Ids(items) - visited, |list|
  {
    if list != [] {
      if DagId(list[0]) in visited {
        WalkIds(items, list[1..], visited);
      } else {
        WalkStep(items, list, visited);
        var sub := Walk(items, Kids(items, Some(DagId(list[0]))), visited + {DagId(list[0])});
        WalkIds(items, Kids(items, Some(DagId(list[0]))), visited + {DagId(list[0])});
        WalkIds(items, list[1..], sub.1);
        WalkedIds(list[0], sub.0, Walk(items, list[1..], sub.1).0);
      }
    }
  }

  lemma WalkedIds(x: Item, sub: seq<Item>, next: seq<Item>)
    ensures Ids([x] + sub + next) == {DagId(x)} + Ids(sub) + Ids(next)
  {
    IdsConcat([x] + sub, next);
    IdsConcat([x], sub);
    assert Ids([x]) == {DagId(x)};
  }

  /** Every id is appended once. */
  predicate UniqueIds(s: seq<Item>) {
    s == [] || (DagId(s[0]) !in Ids(s[1..]) && UniqueIds(s[1..]))
  }

  lemma {:induction false} UniqueConcat(a: seq<Item>, b: seq<Item>)
    requires UniqueIds(a) && UniqueIds(b) && Ids(a) !! Ids(b)
    ensures UniqueIds(a + b)
  {
    if a == [] {
      assert a + b == b;
    } else {
      UniqueConcat(a[1..], b);
      IdsConcat(a[1..], b);
      assert (a + b)[1..] == a[1..] + b;
    }
  }

  lemma {:induction false} WalkUnique(items: seq<Item>, list: seq<Item>, visited: set<string>)
    requires Ids(list) <= Ids(items)
    ensures UniqueIds(Walk(items, list, visited).0)
    decreases Ids(items) - visited, |list|
  {
    if list != [] {
      if DagId(list[0]) in visited {
        WalkUnique(items, list[1..], visited);
      } else {
        WalkStep(items, list, visited);
        var kids, visited' := Kids(items, Some(DagId(list[0]))), visited + {DagId(list[0])};
        var sub := Walk(items, kids, visited');
        WalkUnique(items, kids, visited');
        WalkUnique(items, list[1..], sub.1);
        WalkIds(items, kids, visited');
        WalkIds(items, list[1..], sub.1);
        UniqueWalked(list[0], sub.0, Walk(items, list[1..], sub.1).0);
      }
    }
  }

  lemma UniqueWalked(x: Item, sub: seq<Item>, next: seq<Item>)
    requires UniqueIds(sub) && UniqueIds(next)
    requires DagId(x) !in Ids(sub) && DagId(x) !in Ids(next) && Ids(sub) !! Ids(next)
    ensures UniqueIds([x] + sub + next)
  {
    UniqueConcat(sub, next);
    IdsConcat(sub, next);
    ConcatHead(x, sub, next);
    assert ([x] + (sub + next))[1..] == sub + next;
  }

  /** Every list entry ends up visited, and so do the children of every newly visited id. */
  lemma {:induction false} WalkCovers(items: seq<Item>, list: seq<Item>, visited: set<string>)
    requires Ids(list) <= Ids(items)
    ensures var w := Walk(items, list, visited);
      Ids(list) <= w.1 && forall p :: p in w.1 && p !in visited ==> Ids(Kids(items, Some(p))) <= w.1
    decreases Ids(items) - visited, |list|
  {
    if list != [] {
      if DagId(list[0]) in visited {
        WalkCovers(items, list[1..], visited);
      } else {
        WalkStep(items, list, visited);
        var kids, visited' := Kids(items, Some(DagId(list[0]))), visited + {DagId(list[0])};
        WalkCovers(items, kids, visited');
        WalkCovers(items, list[1..], Walk(items, kids, visited').1);
      }
    }
  }

  /** The list holds children of one key whose own item, if it has one, is visited. */
  predicate Expanding(list: seq<Item>, k: Option<string>, visited: set<string>) {
    (k.Some? ==> k.value in visited) && forall x :: x in list ==> x.parent == k
  }

  lemma KidsExpanding(items: seq<Item>, id: string, visited: set<string>)
    ensures Expanding(Kids(items, Some(id)), Some(id), visited + {id})
  {
    forall x | x in Kids(items, Some(id)) ensures x.parent == Some(id) {
      KidsMember(items, Some(id), x);
    }
  }

  lemma RootsExpanding(items: seq<Item>)
    ensures Expanding(Kids(items, None), None, {})
  {
    forall x | x in Kids(items, None) ensures x.parent == None {
      KidsMember(items, None, x);
    }
  }

  /** What is appended comes from the list or has a newly visited parent. */
  predicate FromListOrNew(r: seq<Item>, k: Option<string>, newly: set<string>) {
    forall x :: x in r ==> x.parent == k || (x.parent.Some? && x.parent.value in newly)
  }

  lemma {:induction false} WalkParents(items: seq<Item>, list: seq<Item>, visited: set<string>, k: Option<string>)
    requires Ids(list) <= Ids(items) && Expanding(list, k, visited)
    ensures var w := Walk(items, list, visited); FromListOrNew(w.0, k, w.1 - visited)
    decreases Ids(items) - visited, |list|
  {
    if list != [] {
      if DagId(list[0]) in visited {
        WalkParents(items, list[1..], visited, k);
      } else {
        WalkStep(items, list, visited);
        var id := DagId(list[0]);
        KidsExpanding(items, id, visited);
        WalkParents(items, Kids(items, Some(id)), visited + {id}, Some(id));
        WalkParents(items, list[1..], Walk(items, Kids(items, Some(id)), visited + {id}).1, k);
      }
    }
  }

  /** Every appended item with a parent comes after an item with that id, or the parent was visited before. */
  ghost predicate Follows(r: seq<Item>, visited: set<string>) {
    forall i :: 0 <= i < |r| && r[i].parent.Some? ==> r[i].parent.value in visited + Ids(r[..i])
  }

  lemma FollowsConcat(a: seq<Item>, b: seq<Item>, visited: set<string>)
    requires Follows(a, visited) && Follows(b, visited + Ids(a))
    ensures Follows(a + b, visited)
  {
    forall i | 0 <= i < |a + b| && (a + b)[i].parent.Some?
      ensures (a + b)[i].parent.value in visited + Ids((a + b)[..i])
    {
      if i < |a| {
        assert (a + b)[..i] == a[..i];
      } else {
        assert (a + b)[..i] == a + b[..i - |a|] && (a + b)[i] == b[i - |a|];
        IdsConcat(a, b[..i - |a|]);
      }
    }
  }

  lemma {:induction false} WalkFollows(items: seq<Item>, list: seq<Item>, visited: set<string>, k: Option<string>)
    requires Ids(list) <= Ids(items) && Expanding(list, k, visited)
    ensures Follows(Walk(items, list, visited).0, visited)
    decreases Ids(items) - visited, |list|
  {
    if list != [] {
      if DagId(list[0]) in visited {
        WalkFollows(items, list[1..], visited, k);
      } else {
        WalkStep(items, list, visited);
        var id := DagId(list[0]);
        var sub := Walk(items, Kids(items, Some(id)), visited + {id});
        KidsExpanding(items, id, visited);
        WalkFollows(items, Kids(items, Some(id)), visited + {id}, Some(id));
        WalkFollows(items, list[1..], sub.1, k);
        WalkIds(items, Kids(items, Some(id)), visited + {id});
        assert Follows([list[0]], visited) && Ids([list[0]]) == {id};
        FollowsConcat([list[0]], sub.0, visited);
        IdsConcat([list[0]], sub.0);
        assert sub.1 == visited + Ids([list[0]] + sub.0);
        FollowsConcat([list[0]] + sub.0, Walk(items, list[1..], sub.1).0, visited);
      }
    }
  }

  predicate Within(a: seq<Item>, b: seq<Item>) {
    forall x :: x in a ==> x in b
  }

  lemma KidsWithin(items: seq<Item>, k: Option<string>)
    ensures Within(Kids(items, k), items)
  {
    forall x | x in Kids(items, k) ensures x in items {
      KidsMember(items, k, x);
    }
  }

  // ---- Chains to a root ----

  /** The chain of parents reaches a root in at most `n` steps. */
  ghost predicate ReachesIn(items: seq<Item>, x: Item, n: nat)
    decreases n
  {
    x.parent.None? || (n > 0 && exists y :: y in items && Some(DagId(y)) == x.parent && ReachesIn(items, y, n - 1))
  }

  ghost predicate Reaches(items: seq<Item>, x: Item) {
    exists n: nat :: ReachesIn(items, x, n)
  }

  /** Some item with this id has a chain to a root. */
  ghost predicate Connected(items: seq<Item>, id: string) {
    exists x :: x in items && DagId(x) == id && Reaches(items, x)
  }

  lemma {:induction false} WalkReaches(items: seq<Item>, list: seq<Item>, visited: set<string>)
    requires Ids(list) <= Ids(items) && Within(list, items)
    requires forall x :: x in list ==> Reaches(items, x)
    ensures var w := Walk(items, list, visited); Within(w.0, items) && forall x :: x in w.0 ==> Reaches(items, x)
    decreases Ids(items) - visited, |list|
  {
    if list != [] {
      if DagId(list[0]) in visited {
        WalkReaches(items, list[1..], visited);
      } else {
        WalkStep(items, list, visited);
        var id := DagId(list[0]);
        KidsWithin(items, Some(id));
        forall x | x in Kids(items, Some(id)) ensures Reaches(items, x) {
          KidReaches(items, list[0], x);
        }
        WalkReaches(items, Kids(items, Some(id)), visited + {id});
        WalkReaches(items, list[1..], Walk(items, Kids(items, Some(id)), visited + {id}).1);
      }
    }
  }

  lemma KidReaches(items: seq<Item>, parent: Item, x: Item)
    requires parent in items && Reaches(items, parent) && x in Kids(items, Some(DagId(parent)))
    ensures Reaches(items, x)
  {
    KidsMember(items, Some(DagId(parent)), x);
    var n: nat :| ReachesIn(items, parent, n);
    assert ReachesIn(items, x, n + 1);
  }

  lemma {:induction false} ReachedIsVisited(items: seq<Item>, x: Item, n: nat)
    requires x in items && ReachesIn(items, x, n)
    ensures DagId(x) in WalkRoots(items).1
    decreases n
  {
    KidsIds(items, None);
    WalkCovers(items, Kids(items, None), {});
    KidsMember(items, x.parent, x);
    IdsMember(Kids(items, x.parent), DagId(x));
    if x.parent.Some? {
      var y :| y in items && Some(DagId(y)) == x.parent && ReachesIn(items, y, n - 1);
      ReachedIsVisited(items, y, n - 1);
    }
  }

  /** The walk visits exactly the connected ids. */
  lemma VisitedIsConnected(items: seq<Item>, id: string)
    ensures id in WalkRoots(items).1 <==> Connected(items, id)
  {
    KidsIds(items, None);
    KidsWithin(items, None);
    RootsExpanding(items);
    assert forall x :: x in Kids(items, None) ==> ReachesIn(items, x, 0);
    WalkReaches(items, Kids(items, None), {});
    WalkIds(items, Kids(items, None), {});
    IdsMember(WalkRoots(items).0, id);
    if Connected(items, id) {
      var x :| x in items && DagId(x) == id && Reaches(items, x);
      var n: nat :| ReachesIn(items, x, n);
      ReachedIsVisited(items, x, n);
    }
  }

  // ---- Ordering twice ----

  lemma {:induction false} NoKids(s: seq<Item>, k: Option<string>)
    requires forall x :: x in s ==> x.parent != k
    ensures Kids(s, k) == []
  {
    if s != [] {
      NoKids(s[1..], k);
    }
  }

  lemma KidsOfWalked(x: Item, sub: seq<Item>, next: seq<Item>, k: Option<string>)
    ensures Kids([x] + sub + next, k) == (if x.parent == k then [x] else []) + Kids(sub, k) + Kids(next, k)
  {
    KidsConcat([x] + sub, next, k);
    KidsConcat([x], sub, k);
    assert [x][1..] == [];
  }

  /** Which children a walked list holds: those of its own key, and those of the ids it visited. */
  lemma KidsSplit(x: Item, sub: seq<Item>, next: seq<Item>, k: Option<string>,
                  visited: set<string>, v1: set<string>, v2: set<string>)
    requires x.parent == k && (k.Some? ==> k.value in visited) && DagId(x) !in visited
    requires visited + {DagId(x)} <= v1 <= v2
    requires FromListOrNew(sub, Some(DagId(x)), v1 - (visited + {DagId(x)})) && FromListOrNew(next, k, v2 - v1)
    ensures Kids([x] + sub + next, k) == [x] + Kids(next, k)
    ensures forall p :: p in v1 && p !in visited ==> Kids([x] + sub + next, Some(p)) == Kids(sub, Some(p))
    ensures forall p :: p in v2 && p !in v1 ==> Kids([x] + sub + next, Some(p)) == Kids(next, Some(p))
  {
    KidsOfWalked(x, sub, next, k);
    NoKids(sub, k);
    forall p | p in v2 && p !in visited
      ensures Kids([x] + sub + next, Some(p)) == if p in v1 then Kids(sub, Some(p)) else Kids(next, Some(p)) {
      KidsOfWalked(x, sub, next, Some(p));
      if p in v1 {
        NoKids(next, Some(p));
      } else {
        NoKids(sub, Some(p));
      }
    }
  }

  /** Walking any list whose children are those of the walk's own output walks it again. */
  lemma {:induction false} WalkAgain(
    items: seq<Item>, list: seq<Item>, visited: set<string>, k: Option<string>, again: seq<Item>)
    requires Ids(list) <= Ids(items) && Expanding(list, k, visited)
    requires var w := Walk(items, list, visited);
      && Ids(Kids(w.0, k)) <= Ids(again)
      && forall p :: p in w.1 && p !in visited ==> Kids(again, Some(p)) == Kids(w.0, Some(p))
    ensures var w := Walk(items, list, visited); Walk(again, Kids(w.0, k), visited) == w
    decreases Ids(items) - visited, |list|
  {
    if list != [] {
      if DagId(list[0]) in visited {
        WalkAgain(items, list[1..], visited, k, again);
      } else {
        WalkStep(items, list, visited);
        var x, id := list[0], DagId(list[0]);
        var sub := Walk(items, Kids(items, Some(id)), visited + {id});
        var next := Walk(items, list[1..], sub.1);
        KidsExpanding(items, id, visited);
        WalkParents(items, Kids(items, Some(id)), visited + {id}, Some(id));
        WalkParents(items, list[1..], sub.1, k);
        KidsSplit(x, sub.0, next.0, k, visited, sub.1, next.1);
        assert Kids(again, Some(id)) == Kids(sub.0, Some(id));
        KidsIds(again, Some(id));
        WalkAgain(items, Kids(items, Some(id)), visited + {id}, Some(id), again);
        var own := Kids([x] + sub.0 + next.0, k);
        assert own[0] == x && own[1..] == Kids(next.0, k);
        WalkAgain(items, list[1..], sub.1, k, again);
        WalkStep(again, own, visited);
      }
    }
  }

  /** No child of a visited id, and no root, is left over. */
  lemma LeftoverKids(items: seq<Item>, k: Option<string>)
    requires k.Some? ==> k.value in WalkRoots(items).1
    ensures Kids(Outside(items, WalkRoots(items).1), k) == []
  {
    var v := WalkRoots(items).1;
    KidsIds(items, None);
    WalkCovers(items, Kids(items, None), {});
    forall x | x in Outside(items, v) ensures x.parent != k {
      OutsideMember(items, v, x);
      KidsMember(items, k, x);
      IdsMember(Kids(items, k), DagId(x));
    }
    NoKids(Outside(items, v), k);
  }

  lemma {:induction false} NoneOutside(s: seq<Item>, v: set<string>)
    requires Ids(s) <= v
    ensures Outside(s, v) == []
  {
    if s != [] {
      NoneOutside(s[1..], v);
    }
  }

  lemma {:induction false} OutsideTwice(s: seq<Item>, v: set<string>)
    ensures Outside(Outside(s, v), v) == Outside(s, v)
  {
    if s != [] {
      OutsideTwice(s[1..], v);
      if DagId(s[0]) !in v {
        assert Outside(s, v)[1..] == Outside(s[1..], v);
      }
    }
  }

  function Reordered(items: seq<Item>): seq<Item> {
    WalkRoots(items).0 + Outside(items, WalkRoots(items).1)
  }

  /** What the walk left over is what the reordered list has outside the visited ids. */
  lemma ReorderedOutside(items: seq<Item>)
    ensures Outside(Reordered(items), WalkRoots(items).1) == Outside(items, WalkRoots(items).1)
  {
    var w := WalkRoots(items);
    KidsIds(items, None);
    WalkIds(items, Kids(items, None), {});
    NoneOutside(w.0, w.1);
    OutsideTwice(items, w.1);
    OutsideConcat(w.0, Outside(items, w.1), w.1);
  }

  lemma ReorderedKids(items: seq<Item>, k: Option<string>)
    requires k.Some? ==> k.value in WalkRoots(items).1
    ensures Kids(Reordered(items), k) == Kids(WalkRoots(items).0, k)
  {
    LeftoverKids(items, k);
    KidsConcat(WalkRoots(items).0, Outside(items, WalkRoots(items).1), k);
  }

  lemma ReorderedWalk(items: seq<Item>)
    ensures WalkRoots(Reordered(items)) == WalkRoots(items)
  {
    var w := WalkRoots(items);
    KidsIds(items, None);
    RootsExpanding(items);
    ReorderedKids(items, None);
    KidsIds(Reordered(items), None);
    forall p | p in w.1 ensures Kids(Reordered(items), Some(p)) == Kids(w.0, Some(p)) {
      ReorderedKids(items, Some(p));
    }
    WalkAgain(items, Kids(items, None), {}, None, Reordered(items));
  }

  /** Ordering an ordered list changes nothing, whatever the ids and parents are. */
  lemma OrderIsIdempotent(items: seq<Item>)
    ensures Order(Order(items)) == Order(items)
  {
    ReorderedWalk(items);
    ReorderedOutside(items);
  }

  // ---- Siblings ----

  lemma {:induction false} UniqueMembers(s: seq<Item>, x: Item, y: Item)
    requires UniqueIds(s) && x in s && y in s && DagId(x) == DagId(y)
    ensures x == y
  {
    IdsMember(s[1..], DagId(x));
    if x != s[0] && y != s[0] {
      UniqueMembers(s[1..], x, y);
    }
  }

  lemma {:induction false} UniqueKids(s: seq<Item>, k: Option<string>)
    requires UniqueIds(s)
    ensures UniqueIds(Kids(s, k))
  {
    if s != [] {
      UniqueKids(s[1..], k);
      KidsIds(s[1..], k);
      if s[0].parent == k {
        assert Kids(s, k)[1..] == Kids(s[1..], k);
      }
    }
  }

  /** Nothing is visited before its parent's id. */
  ghost predicate ParentClosed(items: seq<Item>, visited: set<string>) {
    forall x :: x in items && DagId(x) in visited && x.parent.Some? ==> x.parent.value in visited
  }

  lemma {:induction false} WalkWithin(items: seq<Item>, list: seq<Item>, visited: set<string>)
    requires Ids(list) <= Ids(items) && Within(list, items)
    ensures Within(Walk(items, list, visited).0, items)
    decreases Ids(items) - visited, |list|
  {
    if list != [] {
      if DagId(list[0]) in visited {
        WalkWithin(items, list[1..], visited);
      } else {
        WalkStep(items, list, visited);
        var id := DagId(list[0]);
        KidsWithin(items, Some(id));
        WalkWithin(items, Kids(items, Some(id)), visited + {id});
        WalkWithin(items, list[1..], Walk(items, Kids(items, Some(id)), visited + {id}).1);
      }
    }
  }

  /** Before a child list is walked none of it has been visited. */
  lemma KidsUnvisited(items: seq<Item>, x: Item, visited: set<string>)
    requires UniqueIds(items) && x in items && DagId(x) !in visited
    requires ParentClosed(items, visited) && (x.parent.Some? ==> x.parent.value in visited)
    ensures ParentClosed(items, visited + {DagId(x)})
    ensures Ids(Kids(items, Some(DagId(x)))) !! visited + {DagId(x)}
  {
    var k := Some(DagId(x));
    forall y | y in items && DagId(y) == DagId(x) ensures y == x {
      UniqueMembers(items, x, y);
    }
    forall id | id in Ids(Kids(items, k)) ensures id !in visited + {DagId(x)} {
      IdsMember(Kids(items, k), id);
      var c :| c in Kids(items, k) && DagId(c) == id;
      KidsMember(items, k, c);
    }
  }

  lemma KidsReady(items: seq<Item>, x: Item, visited: set<string>)
    requires UniqueIds(items) && x in items && DagId(x) !in visited
    requires ParentClosed(items, visited) && (x.parent.Some? ==> x.parent.value in visited)
    ensures var kids, visited' := Kids(items, Some(DagId(x))), visited + {DagId(x)};
      && Expanding(kids, Some(DagId(x)), visited') && Within(kids, items) && UniqueIds(kids)
      && Ids(kids) !! visited' && ParentClosed(items, visited')
  {
    KidsUnvisited(items, x, visited);
    KidsExpanding(items, DagId(x), visited);
    KidsWithin(items, Some(DagId(x)));
    UniqueKids(items, Some(DagId(x)));
  }

  /** Walking one child's descendants leaves its younger siblings unvisited. */
  lemma SiblingsUnvisited(items: seq<Item>, x: Item, rest: seq<Item>, k: Option<string>, visited: set<string>)
    requires UniqueIds(items) && Within(rest, items) && Ids(Kids(items, Some(DagId(x)))) <= Ids(items)
    requires k.Some? ==> k.value in visited
    requires DagId(x) !in visited && DagId(x) !in Ids(rest) && Ids(rest) !! visited
    requires forall y :: y in rest ==> y.parent == k
    ensures Ids(rest) !! Walk(items, Kids(items, Some(DagId(x))), visited + {DagId(x)}).1
  {
    var kids, visited' := Kids(items, Some(DagId(x))), visited + {DagId(x)};
    var sub := Walk(items, kids, visited').0;
    KidsExpanding(items, DagId(x), visited);
    KidsWithin(items, Some(DagId(x)));
    WalkIds(items, kids, visited');
    WalkWithin(items, kids, visited');
    WalkParents(items, kids, visited', Some(DagId(x)));
    forall id | id in Ids(rest) ensures id !in Ids(sub) {
      IdsMember(rest, id);
      IdsMember(sub, id);
      var y :| y in rest && DagId(y) == id;
      if z :| z in sub && DagId(z) == id {
        UniqueMembers(items, y, z);
      }
    }
  }

  /** With distinct ids, every child list that is reached is walked whole and in order. */
  lemma {:induction false} WalkSiblings(items: seq<Item>, list: seq<Item>, visited: set<string>, k: Option<string>)
    requires Ids(list) <= Ids(items) && Expanding(list, k, visited)
    requires UniqueIds(items) && UniqueIds(list) && Within(list, items)
    requires Ids(list) !! visited && ParentClosed(items, visited)
    ensures var w := Walk(items, list, visited);
      && Kids(w.0, k) == list && ParentClosed(items, w.1)
      && forall p :: p in w.1 && p !in visited ==> Kids(w.0, Some(p)) == Kids(items, Some(p))
    decreases Ids(items) - visited, |list|
  {
    if list != [] {
      WalkStep(items, list, visited);
      var x, id := list[0], DagId(list[0]);
      var kids, visited' := Kids(items, Some(id)), visited + {id};
      var sub := Walk(items, kids, visited');
      KidsReady(items, x, visited);
      WalkSiblings(items, kids, visited', Some(id));
      WalkParents(items, kids, visited', Some(id));
      SiblingsUnvisited(items, x, list[1..], k, visited);
      WalkSiblings(items, list[1..], sub.1, k);
      WalkParents(items, list[1..], sub.1, k);
      KidsSplit(x, sub.0, Walk(items, list[1..], sub.1).0, k, visited, sub.1, Walk(items, list[1..], sub.1).1);
    }
  }

  lemma {:induction false} KidsOutside(s: seq<Item>, v: set<string>, k: Option<string>)
    requires forall x :: x in s && x.parent == k ==> DagId(x) !in v
    ensures Kids(Outside(s, v), k) == Kids(s, k)
  {
    if s != [] {
      KidsOutside(s[1..], v, k);
      if DagId(s[0]) !in v {
        assert Outside(s, v)[1..] == Outside(s[1..], v);
      }
    }
  }

  /** With distinct ids, the children of every parent key keep their input order, and so do the roots. */
  lemma SiblingsKeepOrder(items: seq<Item>, k: Option<string>)
    requires UniqueIds(items)
    ensures Kids(Order(items), k) == Kids(items, k)
  {
    var w := WalkRoots(items);
    KidsIds(items, None);
    RootsExpanding(items);
    KidsWithin(items, None);
    UniqueKids(items, None);
    WalkSiblings(items, Kids(items, None), {}, None);
    if k.Some? && k.value !in w.1 {
      WalkParents(items, Kids(items, None), {}, None);
      NoKids(w.0, k);
      KidsOutside(items, w.1, k);
      KidsConcat(w.0, Outside(items, w.1), k);
    } else {
      ReorderedKids(items, k);
    }
  }

  /** The items that no chain connects to a root keep their input order. */
  lemma UnconnectedKeepOrder(items: seq<Item>)
    ensures Outside(Order(items), WalkRoots(items).1) == Outside(items, WalkRoots(items).1)
  {
    ReorderedOutside(items);
  }
}
