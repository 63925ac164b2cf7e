/** The main results on ordering by parent chain: nothing lost, parents first, complete when chains are. */
module DagResults {
  import opened Wrappers
  import opened Dag
  import opened DagOrder

  /** Every item whose parent is the empty string, which the check skips and the walk looks up, is connected. */
  ghost predicate BlankParentsConnected(s: seq<Item>) {
    forall x :: x in s && x.parent == Some("") ==> Connected(s, DagId(x))
  }

  ghost predicate AllConnected(s: seq<Item>) {
    forall x :: x in s ==> Connected(s, DagId(x))
  }

  /** An unconnected item with a non-blank parent that is the id of no unconnected item before it. */
  ghost predicate Stray(s: seq<Item>, i: nat) {
    && i < |s| && HasParent(s[i]) && !Connected(s, DagId(s[i]))
    && forall j :: 0 <= j < i && DagId(s[j]) == s[i].parent.value ==> Connected(s, DagId(s[j]))
  }

  lemma {:induction false} CheckConcat(a: seq<Item>, b: seq<Item>, seen: set<string>)
    ensures NeedsReorderFrom(a + b, seen) <==> NeedsReorderFrom(a, seen) || NeedsReorderFrom(b, seen + Ids(a))
  {
    if a == [] {
      assert a + b == b;
      assert seen + Ids(a) == seen;
    } else {
      CheckConcat(a[1..], b, seen + {DagId(a[0])});
      assert (a + b)[1..] == a[1..] + b;
      assert seen + {DagId(a[0])} + Ids(a[1..]) == seen + Ids(a);
    }
  }

  lemma FollowsPassesCheck(s: seq<Item>)
    requires Follows(s, {})
    ensures !NeedsReorder(s)
  {
    NeedsReorderMeans(s, {});
  }

  /** Ids that no item has as its parent can be left out of the check. */
  lemma {:induction false} CheckIgnores(s: seq<Item>, seen: set<string>, extra: set<string>)
    requires forall x :: x in s && x.parent.Some? ==> x.parent.value !in extra
    ensures NeedsReorderFrom(s, seen + extra) <==> NeedsReorderFrom(s, seen)
  {
    if s != [] {
      CheckIgnores(s[1..], seen + {DagId(s[0])}, extra);
      assert seen + {DagId(s[0])} + extra == seen + extra + {DagId(s[0])};
    }
  }

  /** The walked part is in order; the leftover part has no parent in it. */
  lemma WalkedInOrder(items: seq<Item>)
    ensures Follows(WalkRoots(items).0, {}) && WalkRoots(items).1 == Ids(WalkRoots(items).0)
  {
    KidsIds(items, None);
    RootsExpanding(items);
    WalkFollows(items, Kids(items, None), {}, None);
    WalkIds(items, Kids(items, None), {});
  }

  lemma LeftoverParents(items: seq<Item>, x: Item)
    requires x in Outside(items, WalkRoots(items).1)
    ensures x.parent.Some? && x.parent.value !in WalkRoots(items).1
  {
    if x.parent.None? || x.parent.value in WalkRoots(items).1 {
      LeftoverKids(items, x.parent);
      KidsMember(Outside(items, WalkRoots(items).1), x.parent, x);
    }
  }

  /** A reordered list needs reordering again exactly if its leftover part does by itself. */
  lemma ReorderedCheck(items: seq<Item>)
    ensures NeedsReorder(Reordered(items)) <==> NeedsReorder(Outside(items, WalkRoots(items).1))
  {
    var w := WalkRoots(items);
    var rest := Outside(items, w.1);
    WalkedInOrder(items);
    FollowsPassesCheck(w.0);
    CheckConcat(w.0, rest, {});
    forall x | x in rest ensures x.parent.Some? && x.parent.value !in w.1 {
      LeftoverParents(items, x);
    }
    CheckIgnores(rest, {}, w.1);
    assert {} + Ids(w.0) == {} + w.1;
  }

  /** The same on an arbitrary set of ids, to follow the list. */
  predicate StrayFrom(s: seq<Item>, v: set<string>, seen: set<string>, i: nat) {
    && i < |s| && HasParent(s[i]) && DagId(s[i]) !in v && s[i].parent.value !in seen
    && forall j :: 0 <= j < i && DagId(s[j]) == s[i].parent.value ==> DagId(s[j]) in v
  }

  lemma {:induction false} OutsideCheck(s: seq<Item>, v: set<string>, seen: set<string>)
    ensures NeedsReorderFrom(Outside(s, v), seen) <==> exists i: nat :: StrayFrom(s, v, seen, i)
  {
    if s != [] {
      var seen' := if DagId(s[0]) in v then seen else seen + {DagId(s[0])};
      OutsideCheck(s[1..], v, seen');
      if DagId(s[0]) !in v {
        assert Outside(s, v)[1..] == Outside(s[1..], v);
      }
      assert StrayFrom(s, v, seen, 0) <==> DagId(s[0]) !in v && HasParent(s[0]) && s[0].parent.value !in seen;
      forall i: nat ensures StrayFrom(s, v, seen, i + 1) <==> StrayFrom(s[1..], v, seen', i) {
        StrayLater(s, v, seen, i);
      }
      if i: nat :| StrayFrom(s, v, seen, i) && i > 0 {
        assert StrayFrom(s[1..], v, seen', i - 1);
      }
    }
  }

  lemma StrayLater(s: seq<Item>, v: set<string>, seen: set<string>, i: nat)
    requires s != []
    ensures StrayFrom(s, v, seen, i + 1) <==>
      StrayFrom(s[1..], v, if DagId(s[0]) in v then seen else seen + {DagId(s[0])}, i)
  {
    forall j | 0 < j < |s| ensures s[j] == s[1..][j - 1] {
    }
    if StrayFrom(s, v, seen, i + 1) {
      forall j | 0 <= j < i && DagId(s[1..][j]) == s[i + 1].parent.value ensures DagId(s[1..][j]) in v {
        assert s[1..][j] == s[j + 1];
      }
    }
  }

  lemma StrayLeftover(items: seq<Item>)
    ensures NeedsReorder(Outside(items, WalkRoots(items).1)) <==> exists i: nat :: Stray(items, i)
  {
    var v := WalkRoots(items).1;
    OutsideCheck(items, v, {});
    forall i: nat ensures StrayFrom(items, v, {}, i) <==> Stray(items, i) {
      forall j | 0 <= j < |items| ensures DagId(items[j]) in v <==> Connected(items, DagId(items[j])) {
        VisitedIsConnected(items, DagId(items[j]));
      }
    }
  }

  /** The leftover part is empty exactly if every item's id is connected to a root. */
  lemma LeftoverEmpty(items: seq<Item>)
    ensures Outside(items, WalkRoots(items).1) == [] <==> AllConnected(items)
  {
    var rest := Outside(items, WalkRoots(items).1);
    forall x | x in items ensures x in rest <==> !Connected(items, DagId(x)) {
      OutsideMember(items, WalkRoots(items).1, x);
      VisitedIsConnected(items, DagId(x));
    }
    if rest != [] {
      OutsideMember(items, WalkRoots(items).1, rest[0]);
      assert rest[0] in rest;
    }
  }

  /** In a list that passes the check every item is connected, if those with a blank parent are. */
  lemma {:induction false} PassedIsConnected(items: seq<Item>, i: nat)
    requires i < |items| && BlankParentsConnected(items) && !NeedsReorder(items)
    ensures Connected(items, DagId(items[i]))
  {
    var x := items[i];
    assert x in items;
    if x.parent.None? {
      assert ReachesIn(items, x, 0);
      assert Reaches(items, x);
    } else if x.parent != Some("") {
      NeedsReorderMeans(items, {});
      assert !Misplaced(items, {}, i);
      IdsMember(items[..i], x.parent.value);
      var y :| y in items[..i] && DagId(y) == x.parent.value;
      var j: nat :| j < i && items[..i][j] == y;
      PassedIsConnected(items, j);
      var z :| z in items && DagId(z) == DagId(y) && Reaches(items, z);
      KidsMember(items, Some(DagId(y)), x);
      KidReaches(items, z, x);
    }
  }

  /** A single item that fails the check is connected to nothing. */
  lemma LoneItem(items: seq<Item>)
    requires |items| == 1 && NeedsReorder(items)
    ensures WalkRoots(items).1 == {}
  {
    NeedsReorderMeans(items, {});
    NoKids(items, None);
  }

  /** The result passes the check exactly if the list did, or reordering leaves no stray item. */
  lemma OrderPassesExactly(items: seq<Item>)
    ensures !NeedsReorder(Order(items)) <==> !NeedsReorder(items) || forall i: nat :: !Stray(items, i)
  {
    StrayLeftover(items);
    if NeedsReorder(items) {
      if |items| <= 1 {
        LoneItem(items);
        assert Outside(items, {}) == items;
      } else {
        ReorderedCheck(items);
        assert Order(items) == Reordered(items);
      }
    }
  }

  /** If every parent chain ends at a root the result passes the check. */
  lemma ConnectedPasses(items: seq<Item>)
    requires AllConnected(items)
    ensures !NeedsReorder(Order(items))
  {
    OrderPassesExactly(items);
    forall i: nat ensures !Stray(items, i) {
      assert i < |items| ==> items[i] in items;
    }
  }

  /**
   * "The result passes the check exactly if every parent chain ends at a root"
   * is true exactly of the lists in which every item with a blank parent is
   * connected, or which are reordered and leave a stray item.
   */
  lemma OrderedIffConnected(items: seq<Item>)
    ensures (!NeedsReorder(Order(items)) <==> AllConnected(items)) <==>
      BlankParentsConnected(items) || (NeedsReorder(items) && exists i: nat :: Stray(items, i))
  {
    OrderPassesExactly(items);
    if AllConnected(items) {
      ConnectedPasses(items);
    } else if BlankParentsConnected(items) {
      if !NeedsReorder(items) {
        forall x | x in items ensures Connected(items, DagId(x)) {
          var i: nat :| i < |items| && items[i] == x;
          PassedIsConnected(items, i);
        }
      } else {
        LeftoverEmpty(items);
        LeftoverHeadIsStray(items);
      }
    }
  }

  /** The first unconnected item is stray if its parent is not blank. */
  lemma LeftoverHeadIsStray(items: seq<Item>)
    requires BlankParentsConnected(items) && Outside(items, WalkRoots(items).1) != []
    ensures exists i: nat :: Stray(items, i)
  {
    var v := WalkRoots(items).1;
    var rest := Outside(items, v);
    LeftoverParents(items, rest[0]);
    OutsideMember(items, v, rest[0]);
    VisitedIsConnected(items, DagId(rest[0]));
    StrayLeftover(items);
  }

  /**
   * A list with a blank parent: the check takes the item for a root, the walk
   * does not, so the order passes the check although an item is unconnected.
   */
  lemma BlankParentDisagrees()
    ensures var items := [Item(Some("a"), None, Some(""), "")];
      !NeedsReorder(Order(items)) && !Connected(items, "a")
  {
    var items := [Item(Some("a"), None, Some(""), "")];
    assert items[1..] == [];
    assert WalkRoots(items).1 == {};
    VisitedIsConnected(items, "a");
  }

  /** In the result every connected item comes after an item with its parent's id. */
  lemma ConnectedFollowParents(items: seq<Item>, i: nat)
    requires i < |Order(items)| && Connected(items, DagId(Order(items)[i])) && HasParent(Order(items)[i])
    ensures Order(items)[i].parent.value in Ids(Order(items)[..i])
  {
    var r, w := Order(items), WalkRoots(items);
    if !NeedsReorder(items) {
      NeedsReorderMeans(items, {});
      assert !Misplaced(items, {}, i);
    } else if |items| <= 1 {
      LoneItem(items);
      VisitedIsConnected(items, DagId(items[0]));
    } else {
      VisitedIsConnected(items, DagId(r[i]));
      if i >= |w.0| {
        assert r[i] in Outside(items, w.1);
        OutsideMember(items, w.1, r[i]);
        assert false;
      }
      WalkedInOrder(items);
      assert r[..i] == w.0[..i];
    }
  }

  // ---- Nothing lost ----

  /** The items whose id is in the set, in list order. */
  function Inside(s: seq<Item>, v: set<string>): seq<Item> {
    if s == [] then [] else if DagId(s[0]) in v then [s[0]] + Inside(s[1..], v) else Inside(s[1..], v)
  }

  lemma {:induction false} SplitBag(s: seq<Item>, v: set<string>)
    ensures multiset(s) == multiset(Inside(s, v)) + multiset(Outside(s, v))
  {
    if s != [] {
      SplitBag(s[1..], v);
      assert s == [s[0]] + s[1..];
    }
  }

  lemma {:induction false} InsideMember(s: seq<Item>, v: set<string>, x: Item)
    ensures x in Inside(s, v) <==> x in s && DagId(x) in v
  {
    if s != [] {
      InsideMember(s[1..], v, x);
    }
  }

  lemma {:induction false} InsideIds(s: seq<Item>, v: set<string>)
    ensures Ids(Inside(s, v)) == Ids(s) * v
  {
    if s != [] {
      InsideIds(s[1..], v);
      if DagId(s[0]) in v {
        assert Inside(s, v)[1..] == Inside(s[1..], v);
      }
    }
  }

  lemma {:induction false} UniqueCount(s: seq<Item>)
    ensures |Ids(s)| <= |s| && (|Ids(s)| == |s| <==> UniqueIds(s))
  {
    if s != [] {
      UniqueCount(s[1..]);
    }
  }

  lemma {:induction false} UniqueBag(s: seq<Item>, x: Item)
    requires UniqueIds(s)
    ensures multiset(s)[x] == if x in s then 1 else 0
  {
    if s != [] {
      assert s == [s[0]] + s[1..];
      UniqueBag(s[1..], x);
      IdsMember(s[1..], DagId(s[0]));
    }
  }

  /** No connected id occurs twice. */
  predicate ConnectedOnce(s: seq<Item>, v: set<string>) {
    forall i, j :: 0 <= i < j < |s| && DagId(s[i]) == DagId(s[j]) ==> DagId(s[i]) !in v
  }

  lemma {:induction false} OnceIsUnique(s: seq<Item>, v: set<string>)
    ensures ConnectedOnce(s, v) <==> UniqueIds(Inside(s, v))
  {
    if s != [] {
      OnceIsUnique(s[1..], v);
      OnceStep(s, v);
      InsideIds(s[1..], v);
      if DagId(s[0]) in v {
        assert Inside(s, v)[1..] == Inside(s[1..], v);
      }
    }
  }

  lemma OnceStep(s: seq<Item>, v: set<string>)
    requires s != []
    ensures ConnectedOnce(s, v) <==> ConnectedOnce(s[1..], v) && (DagId(s[0]) in v ==> DagId(s[0]) !in Ids(s[1..]))
  {
    IdsMember(s[1..], DagId(s[0]));
    if ConnectedOnce(s, v) {
      forall i, j | 0 <= i < j < |s[1..]| && DagId(s[1..][i]) == DagId(s[1..][j]) ensures DagId(s[1..][i]) !in v {
        assert s[1..][i] == s[i + 1] && s[1..][j] == s[j + 1];
      }
      if DagId(s[0]) in Ids(s[1..]) {
        var x :| x in s[1..] && DagId(x) == DagId(s[0]);
        var j :| 0 <= j < |s[1..]| && s[1..][j] == x;
        assert s[j + 1] == x;
      }
    }
    if ConnectedOnce(s[1..], v) && (DagId(s[0]) in v ==> DagId(s[0]) !in Ids(s[1..])) {
      forall i, j | 0 <= i < j < |s| && DagId(s[i]) == DagId(s[j]) ensures DagId(s[i]) !in v {
        assert s[1..][j - 1] == s[j];
        if i > 0 {
          assert s[1..][i - 1] == s[i];
        }
      }
    }
  }

  /** Two lists with distinct and equal ids, one inside the other, hold the same items. */
  lemma SameBag(a: seq<Item>, b: seq<Item>)
    requires UniqueIds(a) && UniqueIds(b) && Ids(a) == Ids(b) && Within(a, b)
    ensures multiset(a) == multiset(b)
  {
    forall x ensures multiset(a)[x] == multiset(b)[x] {
      UniqueBag(a, x);
      UniqueBag(b, x);
      if x in b {
        IdsMember(b, DagId(x));
        IdsMember(a, DagId(x));
        var y :| y in a && DagId(y) == DagId(x);
        UniqueMembers(b, x, y);
      }
    }
  }

  /** The walk's output: distinct ids, all from the list, together all visited ids. */
  lemma WalkedFacts(items: seq<Item>)
    ensures var w := WalkRoots(items);
      && UniqueIds(w.0) && Ids(w.0) == w.1 && Within(w.0, Inside(items, w.1)) && Ids(Inside(items, w.1)) == w.1
  {
    var w := WalkRoots(items);
    KidsIds(items, None);
    KidsWithin(items, None);
    WalkUnique(items, Kids(items, None), {});
    WalkIds(items, Kids(items, None), {});
    WalkWithin(items, Kids(items, None), {});
    forall x | x in w.0 ensures x in Inside(items, w.1) {
      IdsMember(w.0, DagId(x));
      InsideMember(items, w.1, x);
    }
    InsideIds(items, w.1);
    forall id | id in w.1 ensures id in Ids(items) {
      IdsMember(w.0, id);
      IdsMember(items, id);
    }
  }

  lemma ReorderedBag(items: seq<Item>)
    ensures multiset(Reordered(items)) == multiset(items) <==> UniqueIds(Inside(items, WalkRoots(items).1))
  {
    var w := WalkRoots(items);
    var inside := Inside(items, w.1);
    WalkedFacts(items);
    SplitBag(items, w.1);
    if UniqueIds(inside) {
      SameBag(w.0, inside);
    } else {
      UniqueCount(inside);
      UniqueCount(w.0);
      assert |multiset(Reordered(items))| == |w.0| + |Outside(items, w.1)|;
      assert |multiset(items)| == |inside| + |Outside(items, w.1)|;
    }
  }

  /**
   * The result is a permutation of the input exactly if no reordering took
   * place or no two items share an id that is connected to a root: of such
   * items the walk keeps one.
   */
  lemma PermutationExactly(items: seq<Item>)
    ensures multiset(Order(items)) == multiset(items) <==>
      || |items| <= 1 || !NeedsReorder(items)
      || forall i, j :: 0 <= i < j < |items| && DagId(items[i]) == DagId(items[j]) ==>
           !Connected(items, DagId(items[i]))
  {
    var v := WalkRoots(items).1;
    forall i | 0 <= i < |items| ensures DagId(items[i]) in v <==> Connected(items, DagId(items[i])) {
      VisitedIsConnected(items, DagId(items[i]));
    }
    OnceIsUnique(items, v);
    ReorderedBag(items);
  }

  /** Two roots that share an id, in a list that needs reordering: one is lost. */
  lemma DuplicateIsDropped()
    ensures var child, root, twin :=
        Item(Some("b"), None, Some("a"), ""),
        Item(Some("a"), None, None, "first"),
        Item(Some("a"), None, None, "second");
      multiset(Order([child, root, twin])) != multiset([child, root, twin])
  {
    var root := Item(Some("a"), None, None, "first");
    var items := [Item(Some("b"), None, Some("a"), ""), root, Item(Some("a"), None, None, "second")];
    PermutationExactly(items);
    assert ReachesIn(items, items[1], 0) && items[1] in items;
    assert DagId(items[1]) == DagId(items[2]) && Connected(items, DagId(items[1]));
  }
}
