/** What names an item: its `uuid`, else its `id`, else the empty string. */
module DagNames {
  import opened Wrappers
  import opened Dag
  import opened DagOrder
  import opened DagResults

  /** The fields as the order reads them. */
  predicate IsNamed(x: Item, name: string) {
    match x.uuid
    case Some(uuid) => name == uuid
    case None => match x.id case Some(id) => name == id case None => name == ""
  }

  /** The same parent, the same content and the same name, whichever field it is in. */
  predicate Alike(x: Item, y: Item) {
    && x.parent == y.parent && x.body == y.body
    && match x.uuid
       case Some(uuid) => IsNamed(y, uuid)
       case None => match x.id case Some(id) => IsNamed(y, id) case None => IsNamed(y, "")
  }

  predicate AllAlike(a: seq<Item>, b: seq<Item>) {
    |a| == |b| && forall i :: 0 <= i < |a| ==> Alike(a[i], b[i])
  }

  lemma AlikeTail(a: seq<Item>, b: seq<Item>)
    requires AllAlike(a, b) && a != []
    ensures Alike(a[0], b[0]) && DagId(a[0]) == DagId(b[0]) && AllAlike(a[1..], b[1..])
  {
    assert Alike(a[0], b[0]);
    forall i | 0 <= i < |a[1..]| ensures Alike(a[1..][i], b[1..][i]) {
      assert Alike(a[i + 1], b[i + 1]);
    }
  }

  lemma AlikeConcat(a: seq<Item>, b: seq<Item>, c: seq<Item>, d: seq<Item>)
    requires AllAlike(a, b) && AllAlike(c, d)
    ensures AllAlike(a + c, b + d)
  {
    forall i | 0 <= i < |a + c| ensures Alike((a + c)[i], (b + d)[i]) {
      if i < |a| {
        assert Alike(a[i], b[i]);
      } else {
        assert Alike(c[i - |a|], d[i - |a|]);
      }
    }
  }

  lemma {:induction false} AlikeCheck(a: seq<Item>, b: seq<Item>, seen: set<string>)
    requires AllAlike(a, b)
    ensures NeedsReorderFrom(a, seen) == NeedsReorderFrom(b, seen) && Ids(a) == Ids(b)
  {
    if a != [] {
      AlikeTail(a, b);
      AlikeCheck(a[1..], b[1..], seen + {DagId(a[0])});
    }
  }

  lemma {:induction false} AlikeKids(a: seq<Item>, b: seq<Item>, k: Option<string>)
    requires AllAlike(a, b)
    ensures AllAlike(Kids(a, k), Kids(b, k))
  {
    if a != [] {
      AlikeTail(a, b);
      AlikeKids(a[1..], b[1..], k);
      AlikeConcat([a[0]], [b[0]], Kids(a[1..], k), Kids(b[1..], k));
    }
  }

  lemma {:induction false} AlikeOutside(a: seq<Item>, b: seq<Item>, v: set<string>)
    requires AllAlike(a, b)
    ensures AllAlike(Outside(a, v), Outside(b, v))
  {
    if a != [] {
      AlikeTail(a, b);
      AlikeOutside(a[1..], b[1..], v);
      AlikeConcat([a[0]], [b[0]], Outside(a[1..], v), Outside(b[1..], v));
    }
  }

  lemma {:induction false} AlikeWalk(a: seq<Item>, b: seq<Item>, c: seq<Item>, d: seq<Item>, visited: set<string>)
    requires AllAlike(a, b) && AllAlike(c, d) && Ids(c) <= Ids(a) && Ids(d) <= Ids(b)
    ensures AllAlike(Walk(a, c, visited).0, Walk(b, d, visited).0)
    ensures Walk(a, c, visited).1 == Walk(b, d, visited).1
    decreases Ids(a) - visited, |c|
  {
    if c != [] {
      AlikeTail(c, d);
      var id := DagId(c[0]);
      if id in visited {
        AlikeWalk(a, b, c[1..], d[1..], visited);
      } else {
        WalkStep(a, c, visited);
        WalkStep(b, d, visited);
        AlikeKids(a, b, Some(id));
        KidsIds(a, Some(id));
        KidsIds(b, Some(id));
        AlikeWalk(a, b, Kids(a, Some(id)), Kids(b, Some(id)), visited + {id});
        var v := Walk(a, Kids(a, Some(id)), visited + {id});
        var w := Walk(b, Kids(b, Some(id)), visited + {id});
        AlikeWalk(a, b, c[1..], d[1..], v.1);
        AlikeConcat([c[0]], [d[0]], v.0, w.0);
        AlikeConcat([c[0]] + v.0, [d[0]] + w.0, Walk(a, c[1..], v.1).0, Walk(b, d[1..], v.1).0);
      }
    }
  }

  /** Lists whose items differ only in the field that holds the name are ordered alike. */
  lemma NamesDecide(a: seq<Item>, b: seq<Item>)
    requires AllAlike(a, b)
    ensures AllAlike(Order(a), Order(b))
  {
    AlikeCheck(a, b, {});
    AlikeKids(a, b, None);
    KidsIds(a, None);
    KidsIds(b, None);
    AlikeWalk(a, b, Kids(a, None), Kids(b, None), {});
    AlikeOutside(a, b, WalkRoots(a).1);
    AlikeConcat(WalkRoots(a).0, WalkRoots(b).0, Outside(a, WalkRoots(a).1), Outside(b, WalkRoots(a).1));
  }

  // ---- Lists whose items are named by one field ----

  /** The chain of parents, read in one field, reaches a root within `n` steps. */
  ghost predicate ChainIn(items: seq<Item>, field: Item -> Option<string>, x: Item, n: nat)
    decreases n
  {
    x.parent.None?
    || (n > 0 && exists y :: y in items && field(y).Some? && field(y) == x.parent && ChainIn(items, field, y, n - 1))
  }

  /** The field is there, its values are distinct, and every chain of parents read in it ends at a root. */
  ghost predicate WellNamed(items: seq<Item>, field: Item -> Option<string>) {
    && (forall x :: x in items ==> field(x).Some?)
    && (forall i, j :: 0 <= i < j < |items| ==> field(items[i]) != field(items[j]))
    && (forall x :: x in items ==> exists n: nat :: ChainIn(items, field, x, n))
  }

  /** The same items, and every item with a non-empty parent comes after the item of that name. */
  ghost predicate IsOrdered(items: seq<Item>, result: seq<Item>, field: Item -> Option<string>) {
    && multiset(result) == multiset(items)
    && forall i :: 0 <= i < |result| && result[i].parent.Some? && result[i].parent != Some("") ==>
         exists j :: 0 <= j < i && field(result[j]) == result[i].parent
  }

  lemma {:induction false} ChainReaches(items: seq<Item>, field: Item -> Option<string>, x: Item, n: nat)
    requires (forall y :: y in items ==> field(y) == Some(DagId(y))) && ChainIn(items, field, x, n)
    ensures ReachesIn(items, x, n)
    decreases n
  {
    if x.parent.Some? {
      var y :| y in items && field(y) == x.parent && ChainIn(items, field, y, n - 1);
      ChainReaches(items, field, y, n - 1);
    }
  }

  lemma NamedOrder(items: seq<Item>, field: Item -> Option<string>)
    requires (forall x :: x in items ==> field(x) == Some(DagId(x))) && WellNamed(items, field)
    ensures IsOrdered(items, Order(items), field)
  {
    forall x | x in items ensures Connected(items, DagId(x)) {
      var n: nat :| ChainIn(items, field, x, n);
      ChainReaches(items, field, x, n);
      assert Reaches(items, x);
    }
    forall i, j | 0 <= i < j < |items| ensures DagId(items[i]) != DagId(items[j]) {
      assert field(items[i]) != field(items[j]);
    }
    PermutationExactly(items);
    var result := Order(items);
    forall x | x in result ensures x in items {
      assert multiset(result)[x] > 0;
    }
    forall i | 0 <= i < |result| && result[i].parent.Some? && result[i].parent != Some("")
      ensures exists j :: 0 <= j < i && field(result[j]) == result[i].parent
    {
      assert result[i] in items;
      ConnectedFollowParents(items, i);
      IdsMember(result[..i], result[i].parent.value);
      var y :| y in result[..i] && DagId(y) == result[i].parent.value;
      var j :| 0 <= j < i && result[j] == y;
      assert field(result[j]) == result[i].parent;
    }
  }

  /** Items that carry only an `id`: it names them. */
  lemma IdNames(items: seq<Item>)
    requires (forall x :: x in items ==> x.uuid.None?) && WellNamed(items, (x: Item) => x.id)
    ensures IsOrdered(items, Order(items), (x: Item) => x.id)
  {
    NamedOrder(items, (x: Item) => x.id);
  }

  /** Items that carry a `uuid`, and perhaps an `id` as well: the `uuid` names them. */
  lemma UuidNames(items: seq<Item>)
    requires WellNamed(items, (x: Item) => x.uuid)
    ensures IsOrdered(items, Order(items), (x: Item) => x.uuid)
  {
    NamedOrder(items, (x: Item) => x.uuid);
  }
}
