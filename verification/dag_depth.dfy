/** A reordered list is in depth-first order: between an item and its children are only its descendants. */
module DagDepth {
  import opened Wrappers
  import opened Dag
  import opened DagOrder
  import opened DagResults

  /** The chain of parents, within the list, leads to the item with this id in at most `n + 1` steps. */
  ghost predicate Under(s: seq<Item>, id: string, x: Item, n: nat)
    decreases n
  {
    x.parent == Some(id) || (n > 0 && exists y :: y in s && Some(DagId(y)) == x.parent && Under(s, id, y, n - 1))
  }

  ghost predicate Descends(s: seq<Item>, id: string, x: Item) {
    exists n: nat :: Under(s, id, x, n)
  }

  /** Whatever stands between an item and one of its children descends from the item. */
  ghost predicate Together(s: seq<Item>) {
    forall i, m, j :: 0 <= i < m < j < |s| && s[j].parent == Some(DagId(s[i])) ==> Descends(s, DagId(s[i]), s[m])
  }

  lemma {:induction false} UnderMore(s: seq<Item>, t: seq<Item>, id: string, x: Item, n: nat)
    requires Within(s, t) && Under(s, id, x, n)
    ensures Under(t, id, x, n)
    decreases n
  {
    if x.parent != Some(id) {
      var y :| y in s && Some(DagId(y)) == x.parent && Under(s, id, y, n - 1);
      UnderMore(s, t, id, y, n - 1);
    }
  }

  lemma DescendsMore(s: seq<Item>, t: seq<Item>, id: string, x: Item)
    requires Within(s, t) && Descends(s, id, x)
    ensures Descends(t, id, x)
  {
    var n: nat :| Under(s, id, x, n);
    UnderMore(s, t, id, x, n);
  }

  /** Descending from a child is descending from its parent. */
  lemma {:induction false} UnderChild(s: seq<Item>, t: seq<Item>, child: Item, id: string, x: Item, n: nat)
    requires Within(s, t) && child in t && child.parent == Some(id) && Under(s, DagId(child), x, n)
    ensures Under(t, id, x, n + 1)
    decreases n
  {
    if x.parent == Some(DagId(child)) {
      assert Under(t, id, child, n);
    } else {
      var y :| y in s && Some(DagId(y)) == x.parent && Under(s, DagId(child), y, n - 1);
      UnderChild(s, t, child, id, y, n - 1);
    }
  }

  lemma DescendsFromChild(s: seq<Item>, t: seq<Item>, child: Item, id: string, x: Item)
    requires Within(s, t) && child in t && child.parent == Some(id) && Descends(s, DagId(child), x)
    ensures Descends(t, id, x)
  {
    var n: nat :| Under(s, DagId(child), x, n);
    UnderChild(s, t, child, id, x, n);
  }

  /** Everything that the walk over one item's children appends descends from the item. */
  lemma {:induction false} WalkDescends(items: seq<Item>, list: seq<Item>, visited: set<string>, id: string)
    requires Ids(list) <= Ids(items) && Expanding(list, Some(id), visited)
    ensures var w := Walk(items, list, visited).0; forall x :: x in w ==> Descends(w, id, x)
    decreases Ids(items) - visited, |list|
  {
    if list != [] {
      var x0 := list[0];
      if DagId(x0) in visited {
        WalkDescends(items, list[1..], visited, id);
        assert Walk(items, list, visited) == Walk(items, list[1..], visited);
      } else {
        WalkStep(items, list, visited);
        KidsExpanding(items, DagId(x0), visited);
        var kids := Kids(items, Some(DagId(x0)));
        var (a, v) := Walk(items, kids, visited + {DagId(x0)});
        var b := Walk(items, list[1..], v).0;
        WalkDescends(items, kids, visited + {DagId(x0)}, DagId(x0));
        WalkDescends(items, list[1..], v, id);
        var w := [x0] + a + b;
        forall x | x in w ensures Descends(w, id, x) {
          if x == x0 {
            assert Under(w, id, x, 0);
          } else if x in a {
            DescendsFromChild(a, w, x0, id, x);
          } else {
            DescendsMore(b, w, id, x);
          }
        }
      }
    }
  }

  /** The parts that the walk puts together: a child's item stands apart from its siblings' descendants. */
  ghost predicate Parted(x: Item, a: seq<Item>, b: seq<Item>) {
    && (forall y :: y in a ==> Descends(a, DagId(x), y))
    && forall y :: y in b && y.parent.Some? ==> y.parent.value != DagId(x) && y.parent.value !in Ids(a)
  }

  lemma TogetherInside(x: Item, a: seq<Item>, b: seq<Item>, i: nat, m: nat, j: nat)
    requires Together(a) && Parted(x, a, b)
    requires i < m < j <= |a| && a[j - 1].parent == Some(DagId(([x] + a)[i]))
    ensures Descends([x] + a + b, DagId(([x] + a)[i]), a[m - 1])
  {
    hide Descends;
    if i > 0 {
      assert ([x] + a)[i] == a[i - 1];
    }
    assert a[m - 1] in a;
    DescendsMore(a, [x] + a + b, DagId(([x] + a)[i]), a[m - 1]);
  }

  lemma TogetherAfter(x: Item, a: seq<Item>, b: seq<Item>, i: nat, m: nat, j: nat)
    requires Together(b) && i < m < j < |b| && b[j].parent == Some(DagId(b[i]))
    ensures Descends([x] + a + b, DagId(b[i]), b[m])
  {
    hide Descends;
    assert Descends(b, DagId(b[i]), b[m]);
    hide Together;
    DescendsMore(b, [x] + a + b, DagId(b[i]), b[m]);
  }

  lemma TogetherAt(x: Item, a: seq<Item>, b: seq<Item>, i: nat, m: nat, j: nat)
    requires Together(a) && Together(b) && Parted(x, a, b)
    requires var s := [x] + a + b; i < m < j < |s| && s[j].parent == Some(DagId(s[i]))
    ensures var s := [x] + a + b; Descends(s, DagId(s[i]), s[m])
  {
    hide Descends, Together;
    var s, n := [x] + a + b, |a| + 1;
    if j < n {
      assert s[j] == a[j - 1] && s[m] == a[m - 1] && s[i] == ([x] + a)[i];
      TogetherInside(x, a, b, i, m, j);
    } else {
      assert s[j] == b[j - n] && b[j - n] in b;
      NotBefore(x, a, s[i], i, s);
      assert s[i] == b[i - n] && s[m] == b[m - n];
      TogetherAfter(x, a, b, i - n, m - n, j - n);
    }
  }

  /** Putting the item, the walk over its children and the walk over its siblings together. */
  lemma TogetherConcat(x: Item, a: seq<Item>, b: seq<Item>)
    requires Together(a) && Together(b) && Parted(x, a, b)
    ensures Together([x] + a + b)
  {
    hide Descends, Parted;
    var s := [x] + a + b;
    forall i, m, j | 0 <= i < m < j < |s| && s[j].parent == Some(DagId(s[i])) ensures Descends(s, DagId(s[i]), s[m]) {
      TogetherAt(x, a, b, i, m, j);
    }
  }

  lemma NotBefore(x: Item, a: seq<Item>, y: Item, i: nat, s: seq<Item>)
    requires i < |s| && |s| > |a| && s[..|a| + 1] == [x] + a && y == s[i]
    requires DagId(y) != DagId(x) && DagId(y) !in Ids(a)
    ensures i > |a|
  {
    if i <= |a| {
      assert s[..|a| + 1][i] == y;
      IdsMember(a, DagId(y));
    }
  }

  lemma {:induction false} WalkTogether(items: seq<Item>, list: seq<Item>, visited: set<string>, k: Option<string>)
    requires Ids(list) <= Ids(items) && Expanding(list, k, visited)
    ensures Together(Walk(items, list, visited).0)
    decreases Ids(items) - visited, |list|
  {
    if list != [] {
      var id := DagId(list[0]);
      if id in visited {
        WalkTogether(items, list[1..], visited, k);
      } else {
        WalkStep(items, list, visited);
        KidsExpanding(items, id, visited);
        var kids := Kids(items, Some(id));
        var (a, v) := Walk(items, kids, visited + {id});
        WalkTogether(items, kids, visited + {id}, Some(id));
        WalkTogether(items, list[1..], v, k);
        WalkDescends(items, kids, visited + {id}, id);
        WalkIds(items, kids, visited + {id});
        WalkParents(items, list[1..], v, k);
        TogetherConcat(list[0], a, Walk(items, list[1..], v).0);
      }
    }
  }

  /**
   * When a reorder runs, whatever stands in the result between an item and a
   * connected child of it descends from the item.
   */
  lemma DepthFirst(items: seq<Item>, i: nat, m: nat, j: nat)
    requires |items| > 1 && NeedsReorder(items)
    requires i < m < j < |Order(items)| && Connected(items, DagId(Order(items)[j]))
    requires Order(items)[j].parent == Some(DagId(Order(items)[i]))
    ensures Descends(Order(items), DagId(Order(items)[i]), Order(items)[m])
  {
    var r, w := Order(items), WalkRoots(items);
    KidsIds(items, None);
    RootsExpanding(items);
    WalkTogether(items, Kids(items, None), {}, None);
    VisitedIsConnected(items, DagId(r[j]));
    if j >= |w.0| {
      assert r[j] in Outside(items, w.1);
      OutsideMember(items, w.1, r[j]);
    }
    assert r[i] == w.0[i] && r[m] == w.0[m] && r[j] == w.0[j];
    assert Descends(w.0, DagId(w.0[i]), w.0[m]);
    DescendsMore(w.0, r, DagId(r[i]), r[m]);
  }
}
