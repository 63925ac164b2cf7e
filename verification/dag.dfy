/** Ordering messages by their parent chains (packages/shared/src/dag.ts). */
module Dag {
  import opened Wrappers

  datatype Item = Item(uuid: Option<string>, id: Option<string>, parent: Option<string>, body: string)

  /** `uuid`, else `id`, else the empty string. */
  function DagId(x: Item): string {
    if x.uuid.Some? then x.uuid.value else if x.id.Some? then x.id.value else ""
  }

  function Ids(s: seq<Item>): set<string> {
    if s == [] then {} else {DagId(s[0])} + Ids(s[1..])
  }

  /** A parent that the order check looks at: the empty string does not count as one. */
  predicate HasParent(x: Item) {
    x.parent.Some? && x.parent.value != ""
  }

  predicate NeedsReorderFrom(s: seq<Item>, seen: set<string>) {
    s != [] && ((HasParent(s[0]) && s[0].parent.value !in seen) || NeedsReorderFrom(s[1..], seen + {DagId(s[0])}))
  }

  predicate NeedsReorder(s: seq<Item>) {
    NeedsReorderFrom(s, {})
  }

  /** The children of one parent key, in list order. */
  function Kids(s: seq<Item>, k: Option<string>): seq<Item> {
    if s == [] then [] else if s[0].parent == k then [s[0]] + Kids(s[1..], k) else Kids(s[1..], k)
  }

  lemma {:induction false} KidsIds(s: seq<Item>, k: Option<string>)
    ensures Ids(Kids(s, k)) <= Ids(s)
  {
    if s != [] {
      KidsIds(s[1..], k);
      if s[0].parent == k {
        assert Kids(s, k)[1..] == Kids(s[1..], k);
      }
    }
  }

  /** The items whose id is not in the set, in list order. */
  function Outside(s: seq<Item>, v: set<string>): seq<Item> {
    if s == [] then [] else if DagId(s[0]) !in v then [s[0]] + Outside(s[1..], v) else Outside(s[1..], v)
  }

  /** The depth-first walk over `list`: what it appends, and the ids visited after it. */
  function Walk(items: seq<Item>, list: seq<Item>, visited: set<string>): (r: (seq<Item>, set<string>))
    requires Ids(list) <= Ids(items)
    ensures visited <= r.1
    decreases Ids(items) - visited, |list|
  {
    if list == [] then ([], visited)
    else
      var id := DagId(list[0]);
      if id in visited then Walk(items, list[1..], visited)
      else
        KidsIds(items, Some(id));
        var (r1, v1) := Walk(items, Kids(items, Some(id)), visited + {id});
        var (r2, v2) := Walk(items, list[1..], v1);
        ([list[0]] + r1 + r2, v2)
  }

  function WalkRoots(items: seq<Item>): (seq<Item>, set<string>) {
    KidsIds(items, None);
    Walk(items, Kids(items, None), {})
  }

  function Order(items: seq<Item>): seq<Item> {
    if |items| <= 1 || !NeedsReorder(items) then items
    else WalkRoots(items).0 + Outside(items, WalkRoots(items).1)
  }

  // ---- The code ----

  method CheckNeedsReorder(items: seq<Item>) returns (needed: bool)
    ensures needed == NeedsReorder(items)
  {
    var seen: set<string> := {};
    for i := 0 to |items|
      invariant NeedsReorder(items) == NeedsReorderFrom(items[i..], seen)
    {
      if HasParent(items[i]) && items[i].parent.value !in seen {
        return true;
      }
      seen := seen + {DagId(items[i])};
      assert items[i..][1..] == items[i + 1..];
    }
    return false;
  }

  lemma ConcatHead(x: Item, a: seq<Item>, b: seq<Item>)
    ensures [x] + (a + b) == [x] + a + b
  {
  }

  lemma {:induction false} KidsConcat(a: seq<Item>, b: seq<Item>, k: Option<string>)
    ensures Kids(a + b, k) == Kids(a, k) + Kids(b, k)
  {
    if a == [] {
      assert a + b == b;
    } else {
      KidsConcat(a[1..], b, k);
      assert (a + b)[0] == a[0] && (a + b)[1..] == a[1..] + b;
      if a[0].parent == k {
        ConcatHead(a[0], Kids(a[1..], k), Kids(b, k));
      }
    }
  }

  lemma {:induction false} OutsideConcat(a: seq<Item>, b: seq<Item>, v: set<string>)
    ensures Outside(a + b, v) == Outside(a, v) + Outside(b, v)
  {
    if a == [] {
      assert a + b == b;
    } else {
      OutsideConcat(a[1..], b, v);
      assert (a + b)[0] == a[0] && (a + b)[1..] == a[1..] + b;
      if DagId(a[0]) !in v {
        ConcatHead(a[0], Outside(a[1..], v), Outside(b, v));
      }
    }
  }

  lemma OutsideSnoc(s: seq<Item>, i: nat, v: set<string>)
    requires i < |s|
    ensures Outside(s[..i + 1], v) == Outside(s[..i], v) + if DagId(s[i]) in v then [] else [s[i]]
  {
    assert s[..i + 1] == s[..i] + [s[i]];
    OutsideConcat(s[..i], [s[i]], v);
  }

  type Children = map<Option<string>, seq<Item>>

  /** The map groups exactly these items by parent key. */
  ghost predicate Groups(children: Children, s: seq<Item>) {
    forall k :: Kids(s, k) == if k in children then children[k] else []
  }

  method GroupByParent(items: seq<Item>) returns (children: Children)
    ensures Groups(children, items)
  {
    children := map[];
    for i := 0 to |items|
      invariant Groups(children, items[..i])
    {
      var key := items[i].parent;
      var siblings := if key in children then children[key] else [];
      ghost var before := children;
      children := children[key := siblings + [items[i]]];
      assert items[..i + 1] == items[..i] + [items[i]];
      forall k ensures Kids(items[..i + 1], k) == if k in children then children[k] else [] {
        KidsConcat(items[..i], [items[i]], k);
        assert Kids(items[..i], k) == if k in before then before[k] else [];
      }
    }
    assert items[..|items|] == items;
  }

  /** The walk at a list whose head has not been visited. */
  lemma WalkStep(items: seq<Item>, list: seq<Item>, visited: set<string>)
    requires list != [] && Ids(list) <= Ids(items) && DagId(list[0]) !in visited
    ensures Ids(Kids(items, Some(DagId(list[0])))) <= Ids(items)
    ensures var sub := Walk(items, Kids(items, Some(DagId(list[0]))), visited + {DagId(list[0])});
      var next := Walk(items, list[1..], sub.1);
      && Walk(items, list, visited) == ([list[0]] + sub.0 + next.0, next.1)
      && Ids(items) - (visited + {DagId(list[0])}) < Ids(items) - visited
  {
    KidsIds(items, Some(DagId(list[0])));
    assert DagId(list[0]) in Ids(items) - visited;
  }

  lemma ConcatSteps(before: seq<Item>, x: Item, sub: seq<Item>, next: seq<Item>)
    ensures before + ([x] + sub + next) == before + [x] + sub + next
  {
  }

  /** The walk's shared variables. */
  class ChainWalk {
    var result: seq<Item>
    var visited: set<string>
    const children: Children
    ghost const items: seq<Item>

    constructor (children: Children, ghost items: seq<Item>)
      ensures this.children == children && this.items == items && result == [] && visited == {}
    {
      this.children, this.items := children, items;
      result, visited := [], {};
    }

    /** Nothing but the shared variables carries a visit's result. */
    method Visit(parent: Option<string>)
      requires Groups(children, items) && Ids(Kids(items, parent)) <= Ids(items)
      modifies this
      ensures var w := Walk(items, Kids(items, parent), old(visited));
        result == old(result) + w.0 && visited == w.1
      decreases Ids(items) - visited
    {
      var list := if parent in children then children[parent] else [];
      assert list == Kids(items, parent);
      ghost var whole := Walk(items, list, visited);
      assert list[0..] == list;
      for i := 0 to |list|
        invariant old(visited) <= visited && Ids(list[i..]) <= Ids(items)
        invariant old(result) + whole.0 == result + Walk(items, list[i..], visited).0
        invariant whole.1 == Walk(items, list[i..], visited).1
      {
        var item := list[i];
        var id := DagId(item);
        assert list[i..][0] == item && list[i..][1..] == list[i + 1..];
        if id !in visited {
          WalkStep(items, list[i..], visited);
          ghost var sub := Walk(items, Kids(items, Some(id)), visited + {id});
          ConcatSteps(result, item, sub.0, Walk(items, list[i + 1..], sub.1).0);
          visited := visited + {id};
          result := result + [item];
          Visit(Some(id));
        }
      }
    }
  }

  /** Unvisited items go to the end. */
  method AppendUnvisited(items: seq<Item>, result: seq<Item>, visited: set<string>) returns (ordered: seq<Item>)
    ensures ordered == result + Outside(items, visited)
  {
    ordered := result;
    for i := 0 to |items|
      invariant ordered == result + Outside(items[..i], visited)
    {
      OutsideSnoc(items, i, visited);
      if DagId(items[i]) !in visited {
        ordered := ordered + [items[i]];
      }
    }
    assert items[..|items|] == items;
  }

  method OrderByParentChain(items: seq<Item>) returns (ordered: seq<Item>)
    ensures ordered == Order(items)
  {
    if |items| <= 1 {
      return items;
    }
    var needed := CheckNeedsReorder(items);
    if !needed {
      return items;
    }
    var children := GroupByParent(items);
    var walk := new ChainWalk(children, items);
    KidsIds(items, None);
    walk.Visit(None);
    assert walk.result == [] + WalkRoots(items).0 == WalkRoots(items).0;
    ordered := AppendUnvisited(items, walk.result, walk.visited);
  }
}
