/**
 buildTree: rebuilds the forest of evaluation items from the flat list the backend returns. Items whose parent is
 missing from the list become roots; siblings are sorted by code at every level.
 */
module EvalTree {
  import opened Common

  datatype Item = Item(id: string, code: string, name: string, parentId: Option<string>)

  datatype Tree = Node(item: Item, children: seq<Tree>)

  /** ID -> node; the children lists are kept beside it, keyed by ID. */
  type Nodes = map<string, Item>

  /** localeCompare(a, b) <= 0 on codes; Array.sort demands a total preorder. */
  type Order = (string, string) -> bool

  ghost predicate TotalPreorder(leq: Order) {
    && (forall a, b :: leq(a, b) || leq(b, a))
    && (forall a, b, c :: leq(a, b) && leq(b, c) ==> leq(a, c))
  }

  /** The node's parent, if it names one that is in the list. */
  function ParentOf(nodes: Nodes, id: string): Option<string>
    requires id in nodes
  {
    var p := nodes[id].parentId;
    if p.None? || p.value == "" || p.value !in nodes then None else p
  }

  // ----- sorting siblings -----

  ghost predicate SortedByCode(nodes: Nodes, leq: Order, ids: seq<string>)
    requires forall i :: 0 <= i < |ids| ==> ids[i] in nodes
  {
    forall i, j :: 0 <= i < j < |ids| ==> leq(nodes[ids[i]].code, nodes[ids[j]].code)
  }

  predicate AllIn(nodes: Nodes, ids: seq<string>) {
    forall i :: 0 <= i < |ids| ==> ids[i] in nodes
  }

  /** Stable insertion: before the first element with a larger code. */
  function InsertByCode(nodes: Nodes, leq: Order, id: string, ids: seq<string>): (r: seq<string>)
    requires id in nodes && AllIn(nodes, ids)
    ensures AllIn(nodes, r) && multiset(r) == multiset(ids) + multiset{id}
  {
    if ids == [] then [id]
    else
      assert ids == [ids[0]] + ids[1..];
      if !leq(nodes[ids[0]].code, nodes[id].code) then [id] + ids
      else
        [ids[0]] + InsertByCode(nodes, leq, id, ids[1..])
  }

  function SortByCode(nodes: Nodes, leq: Order, ids: seq<string>): (r: seq<string>)
    requires AllIn(nodes, ids)
    ensures AllIn(nodes, r) && multiset(r) == multiset(ids)
  {
    if ids == [] then []
    else
      assert ids == ids[..|ids| - 1] + [ids[|ids| - 1]];
      InsertByCode(nodes, leq, ids[|ids| - 1], SortByCode(nodes, leq, ids[..|ids| - 1]))
  }

  lemma {:induction false} InsertKeepsSorted(nodes: Nodes, leq: Order, id: string, ids: seq<string>)
    requires id in nodes && AllIn(nodes, ids) && TotalPreorder(leq) && SortedByCode(nodes, leq, ids)
    ensures SortedByCode(nodes, leq, InsertByCode(nodes, leq, id, ids))
  {
    if ids != [] && leq(nodes[ids[0]].code, nodes[id].code) {
      InsertKeepsSorted(nodes, leq, id, ids[1..]);
      var rest := InsertByCode(nodes, leq, id, ids[1..]);
      forall j | 0 <= j < |rest| ensures leq(nodes[ids[0]].code, nodes[rest[j]].code) {
        assert rest[j] in multiset(rest);
        assert rest[j] == id || rest[j] in ids[1..];
      }
    } else if ids != [] {
      forall j | 0 <= j < |ids| ensures leq(nodes[id].code, nodes[ids[j]].code) {
        assert leq(nodes[id].code, nodes[ids[0]].code);
      }
    }
  }

  lemma {:induction false} SortIsSorted(nodes: Nodes, leq: Order, ids: seq<string>)
    requires AllIn(nodes, ids) && TotalPreorder(leq)
    ensures SortedByCode(nodes, leq, SortByCode(nodes, leq, ids))
  {
    if ids != [] {
      SortIsSorted(nodes, leq, ids[..|ids| - 1]);
      InsertKeepsSorted(nodes, leq, ids[|ids| - 1], SortByCode(nodes, leq, ids[..|ids| - 1]));
    }
  }

  // ----- depth below a root -----

  /** Climbing `d` times from `id` gives a node whose parent is `top` (None: a root). */
  predicate Under(nodes: Nodes, id: string, top: Option<string>, d: nat)
    decreases d
  {
    id in nodes &&
    if d == 0 then ParentOf(nodes, id) == top
    else ParentOf(nodes, id).Some? && Under(nodes, ParentOf(nodes, id).value, top, d - 1)
  }

  ghost predicate Below(nodes: Nodes, id: string, top: Option<string>) {
    exists d: nat :: Under(nodes, id, top, d)
  }

  /** `id` is `d` steps below a root. */
  predicate AtDepth(nodes: Nodes, id: string, d: nat) {
    Under(nodes, id, None, d)
  }

  ghost predicate Within(nodes: Nodes, id: string, d: nat) {
    exists k: nat :: k <= d && AtDepth(nodes, id, k)
  }

  /** A node at depth d has d+1 distinct nodes on its way up. */
  lemma {:induction false} DepthBound(nodes: Nodes, id: string, d: nat) returns (path: set<string>)
    requires AtDepth(nodes, id, d)
    ensures path <= nodes.Keys && |path| == d + 1 && d < |nodes|
    ensures forall a :: a in path ==> Within(nodes, a, d)
    decreases d
  {
    path := {id};
    assert Within(nodes, id, d);
    if d > 0 {
      var up := DepthBound(nodes, ParentOf(nodes, id).value, d - 1);
      forall a | a in up ensures Within(nodes, a, d) {
        var k: nat :| k <= d - 1 && AtDepth(nodes, a, k);
      }
      if id in up {
        var k: nat :| k <= d - 1 && AtDepth(nodes, id, k);
        DepthIsUnique(nodes, id, k, d);
      }
      path := up + {id};
    }
    assert nodes.Keys == path + (nodes.Keys - path);
    assert |nodes.Keys| == |nodes|;
  }

  lemma {:induction false} DepthIsUnique(nodes: Nodes, id: string, j: nat, k: nat)
    requires AtDepth(nodes, id, j) && AtDepth(nodes, id, k)
    ensures j == k
    decreases j
  {
    if j > 0 && k > 0 {
      DepthIsUnique(nodes, ParentOf(nodes, id).value, j - 1, k - 1);
    }
  }

  // ----- the algorithm -----

  type Kids = map<string, seq<string>>

  /** `kids` lists, for every node, exactly the nodes naming it as their parent, each once. */
  ghost predicate KidsOk(nodes: Nodes, kids: Kids) {
    && kids.Keys == nodes.Keys
    && (forall p :: p in nodes ==> Lists(nodes, kids[p], Some(p)))
  }

  /** `ids` are exactly the nodes whose parent is `parent`, each once. */
  ghost predicate Lists(nodes: Nodes, ids: seq<string>, parent: Option<string>) {
    && AllIn(nodes, ids)
    && (forall i :: 0 <= i < |ids| ==> ParentOf(nodes, ids[i]) == parent)
    && (forall id :: id in nodes && ParentOf(nodes, id) == parent ==> id in ids)
    && (forall i, j :: 0 <= i < j < |ids| ==> ids[i] != ids[j])
  }

  function IdsOf(ts: seq<Tree>): seq<string> {
    seq(|ts|, i requires 0 <= i < |ts| => ts[i].item.id)
  }

  /** The forest `ts` shows the children of `parent` (or the roots), sorted, and so on downwards. */
  ghost predicate Faithful(nodes: Nodes, leq: Order, ts: seq<Tree>, parent: Option<string>)
    decreases ts
  {
    && Lists(nodes, IdsOf(ts), parent)
    && SortedByCode(nodes, leq, IdsOf(ts))
    && (forall i :: 0 <= i < |ts| ==> FaithfulNode(nodes, leq, ts[i]))
  }

  ghost predicate FaithfulNode(nodes: Nodes, leq: Order, t: Tree)
    decreases t
  {
    && t.item.id in nodes && t.item == nodes[t.item.id]
    && Faithful(nodes, leq, t.children, Some(t.item.id))
  }

  ghost predicate WellKeyed(nodes: Nodes) {
    forall id :: id in nodes ==> nodes[id].id == id
  }

  ghost predicate AllAtDepth(nodes: Nodes, ids: seq<string>, d: nat) {
    forall i :: 0 <= i < |ids| ==> AtDepth(nodes, ids[i], d)
  }

  /** sortRec: sorts one level, then each node's children. */
  method SortRec(nodes: Nodes, kids: Kids, leq: Order, ids: seq<string>, ghost parent: Option<string>, ghost d: nat)
    returns (ts: seq<Tree>)
    requires TotalPreorder(leq) && WellKeyed(nodes) && KidsOk(nodes, kids)
    requires Lists(nodes, ids, parent) && AllAtDepth(nodes, ids, d) && d <= |nodes|
    ensures Faithful(nodes, leq, ts, parent)
    decreases |nodes| - d, 1
  {
    var sorted := SortByCode(nodes, leq, ids);
    SortKeepsDepth(nodes, leq, ids, d);
    ts := SortBelow(nodes, kids, leq, sorted, d);
    SortedLevelIsFaithful(nodes, leq, ids, parent, ts);
  }

  /** The loop of sortRec over the sorted level: each node gets its own children sorted. */
  method SortBelow(nodes: Nodes, kids: Kids, leq: Order, ids: seq<string>, ghost d: nat)
    returns (ts: seq<Tree>)
    requires TotalPreorder(leq) && WellKeyed(nodes) && KidsOk(nodes, kids)
    requires AllAtDepth(nodes, ids, d)
    ensures Shows(nodes, leq, ts, ids)
    decreases |nodes| - d, 0
  {
    ts := [];
    for i := 0 to |ids|
      invariant |ts| == i && Shows(nodes, leq, ts, ids[..i])
    {
      var id := ids[i];
      ChildrenAreDeeper(nodes, kids, id, d);
      var children := SortRec(nodes, kids, leq, kids[id], Some(id), d + 1);
      ShowsNext(nodes, leq, ts, ids, i, Node(nodes[id], children));
      ts := ts + [Node(nodes[id], children)];
    }
    assert ids[..|ids|] == ids;
  }

  /** The trees `ts` stand for `ids`, in that order, each complete below its root. */
  ghost predicate Shows(nodes: Nodes, leq: Order, ts: seq<Tree>, ids: seq<string>) {
    && |ts| == |ids|
    && (forall k :: 0 <= k < |ids| ==> ts[k].item.id == ids[k] && FaithfulNode(nodes, leq, ts[k]))
  }

  lemma ShowsNext(nodes: Nodes, leq: Order, ts: seq<Tree>, ids: seq<string>, i: nat, t: Tree)
    requires i < |ids| && ids[i] in nodes && WellKeyed(nodes) && Shows(nodes, leq, ts, ids[..i])
    requires t.item == nodes[ids[i]] && Faithful(nodes, leq, t.children, Some(ids[i]))
    ensures Shows(nodes, leq, ts + [t], ids[..i + 1])
  {
  }

  lemma SortedLevelIsFaithful(nodes: Nodes, leq: Order, ids: seq<string>, parent: Option<string>, ts: seq<Tree>)
    requires TotalPreorder(leq) && Lists(nodes, ids, parent)
    requires Shows(nodes, leq, ts, SortByCode(nodes, leq, ids))
    ensures Faithful(nodes, leq, ts, parent)
  {
    SortIsSorted(nodes, leq, ids);
    SortKeepsLists(nodes, leq, ids, parent);
    assert IdsOf(ts) == SortByCode(nodes, leq, ids);
  }

  lemma ChildrenAreDeeper(nodes: Nodes, kids: Kids, id: string, d: nat)
    requires KidsOk(nodes, kids) && AtDepth(nodes, id, d)
    ensures Lists(nodes, kids[id], Some(id)) && AllAtDepth(nodes, kids[id], d + 1) && d < |nodes|
  {
    var path := DepthBound(nodes, id, d);
  }

  lemma {:induction false} SortKeepsDepth(nodes: Nodes, leq: Order, ids: seq<string>, d: nat)
    requires AllIn(nodes, ids) && AllAtDepth(nodes, ids, d)
    ensures AllAtDepth(nodes, SortByCode(nodes, leq, ids), d)
  {
    var sorted := SortByCode(nodes, leq, ids);
    forall i | 0 <= i < |sorted| ensures AtDepth(nodes, sorted[i], d) {
      assert sorted[i] in multiset(sorted);
      assert sorted[i] in multiset(ids);
    }
  }

  lemma {:induction false} SortKeepsLists(nodes: Nodes, leq: Order, ids: seq<string>, parent: Option<string>)
    requires Lists(nodes, ids, parent)
    ensures Lists(nodes, SortByCode(nodes, leq, ids), parent)
  {
    var sorted := SortByCode(nodes, leq, ids);
    forall i | 0 <= i < |sorted| ensures ParentOf(nodes, sorted[i]) == parent {
      assert sorted[i] in multiset(ids);
    }
    forall id | id in ids ensures id in sorted {
      assert id in multiset(sorted);
    }
    forall i, j | 0 <= i < j < |sorted| ensures sorted[i] != sorted[j] {
      CountAtMostOne(ids, sorted[i]);
      if sorted[i] == sorted[j] { TwiceCounts(sorted, i, j); }
    }
  }

  lemma {:induction false} CountAtMostOne(ids: seq<string>, x: string)
    requires forall i, j :: 0 <= i < j < |ids| ==> ids[i] != ids[j]
    ensures multiset(ids)[x] <= 1
  {
    if ids != [] {
      assert ids == [ids[0]] + ids[1..];
      CountAtMostOne(ids[1..], x);
      if ids[0] == x {
        assert x !in ids[1..];
      }
    }
  }

  lemma TwiceCounts(s: seq<string>, i: nat, j: nat)
    requires i < j < |s| && s[i] == s[j]
    ensures multiset(s)[s[i]] >= 2
  {
    assert s == s[..j] + s[j..];
    assert s[i] == s[..j][i] && s[j] == s[j..][0];
    assert s[i] in multiset(s[..j]) && s[i] in multiset(s[j..]);
  }

  /** nodeMap after the first loop: the last item with an ID wins. */
  function NodeMap(items: seq<Item>): (nodes: Nodes)
    ensures WellKeyed(nodes)
    ensures forall id :: id in nodes ==> nodes[id] in items
    ensures forall it :: it in items ==> it.id in nodes
  {
    if items == [] then map[]
    else
      var last := items[|items| - 1];
      NodeMap(items[..|items| - 1])[last.id := last]
  }

  /** `ids` are exactly the members of `from` whose parent is `parent`, each once. */
  ghost predicate ListsOf(nodes: Nodes, ids: seq<string>, parent: Option<string>, from: seq<string>)
    requires AllIn(nodes, from)
  {
    && Distinct(ids)
    && (forall id :: id in ids <==> id in from && ParentOf(nodes, id) == parent)
  }

  ghost predicate Distinct(ids: seq<string>) {
    forall i, j :: 0 <= i < j < |ids| ==> ids[i] != ids[j]
  }

  /** The keys of the map in the order Map.values() visits them. */
  ghost predicate Enumerates(nodes: Nodes, order: seq<string>) {
    && Distinct(order)
    && (forall id :: id in nodes <==> id in order)
  }

  method BuildTree(items: seq<Item>, leq: Order) returns (roots: seq<Tree>)
    requires TotalPreorder(leq)
    ensures Faithful(NodeMap(items), leq, roots, None)
  {
    var nodes: Nodes := map[];
    var order: seq<string> := [];
    for i := 0 to |items|
      invariant nodes == NodeMap(items[..i]) && Enumerates(nodes, order)
    {
      assert items[..i + 1][..i] == items[..i];
      if items[i].id !in nodes {
        order := order + [items[i].id];
      }
      nodes := nodes[items[i].id := items[i]];
    }
    assert items[..|items|] == items;
    var kids, top := LinkChildren(nodes, order);
    roots := SortRec(nodes, kids, leq, top, None, 0);
  }

  /** The second loop: every node is pushed to its parent's children, or to the roots. */
  method LinkChildren(nodes: Nodes, order: seq<string>) returns (kids: Kids, roots: seq<string>)
    requires Enumerates(nodes, order)
    ensures KidsOk(nodes, kids) && Lists(nodes, roots, None) && AllAtDepth(nodes, roots, 0)
  {
    kids := map id | id in nodes :: [];
    roots := [];
    for i := 0 to |order|
      invariant Linked(nodes, kids, roots, order[..i])
    {
      var id := order[i];
      var parentId := nodes[id].parentId;
      LinkStep(nodes, kids, roots, order[..i], id);
      assert order[..i + 1] == order[..i] + [id];
      if parentId.None? || parentId.value == "" {
        roots := roots + [id];
      } else if parentId.value in nodes {
        kids := kids[parentId.value := kids[parentId.value] + [id]];
      } else {
        roots := roots + [id];
      }
    }
    assert order[..|order|] == order;
    LinkedAll(nodes, kids, roots, order);
  }

  /** The children and root lists after the nodes `from` have been pushed. */
  ghost predicate Linked(nodes: Nodes, kids: Kids, roots: seq<string>, from: seq<string>) {
    && AllIn(nodes, from) && kids.Keys == nodes.Keys
    && ListsOf(nodes, roots, None, from)
    && (forall p :: p in nodes ==> ListsOf(nodes, kids[p], Some(p), from))
  }

  lemma LinkStep(nodes: Nodes, kids: Kids, roots: seq<string>, from: seq<string>, id: string)
    requires Linked(nodes, kids, roots, from) && id in nodes && id !in from
    ensures var up := ParentOf(nodes, id);
      if up.None? then Linked(nodes, kids, roots + [id], from + [id])
      else Linked(nodes, kids[up.value := kids[up.value] + [id]], roots, from + [id])
  {
  }

  lemma LinkedAll(nodes: Nodes, kids: Kids, roots: seq<string>, order: seq<string>)
    requires Linked(nodes, kids, roots, order) && Enumerates(nodes, order)
    ensures KidsOk(nodes, kids) && Lists(nodes, roots, None) && AllAtDepth(nodes, roots, 0)
  {
    ListsFromAll(nodes, roots, None, order);
    forall p | p in nodes ensures Lists(nodes, kids[p], Some(p)) {
      ListsFromAll(nodes, kids[p], Some(p), order);
    }
  }

  lemma ListsFromAll(nodes: Nodes, ids: seq<string>, parent: Option<string>, order: seq<string>)
    requires AllIn(nodes, order) && Enumerates(nodes, order) && ListsOf(nodes, ids, parent, order)
    ensures Lists(nodes, ids, parent)
  {
  }

  // ----- what the rebuilt tree shows -----

  /** The rows in the order the tree is displayed, fully expanded. */
  function Preorder(ts: seq<Tree>): seq<Item> {
    if ts == [] then [] else [ts[0].item] + Preorder(ts[0].children) + Preorder(ts[1..])
  }

  /** `id` is `top` or below it. */
  ghost predicate Covers(nodes: Nodes, top: string, id: string) {
    id in nodes && (id == top || Below(nodes, id, Some(top)))
  }

  ghost predicate CoversSome(nodes: Nodes, ids: seq<string>, id: string) {
    exists i :: 0 <= i < |ids| && Covers(nodes, ids[i], id)
  }

  lemma {:induction false} UnderDepth(nodes: Nodes, id: string, top: string, d: nat, k: nat)
    requires Under(nodes, id, Some(top), d) && AtDepth(nodes, top, k)
    ensures AtDepth(nodes, id, d + k + 1)
    decreases d
  {
    if d > 0 { UnderDepth(nodes, ParentOf(nodes, id).value, top, d - 1, k); }
  }

  lemma {:induction false} UnderIsUnique(nodes: Nodes, id: string, p: Option<string>, q: Option<string>, d: nat)
    requires Under(nodes, id, p, d) && Under(nodes, id, q, d)
    ensures p == q
    decreases d
  {
    if d > 0 { UnderIsUnique(nodes, ParentOf(nodes, id).value, p, q, d - 1); }
  }

  /** The first step down: below `top` means being, or being below, a child of `top`. */
  lemma {:induction false} UnderSplits(nodes: Nodes, id: string, top: Option<string>, d: nat) returns (child: string)
    requires Under(nodes, id, top, d)
    ensures child in nodes && ParentOf(nodes, child) == top && Covers(nodes, child, id)
    decreases d
  {
    if d == 0 {
      child := id;
    } else {
      var up := ParentOf(nodes, id).value;
      child := UnderSplits(nodes, up, top, d - 1);
      if up == child {
        assert Under(nodes, id, Some(child), 0);
      } else {
        var e: nat :| Under(nodes, up, Some(child), e);
        assert Under(nodes, id, Some(child), e + 1);
      }
    }
  }

  lemma {:induction false} UnderJoins(nodes: Nodes, id: string, child: string, top: Option<string>, d: nat)
    requires child in nodes && Under(nodes, id, Some(child), d) && ParentOf(nodes, child) == top
    ensures Under(nodes, id, top, d + 1)
    decreases d
  {
    if d > 0 { UnderJoins(nodes, ParentOf(nodes, id).value, child, top, d - 1); }
  }

  /** Two nodes of the same depth never cover the same node. */
  lemma CoversOnce(nodes: Nodes, p: string, q: string, id: string, k: nat)
    requires AtDepth(nodes, p, k) && AtDepth(nodes, q, k) && Covers(nodes, p, id) && Covers(nodes, q, id)
    ensures p == q
  {
    if id != p && id != q {
      var d: nat :| Under(nodes, id, Some(p), d);
      var e: nat :| Under(nodes, id, Some(q), e);
      UnderDepth(nodes, id, p, d, k);
      UnderDepth(nodes, id, q, e, k);
      DepthIsUnique(nodes, id, d + k + 1, e + k + 1);
      UnderIsUnique(nodes, id, Some(p), Some(q), d);
    } else if id != p || id != q {
      var top := if id == p then q else p;
      var d: nat :| Under(nodes, id, Some(top), d);
      UnderDepth(nodes, id, top, d, k);
      DepthIsUnique(nodes, id, d + k + 1, k);
    }
  }

  /** Below `top` means covered by one of its children. */
  lemma BelowIffChildCovers(nodes: Nodes, kids: seq<string>, top: Option<string>, id: string)
    requires Lists(nodes, kids, top)
    ensures CoversSome(nodes, kids, id) <==> Below(nodes, id, top)
  {
    if CoversSome(nodes, kids, id) {
      var i :| 0 <= i < |kids| && Covers(nodes, kids[i], id);
      if id == kids[i] {
        assert Under(nodes, id, top, 0);
      } else {
        var d: nat :| Under(nodes, id, Some(kids[i]), d);
        UnderJoins(nodes, id, kids[i], top, d);
      }
    }
    forall d: nat | Under(nodes, id, top, d) ensures CoversSome(nodes, kids, id) {
      var child := UnderSplits(nodes, id, top, d);
      assert child in kids;
    }
  }

  /** `it` is the node of its ID and is one of `ids` or below one. */
  ghost predicate Shown(nodes: Nodes, ids: seq<string>, it: Item) {
    it.id in nodes && nodes[it.id] == it && CoversSome(nodes, ids, it.id)
  }

  function Once(b: bool): nat { if b then 1 else 0 }

  lemma PreorderSplits(ts: seq<Tree>, it: Item)
    requires ts != []
    ensures multiset(Preorder(ts))[it]
         == Once(it == ts[0].item) + multiset(Preorder(ts[0].children))[it] + multiset(Preorder(ts[1..]))[it]
  {
  }

  /** The first node, the nodes below it, and the rest of the level are three disjoint parts. */
  lemma ShownSplits(nodes: Nodes, ids: seq<string>, kids: seq<string>, k: nat, it: Item)
    requires WellKeyed(nodes) && ids != [] && Distinct(ids) && AllAtDepth(nodes, ids, k)
        && Lists(nodes, kids, Some(ids[0]))
    ensures ids[0] in nodes
    ensures Once(Shown(nodes, ids, it))
         == Once(it == nodes[ids[0]]) + Once(Shown(nodes, kids, it)) + Once(Shown(nodes, ids[1..], it))
  {
    BelowIffChildCovers(nodes, kids, Some(ids[0]), it.id);
    OneCovers(nodes, ids, k, it.id);
    assert AtDepth(nodes, ids[0], k);
    HeadNotBelow(nodes, ids[0], k);
    assert ids == [ids[0]] + ids[1..];
    CoversSplits(nodes, ids[0], ids[1..], it.id);
  }

  /** How often the preorder of a faithful forest shows an item: once if the forest covers it, else never. */
  lemma {:induction false} PreorderCounts(nodes: Nodes, leq: Order, ts: seq<Tree>, ids: seq<string>, k: nat, it: Item)
    requires WellKeyed(nodes) && Shows(nodes, leq, ts, ids) && Distinct(ids) && AllAtDepth(nodes, ids, k)
    ensures multiset(Preorder(ts))[it] == Once(Shown(nodes, ids, it))
    decreases ts
  {
    if ts != [] {
      var h, kids := ts[0], IdsOf(ts[0].children);
      assert FaithfulNode(nodes, leq, h) && h.item.id == ids[0] && AtDepth(nodes, ids[0], k);
      FaithfulShows(nodes, leq, h.children, Some(ids[0]));
      LevelBelow(nodes, kids, ids[0], k);
      PreorderCounts(nodes, leq, h.children, kids, k + 1, it);
      PreorderCounts(nodes, leq, ts[1..], ids[1..], k, it);
      PreorderSplits(ts, it);
      ShownSplits(nodes, ids, kids, k, it);
    }
  }

  lemma FaithfulShows(nodes: Nodes, leq: Order, ts: seq<Tree>, parent: Option<string>)
    requires Faithful(nodes, leq, ts, parent)
    ensures Lists(nodes, IdsOf(ts), parent) && Shows(nodes, leq, ts, IdsOf(ts))
  {
  }

  lemma LevelBelow(nodes: Nodes, kids: seq<string>, top: string, k: nat)
    requires Lists(nodes, kids, Some(top)) && AtDepth(nodes, top, k)
    ensures AllAtDepth(nodes, kids, k + 1)
  {
  }

  lemma HeadNotBelow(nodes: Nodes, top: string, k: nat)
    requires AtDepth(nodes, top, k)
    ensures forall d: nat :: !Under(nodes, top, Some(top), d)
  {
    forall d: nat | Under(nodes, top, Some(top), d) ensures false {
      UnderDepth(nodes, top, top, d, k);
      DepthIsUnique(nodes, top, d + k + 1, k);
    }
  }

  lemma OneCovers(nodes: Nodes, ids: seq<string>, k: nat, id: string)
    requires Distinct(ids) && AllAtDepth(nodes, ids, k) && ids != []
    ensures !(Covers(nodes, ids[0], id) && CoversSome(nodes, ids[1..], id))
  {
    if Covers(nodes, ids[0], id) && CoversSome(nodes, ids[1..], id) {
      var i :| 0 <= i < |ids[1..]| && Covers(nodes, ids[1..][i], id);
      CoversOnce(nodes, ids[0], ids[i + 1], id, k);
    }
  }

  lemma CoversSplits(nodes: Nodes, head: string, rest: seq<string>, id: string)
    ensures CoversSome(nodes, [head] + rest, id) <==> Covers(nodes, head, id) || CoversSome(nodes, rest, id)
  {
    var all := [head] + rest;
    if Covers(nodes, head, id) { assert Covers(nodes, all[0], id); }
    if CoversSome(nodes, rest, id) {
      var i :| 0 <= i < |rest| && Covers(nodes, rest[i], id);
      assert Covers(nodes, all[i + 1], id);
    }
  }

  // ----- main results -----

  /** `id` reaches a root by climbing. */
  ghost predicate Rooted(nodes: Nodes, id: string) {
    exists d: nat :: AtDepth(nodes, id, d)
  }

  /** `id` is its own ancestor. */
  ghost predicate OnCycle(nodes: Nodes, id: string) {
    Below(nodes, id, Some(id))
  }

  ghost predicate Acyclic(nodes: Nodes) {
    forall id :: !OnCycle(nodes, id)
  }

  ghost predicate UniqueIds(items: seq<Item>) {
    forall i, j :: 0 <= i < j < |items| ==> items[i].id != items[j].id
  }

  /** Every tree buildTree returns shows an item once if it reaches a root, and hides it otherwise. */
  lemma {:induction false} ShownIffRooted(items: seq<Item>, leq: Order, roots: seq<Tree>, it: Item)
    requires Faithful(NodeMap(items), leq, roots, None)
    ensures var nodes := NodeMap(items);
      multiset(Preorder(roots))[it]
      == if it.id in nodes && nodes[it.id] == it && Rooted(nodes, it.id) then 1 else 0
  {
    var nodes, ids := NodeMap(items), IdsOf(roots);
    FaithfulShows(nodes, leq, roots, None);
    RootsAtDepthZero(nodes, ids, it.id);
    PreorderCounts(nodes, leq, roots, ids, 0, it);
  }

  lemma RootsAtDepthZero(nodes: Nodes, ids: seq<string>, id: string)
    requires Lists(nodes, ids, None)
    ensures Distinct(ids) && AllAtDepth(nodes, ids, 0)
    ensures CoversSome(nodes, ids, id) <==> Rooted(nodes, id)
  {
    BelowIffChildCovers(nodes, ids, None, id);
    forall d: nat | Under(nodes, id, None, d) ensures AtDepth(nodes, id, d) {}
  }

  /** Climbing from `id` ends at a root or runs into a cycle; `seen` is the path climbed so far. */
  lemma {:induction false} RootOrCycle(nodes: Nodes, id: string, seen: set<string>)
    requires id in nodes && seen <= nodes.Keys
    requires forall a :: a in seen ==> Below(nodes, a, Some(id))
    ensures Rooted(nodes, id) || !Acyclic(nodes)
    decreases nodes.Keys - seen
  {
    if id in seen {
      assert OnCycle(nodes, id);
    } else if ParentOf(nodes, id).None? {
      assert AtDepth(nodes, id, 0);
    } else {
      var up := ParentOf(nodes, id).value;
      forall a | a in seen + {id} ensures Below(nodes, a, Some(up)) {
        if a == id {
          assert Under(nodes, id, Some(up), 0);
        } else {
          var d: nat :| Under(nodes, a, Some(id), d);
          UnderJoins(nodes, a, id, Some(up), d);
        }
      }
      RootOrCycle(nodes, up, seen + {id});
      if Rooted(nodes, up) {
        var d: nat :| AtDepth(nodes, up, d);
        assert AtDepth(nodes, id, d + 1);
      }
    }
  }

  lemma RootedIffAcyclic(nodes: Nodes)
    ensures (forall id :: id in nodes ==> Rooted(nodes, id)) <==> Acyclic(nodes)
  {
    if Acyclic(nodes) {
      forall id | id in nodes ensures Rooted(nodes, id) {
        RootOrCycle(nodes, id, {});
      }
    }
    forall id | id in nodes && Rooted(nodes, id) ensures !OnCycle(nodes, id) {
      var k: nat :| AtDepth(nodes, id, k);
      HeadNotBelow(nodes, id, k);
    }
  }

  /** How often the list has an item, and how often the displayed tree shows it. */
  lemma {:induction false} CountsOf(items: seq<Item>, leq: Order, roots: seq<Tree>, it: Item)
    requires UniqueIds(items) && Faithful(NodeMap(items), leq, roots, None)
    ensures multiset(items)[it] == if Has(items, it) then 1 else 0
    ensures multiset(Preorder(roots))[it] == if Has(items, it) && Rooted(NodeMap(items), it.id) then 1 else 0
  {
    ItemCounts(items, it);
    ShownIffRooted(items, leq, roots, it);
  }

  predicate Has(items: seq<Item>, it: Item) {
    it.id in NodeMap(items) && NodeMap(items)[it.id] == it
  }

  /** With unique IDs, the displayed tree is a permutation of the list exactly when the parent links have no cycle. */
  lemma {:induction false} PermutationIffAcyclic(items: seq<Item>, leq: Order, roots: seq<Tree>)
    requires UniqueIds(items) && Faithful(NodeMap(items), leq, roots, None)
    ensures multiset(Preorder(roots)) == multiset(items) <==> Acyclic(NodeMap(items))
  {
    var shown, nodes := Preorder(roots), NodeMap(items);
    RootedIffAcyclic(nodes);
    if Acyclic(nodes) {
      forall it ensures multiset(shown)[it] == multiset(items)[it] {
        CountsOf(items, leq, roots, it);
      }
    } else {
      var id :| id in nodes && !Rooted(nodes, id);
      CountsOf(items, leq, roots, nodes[id]);
    }
  }

  lemma {:induction false} ItemCounts(items: seq<Item>, it: Item)
    requires UniqueIds(items)
    ensures var nodes := NodeMap(items);
      multiset(items)[it] == if it.id in nodes && nodes[it.id] == it then 1 else 0
  {
    if items != [] {
      var init, last := items[..|items| - 1], items[|items| - 1];
      assert items == init + [last];
      ItemCounts(init, it);
      if it.id == last.id {
        assert it !in init;
        forall x | x in init ensures x.id != last.id {}
      }
    }
  }

  // ----- the levels, on the items' own fields -----

  /** Of several items with one ID the node map keeps the last. */
  lemma {:induction false} NodeMapKeepsLast(items: seq<Item>, k: nat)
    requires k < |items| && forall j :: k < j < |items| ==> items[j].id != items[k].id
    ensures items[k].id in NodeMap(items) && NodeMap(items)[items[k].id] == items[k]
  {
    var n := |items| - 1;
    if k < n {
      assert items[n].id != items[k].id;
      assert forall j :: 0 <= j < n ==> items[..n][j] == items[j];
      NodeMapKeepsLast(items[..n], k);
    }
  }

  /** `it` names no item of the list as its parent. */
  ghost predicate NamesNoParent(items: seq<Item>, it: Item) {
    it.parentId.None? || it.parentId.value == "" || forall o :: o in items ==> o.id != it.parentId.value
  }

  ghost predicate ShownAmong(ts: seq<Tree>, it: Item) {
    exists i :: 0 <= i < |ts| && ts[i].item == it
  }

  lemma LevelShows(nodes: Nodes, leq: Order, ts: seq<Tree>, parent: Option<string>, it: Item)
    requires Faithful(nodes, leq, ts, parent)
    ensures ShownAmong(ts, it) <==> it.id in nodes && nodes[it.id] == it && ParentOf(nodes, it.id) == parent
  {
    var ids := IdsOf(ts);
    if it.id in nodes && nodes[it.id] == it && ParentOf(nodes, it.id) == parent {
      var i :| 0 <= i < |ids| && ids[i] == it.id;
      assert FaithfulNode(nodes, leq, ts[i]);
    }
    if i :| 0 <= i < |ts| && ts[i].item == it {
      assert FaithfulNode(nodes, leq, ts[i]) && ids[i] == it.id;
    }
  }

  /** With unique IDs the top level shows exactly the items that name no parent in the list, and below every node of a
      faithful tree stand exactly the items that name its ID as their parent, each level in the order of the codes. */
  lemma LevelsAreExact(items: seq<Item>, leq: Order, roots: seq<Tree>, t: Tree, it: Item)
    requires UniqueIds(items) && it in items
    requires Faithful(NodeMap(items), leq, roots, None) && FaithfulNode(NodeMap(items), leq, t)
    ensures ShownAmong(roots, it) <==> NamesNoParent(items, it)
    ensures ShownAmong(t.children, it) <==> it.parentId == Some(t.item.id) && t.item.id != ""
    ensures forall i, j :: 0 <= i < j < |roots| ==> leq(roots[i].item.code, roots[j].item.code)
    ensures forall i, j :: 0 <= i < j < |t.children| ==> leq(t.children[i].item.code, t.children[j].item.code)
  {
    var nodes := NodeMap(items);
    var k :| 0 <= k < |items| && items[k] == it;
    NodeMapKeepsLast(items, k);
    LevelShows(nodes, leq, roots, None, it);
    LevelShows(nodes, leq, t.children, Some(t.item.id), it);
    LevelIsOrdered(nodes, leq, roots, None);
    LevelIsOrdered(nodes, leq, t.children, Some(t.item.id));
  }

  lemma LevelIsOrdered(nodes: Nodes, leq: Order, ts: seq<Tree>, parent: Option<string>)
    requires Faithful(nodes, leq, ts, parent)
    ensures forall i, j :: 0 <= i < j < |ts| ==> leq(ts[i].item.code, ts[j].item.code)
  {
    var ids := IdsOf(ts);
    forall i, j | 0 <= i < j < |ts| ensures leq(ts[i].item.code, ts[j].item.code) {
      assert FaithfulNode(nodes, leq, ts[i]) && FaithfulNode(nodes, leq, ts[j]);
      assert leq(nodes[ids[i]].code, nodes[ids[j]].code);
    }
  }

  /** An item that is its own parent, and everything below it, is not displayed at all. */
  lemma SelfParentIsHidden(items: seq<Item>, leq: Order, roots: seq<Tree>, self: string, it: Item)
    requires Faithful(NodeMap(items), leq, roots, None)
    requires self in NodeMap(items) && ParentOf(NodeMap(items), self) == Some(self)
    requires Covers(NodeMap(items), self, it.id)
    ensures it !in Preorder(roots)
  {
    var nodes := NodeMap(items);
    assert Under(nodes, self, Some(self), 0);
    ShownIffRooted(items, leq, roots, it);
    if Rooted(nodes, it.id) {
      var k: nat :| AtDepth(nodes, it.id, k);
      if it.id == self {
        HeadNotBelow(nodes, self, k);
      } else {
        var d: nat :| Under(nodes, it.id, Some(self), d);
        NeverRooted(nodes, it.id, self, d, k);
      }
    }
  }

  lemma {:induction false} NeverRooted(nodes: Nodes, id: string, self: string, d: nat, k: nat)
    requires self in nodes && ParentOf(nodes, self) == Some(self) && Under(nodes, id, Some(self), d)
    ensures !AtDepth(nodes, id, k)
    decreases k
  {
    if AtDepth(nodes, id, k) && k > 0 {
      NeverRooted(nodes, ParentOf(nodes, id).value, self, if d > 0 then d - 1 else 0, k - 1);
    }
  }
}
