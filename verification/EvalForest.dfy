/** The evaluation-item table and the tree rebuilt from it, together: what a screen shows after any run of the table. */
module EvalForest {
  import opened Common
  import EvalItems
  import EvalTree

  /** `list` is the whole table, in any order. */
  ghost predicate IsTable(items: EvalItems.Items, list: seq<EvalTree.Item>) {
    && EvalTree.UniqueIds(list)
    && EvalTree.NodeMap(list).Keys == items.Keys
    && (forall it :: it in list ==>
      && it.id in items
      && it == EvalTree.Item(it.id, items[it.id].hierarchyCode, items[it.id].displayName, items[it.id].parent))
  }

  /** No ID is empty, and every parent exists. */
  ghost predicate Linked(items: EvalItems.Items) {
    forall id :: id in items ==> id != "" && (items[id].parent.Some? ==> items[id].parent.value in items)
  }

  lemma ApplyKeepsLinked(items: EvalItems.Items, op: EvalItems.Op)
    requires Linked(items)
    ensures Linked(EvalItems.Apply(items, op))
  {
  }

  lemma {:induction false} RunIsLinked(ops: seq<EvalItems.Op>)
    ensures Linked(EvalItems.Run(ops))
  {
    if ops != [] {
      RunIsLinked(ops[..|ops| - 1]);
      ApplyKeepsLinked(EvalItems.Run(ops[..|ops| - 1]), ops[|ops| - 1]);
    }
  }

  /** The nodes carry the table's own parent links. */
  ghost predicate SameLinks(items: EvalItems.Items, nodes: EvalTree.Nodes) {
    nodes.Keys == items.Keys && forall id :: id in items ==> EvalTree.ParentOf(nodes, id) == items[id].parent
  }

  lemma TableHasSameLinks(items: EvalItems.Items, list: seq<EvalTree.Item>)
    requires Linked(items) && IsTable(items, list)
    ensures SameLinks(items, EvalTree.NodeMap(list))
  {
  }

  lemma {:induction false} DepthReaches(items: EvalItems.Items, nodes: EvalTree.Nodes, id: string, d: nat, fuel: nat)
    requires SameLinks(items, nodes) && EvalTree.AtDepth(nodes, id, d) && d <= fuel
    ensures EvalItems.ReachesRoot(items, id, fuel)
    decreases d
  {
    if d > 0 { DepthReaches(items, nodes, EvalTree.ParentOf(nodes, id).value, d - 1, fuel - 1); }
  }

  lemma {:induction false} ReachesDepth(items: EvalItems.Items, nodes: EvalTree.Nodes, id: string, fuel: nat)
    returns (d: nat)
    requires SameLinks(items, nodes) && EvalItems.ReachesRoot(items, id, fuel)
    ensures EvalTree.AtDepth(nodes, id, d)
    decreases fuel
  {
    d := 0;
    if items[id].parent.Some? {
      var up := ReachesDepth(items, nodes, items[id].parent.value, fuel - 1);
      d := up + 1;
    }
  }

  lemma ForestIffRooted(items: EvalItems.Items, nodes: EvalTree.Nodes)
    requires SameLinks(items, nodes)
    ensures EvalItems.IsForest(items) <==> forall id :: id in nodes ==> EvalTree.Rooted(nodes, id)
  {
    assert |nodes.Keys| == |nodes| && |items.Keys| == |items|;
    forall id | id in nodes ensures EvalTree.Rooted(nodes, id) <==> EvalItems.ReachesRoot(items, id, |items| - 1) {
      if EvalTree.Rooted(nodes, id) {
        var d: nat :| EvalTree.AtDepth(nodes, id, d);
        var path := EvalTree.DepthBound(nodes, id, d);
        DepthReaches(items, nodes, id, d, |items| - 1);
      }
      if EvalItems.ReachesRoot(items, id, |items| - 1) {
        var d := ReachesDepth(items, nodes, id, |items| - 1);
      }
    }
  }

  /** After any serial run of inserts and updates, the rebuilt tree displays the whole table, every item once, exactly
      when the run accepted no request to move an item under itself; otherwise items are missing from the screen. */
  lemma {:induction false} TreeShowsTableIff(ops: seq<EvalItems.Op>, list: seq<EvalTree.Item>, leq: EvalTree.Order,
      roots: seq<EvalTree.Tree>)
    requires IsTable(EvalItems.Run(ops), list)
    requires EvalTree.Faithful(EvalTree.NodeMap(list), leq, roots, None)
    ensures multiset(EvalTree.Preorder(roots)) == multiset(list) <==> !EvalItems.SomeSelfMove(ops)
  {
    var items, nodes := EvalItems.Run(ops), EvalTree.NodeMap(list);
    RunIsLinked(ops);
    TableHasSameLinks(items, list);
    ForestIffRooted(items, nodes);
    EvalTree.RootedIffAcyclic(nodes);
    EvalTree.PermutationIffAcyclic(list, leq, roots);
    EvalItems.ForestIffNoSelfMove(ops);
  }
}
