/**
 The evaluation-item table: a parent link per item. Insert demands an existing parent; an update may move an item
 (or change its level) only while it is a leaf. Nothing forbids naming the item itself as its new parent.
 */
module EvalItems {
  import opened Common

  /** `extra` holds the remaining columns (description, weight, max_score, metadata). */
  datatype Item = Item(
    parent: Option<string>, displayName: string, level: Option<int>, hierarchyCode: string, status: string,
    extra: map<string, string>)

  type Items = map<string, Item>

  /** None: leave the column alone. `parent` may be set to Some(None), which makes the item a root. */
  datatype Update = Update(
    parent: Option<Option<string>>, level: Option<int>, displayName: Option<string>, status: Option<string>,
    extra: map<string, string>)

  datatype Error = InvalidInput | ParentNotFound | NotFound | InvalidStatus | HierarchyImmutable | Constraint

  const MAX_ID_LEN := 64
  const MAX_NAME_LEN := 256  // evaluation_items.display_name VARCHAR(256)
  const MAX_CODE_LEN := 128  // evaluation_items.hierarchy_code VARCHAR(128)
  const STATUSES: set<string> := {"ACTIVE", "DEPRECATED", "ARCHIVED"}

  predicate HasChild(items: Items, id: string) {
    exists c :: c in items && items[c].parent == Some(id)
  }

  predicate CodeTaken(items: Items, code: string) {
    exists c :: c in items && items[c].hierarchyCode == code
  }

  /** The row after a partial update. */
  function Merged(item: Item, upd: Update): Item {
    Item(
      if upd.parent.Some? then upd.parent.value else item.parent,
      if upd.displayName.Some? then upd.displayName.value else item.displayName,
      if upd.level.Some? then upd.level else item.level,
      item.hierarchyCode,
      if upd.status.Some? then upd.status.value else item.status,
      item.extra + upd.extra)
  }

  datatype Op =
    | Insert(id: string, parent: Option<string>, displayName: string, level: Option<int>, hierarchyCode: string,
        extra: map<string, string>)
    | Change(id: string, upd: Update)

  /** Why an operation is refused, in the order the checks are made; the database's own constraints come last. */
  function Refusal(items: Items, op: Op): Option<Error> {
    match op
    case Insert(id, parent, displayName, level, code, extra) =>
      if id == "" || |id| > MAX_ID_LEN || displayName == "" || code == "" then Some(InvalidInput)
      else if parent.Some? && parent.value !in items then Some(ParentNotFound)
      else if id in items || CodeTaken(items, code) then Some(Constraint)
      else if |displayName| > MAX_NAME_LEN || |code| > MAX_CODE_LEN then Some(Constraint)
      else None
    case Change(id, upd) =>
      if id !in items then Some(NotFound)
      else if upd.status.Some? && upd.status.value !in STATUSES then Some(InvalidStatus)
      else if (upd.parent.Some? || upd.level.Some?) && HasChild(items, id) then Some(HierarchyImmutable)
      else if upd.parent.Some? && upd.parent.value.Some? && upd.parent.value.value !in items then Some(Constraint)
      else if upd.displayName.Some? && |upd.displayName.value| > MAX_NAME_LEN then Some(Constraint)
      else None
  }

  function Apply(items: Items, op: Op): Items {
    if Refusal(items, op).Some? then items
    else
      match op
      case Insert(id, parent, displayName, level, code, extra) =>
        items[id := Item(parent, displayName, level, code, "ACTIVE", extra)]
      case Change(id, upd) => items[id := Merged(items[id], upd)]
  }

  function Run(ops: seq<Op>): Items {
    if ops == [] then map[] else Apply(Run(ops[..|ops| - 1]), ops[|ops| - 1])
  }

  // ----- what an operation does, column by column -----

  predicate Given<T(==)>(wanted: Option<T>, was: T, now: T) {
    now == if wanted.Some? then wanted.value else was
  }

  /** The checks an insert passes. */
  ghost predicate MayInsert(items: Items, id: string, parent: Option<string>, displayName: string, code: string) {
    && 0 < |id| <= MAX_ID_LEN && 0 < |displayName| <= MAX_NAME_LEN && 0 < |code| <= MAX_CODE_LEN
    && (parent.Some? ==> parent.value in items)
    && id !in items && (forall other :: other in items ==> items[other].hierarchyCode != code)
  }

  /** One ACTIVE row was added with the columns as given; every other row is as it was. */
  ghost predicate InsertedRow(items: Items, n: Items, id: string, parent: Option<string>, displayName: string,
      level: Option<int>, code: string, extra: map<string, string>)
  {
    && n.Keys == items.Keys + {id}
    && (forall other :: other in items ==> n[other] == items[other])
    && n[id].parent == parent && n[id].parent != Some(id) && n[id].displayName == displayName
    && n[id].level == level && n[id].hierarchyCode == code && n[id].status == "ACTIVE" && n[id].extra == extra
  }

  /** The checks an update passes: only a leaf may be moved or change its level, and only under a stored item. */
  ghost predicate MayChange(items: Items, id: string, upd: Update) {
    && id in items
    && (upd.status.Some? ==> upd.status.value in {"ACTIVE", "DEPRECATED", "ARCHIVED"})
    && (upd.parent.Some? || upd.level.Some? ==> forall c :: c in items ==> items[c].parent != Some(id))
    && (upd.parent.Some? && upd.parent.value.Some? ==> upd.parent.value.value in items)
    && (upd.displayName.Some? ==> |upd.displayName.value| <= MAX_NAME_LEN)
  }

  /** Each column of row `id` holds what was given for it, or what it held; every other row is as it was. */
  ghost predicate ChangedRow(items: Items, n: Items, id: string, upd: Update) {
    && id in items && n.Keys == items.Keys
    && (forall other :: other in items && other != id ==> n[other] == items[other])
    && Given(upd.parent, items[id].parent, n[id].parent)
    && Given(upd.displayName, items[id].displayName, n[id].displayName)
    && n[id].level == (if upd.level.Some? then upd.level else items[id].level)
    && n[id].hierarchyCode == items[id].hierarchyCode
    && Given(upd.status, items[id].status, n[id].status)
    && n[id].extra.Keys == items[id].extra.Keys + upd.extra.Keys
    && (forall k :: k in n[id].extra ==>
      n[id].extra[k] == if k in upd.extra then upd.extra[k] else items[id].extra[k])
  }

  /** An operation of a run does to the columns what it was asked, exactly when its checks pass, and nothing else. */
  lemma OperationDoes(items: Items, op: Op)
    ensures
      var n := Apply(items, op);
      match op
      case Insert(id, parent, displayName, level, code, extra) =>
        if MayInsert(items, id, parent, displayName, code)
        then InsertedRow(items, n, id, parent, displayName, level, code, extra)
        else n == items && Refusal(items, op).Some?
      case Change(id, upd) =>
        if MayChange(items, id, upd) then ChangedRow(items, n, id, upd)
        else n == items && Refusal(items, op).Some?
    ensures Refusal(items, op).None? <==>
      if op.Insert? then MayInsert(items, op.id, op.parent, op.displayName, op.hierarchyCode)
      else MayChange(items, op.id, op.upd)
    ensures op.Insert? ==>
      (Refusal(items, op) == Some(ParentNotFound) ==> op.parent.Some? && op.parent.value !in items)
    ensures op.Change? ==>
      && (Refusal(items, op) == Some(NotFound) <==> op.id !in items)
      && (Refusal(items, op) == Some(HierarchyImmutable) <==>
        && op.id in items && (op.upd.status.Some? ==> op.upd.status.value in {"ACTIVE", "DEPRECATED", "ARCHIVED"})
        && (op.upd.parent.Some? || op.upd.level.Some?) && HasChild(items, op.id))
  {
  }

  class EvalItemTable {
    var items: Items

    constructor ()
      ensures items == map[]
    {
      items := map[];
    }

    method InsertEvalItem(id: string, parent: Option<string>, displayName: string, level: Option<int>, code: string,
        extra: map<string, string>)
      returns (error: Option<Error>)
      modifies this
      ensures error == Refusal(old(items), Insert(id, parent, displayName, level, code, extra))
      ensures items == Apply(old(items), Insert(id, parent, displayName, level, code, extra))
      ensures error.None? <==> MayInsert(old(items), id, parent, displayName, code)
      ensures error.None? ==> InsertedRow(old(items), items, id, parent, displayName, level, code, extra)
      ensures error.Some? ==> items == old(items)
    {
      if id == "" { return Some(InvalidInput); }
      if |id| > MAX_ID_LEN { return Some(InvalidInput); }
      if displayName == "" { return Some(InvalidInput); }
      if code == "" { return Some(InvalidInput); }
      if parent.Some? && parent.value !in items { return Some(ParentNotFound); }
      if id in items || CodeTaken(items, code) { return Some(Constraint); }
      if |displayName| > MAX_NAME_LEN || |code| > MAX_CODE_LEN { return Some(Constraint); }
      items := items[id := Item(parent, displayName, level, code, "ACTIVE", extra)];
      return None;
    }

    method CountChildren(id: string) returns (n: nat)
      ensures n > 0 <==> HasChild(items, id)
    {
      n := 0;
      var todo := items.Keys;
      while todo != {}
        invariant todo <= items.Keys
        invariant n > 0 <==> exists c :: c in items && c !in todo && items[c].parent == Some(id)
      {
        var c :| c in todo;
        if items[c].parent == Some(id) { n := n + 1; }
        todo := todo - {c};
      }
    }

    method UpdateEvalItem(id: string, upd: Update) returns (error: Option<Error>)
      modifies this
      ensures error == Refusal(old(items), Change(id, upd))
      ensures items == Apply(old(items), Change(id, upd))
      ensures error.None? <==> MayChange(old(items), id, upd)
      ensures error.None? ==> ChangedRow(old(items), items, id, upd)
      ensures error.Some? ==> items == old(items)
    {
      OperationDoes(items, Change(id, upd));
      if id !in items { return Some(NotFound); }
      if upd.status.Some? && upd.status.value !in STATUSES { return Some(InvalidStatus); }
      if upd.parent.Some? || upd.level.Some? {
        var children := CountChildren(id);
        if children > 0 { return Some(HierarchyImmutable); }
      }
      if upd == Update(None, None, None, None, map[]) {
        assert items[id].extra + map[] == items[id].extra;
        assert items == items[id := Merged(items[id], upd)];
        return None;
      }
      if upd.parent.Some? && upd.parent.value.Some? && upd.parent.value.value !in items { return Some(Constraint); }
      if upd.displayName.Some? && |upd.displayName.value| > MAX_NAME_LEN { return Some(Constraint); }
      items := items[id := Merged(items[id], upd)];
      return None;
    }
  }

  // ----- the forest -----

  /** `id` climbs to a root in at most `fuel` steps. */
  predicate ReachesRoot(items: Items, id: string, fuel: nat)
    decreases fuel
  {
    id in items && (items[id].parent.None? || (fuel > 0 && ReachesRoot(items, items[id].parent.value, fuel - 1)))
  }

  /** Every item reaches a root; n items need at most n-1 steps. */
  ghost predicate IsForest(items: Items) {
    forall id :: id in items ==> ReachesRoot(items, id, |items| - 1)
  }

  predicate SelfParented(items: Items, id: string) {
    id in items && items[id].parent == Some(id)
  }

  /** Heights above the tops, where a top is a root or an item that is its own parent. */
  ghost predicate Levelled(items: Items, depth: map<string, nat>) {
    && depth.Keys == items.Keys
    && forall id :: id in items ==>
      if items[id].parent.None? || items[id].parent == Some(id) then depth[id] == 0
      else items[id].parent.value in items && depth[id] == depth[items[id].parent.value] + 1
  }

  /** An accepted operation leaves every item but its own alone, and gives a new parent only to an item without
      children, and only an existing one. */
  lemma AcceptedMove(items: Items, op: Op)
    requires Refusal(items, op).None?
    ensures var n := Apply(items, op);
      && n.Keys == items.Keys + {op.id}
      && (forall id :: id in items && id != op.id ==> n[id] == items[id])
      && (op.id in items && n[op.id].parent != items[op.id].parent ==> !HasChild(items, op.id))
      && (n[op.id].parent.Some? && (op.id !in items || n[op.id].parent != items[op.id].parent) ==>
          n[op.id].parent.value in items)
      && (op.id !in items ==> n[op.id].parent != Some(op.id))
  {
  }

  lemma ApplyKeepsLevels(items: Items, op: Op, depth: map<string, nat>) returns (next: map<string, nat>)
    requires Levelled(items, depth)
    ensures Levelled(Apply(items, op), next)
  {
    var n := Apply(items, op);
    if Refusal(items, op).Some? {
      next := depth;
    } else {
      AcceptedMove(items, op);
      if op.id in items && n[op.id].parent == items[op.id].parent {
        next := depth;
        assert forall id :: id in n ==> n[id].parent == items[id].parent;
      } else {
        next := MovedLevels(items, n, op.id, depth);
      }
    }
  }

  /** A leaf, or a new item, may take any existing parent, or none. */
  lemma MovedLevels(items: Items, n: Items, moved: string, depth: map<string, nat>) returns (next: map<string, nat>)
    requires Levelled(items, depth) && n.Keys == items.Keys + {moved}
    requires forall id :: id in items && id != moved ==> n[id] == items[id]
    requires moved in items ==> !HasChild(items, moved)
    requires n[moved].parent.Some? ==> n[moved].parent.value in items
    ensures Levelled(n, next)
  {
    var p := n[moved].parent;
    next := depth[moved := if p.None? || p.value == moved then 0 else depth[p.value] + 1];
    forall id | id in items && items[id].parent == Some(moved) ensures id == moved || HasChild(items, moved) {}
  }

  lemma {:induction false} RunIsLevelled(ops: seq<Op>) returns (depth: map<string, nat>)
    ensures Levelled(Run(ops), depth)
  {
    if ops == [] {
      depth := map[];
    } else {
      var d := RunIsLevelled(ops[..|ops| - 1]);
      depth := ApplyKeepsLevels(Run(ops[..|ops| - 1]), ops[|ops| - 1], d);
    }
  }

  /** An item at height h stands on h others: heights stay below the number of items. */
  lemma {:induction false} HeightBound(items: Items, depth: map<string, nat>, id: string) returns (path: set<string>)
    requires Levelled(items, depth) && id in items
    ensures path <= items.Keys && |path| == depth[id] + 1
    ensures forall a :: a in path ==> depth[a] <= depth[id]
    ensures depth[id] < |items|
    decreases depth[id]
  {
    if depth[id] == 0 {
      path := {id};
    } else {
      var up := HeightBound(items, depth, items[id].parent.value);
      path := up + {id};
    }
    SubsetSize(path, items.Keys);
    assert |items.Keys| == |items|;
  }

  lemma SubsetSize(a: set<string>, b: set<string>)
    requires a <= b
    ensures |a| <= |b|
  {
    assert b == a + (b - a);
  }

  lemma {:induction false} LevelledReaches(items: Items, depth: map<string, nat>, id: string, fuel: nat)
    requires Levelled(items, depth) && id in items && depth[id] <= fuel
    requires forall a :: a in items ==> !SelfParented(items, a)
    ensures ReachesRoot(items, id, fuel)
    decreases fuel
  {
    assert !SelfParented(items, id);
    if items[id].parent.Some? {
      LevelledReaches(items, depth, items[id].parent.value, fuel - 1);
    }
  }

  lemma {:induction false} SelfParentedNeverReaches(items: Items, id: string, fuel: nat)
    requires SelfParented(items, id)
    ensures !ReachesRoot(items, id, fuel)
  {
    if fuel > 0 { SelfParentedNeverReaches(items, id, fuel - 1); }
  }

  /** In every serial run the parent relation has no cycle other than an item naming itself, and is a forest exactly
      when no item does. */
  lemma {:induction false} ForestIffNoSelfParent(ops: seq<Op>)
    ensures IsForest(Run(ops)) <==> forall id :: id in Run(ops) ==> !SelfParented(Run(ops), id)
  {
    var items := Run(ops);
    var depth := RunIsLevelled(ops);
    if forall id :: id in items ==> !SelfParented(items, id) {
      LevelledIsForest(items, depth);
    } else {
      var id :| id in items && SelfParented(items, id);
      SelfParentedNeverReaches(items, id, |items| - 1);
    }
  }

  lemma LevelledIsForest(items: Items, depth: map<string, nat>)
    requires Levelled(items, depth) && forall id :: id in items ==> !SelfParented(items, id)
    ensures IsForest(items)
  {
    forall id | id in items ensures ReachesRoot(items, id, |items| - 1) {
      var path := HeightBound(items, depth, id);
      LevelledReaches(items, depth, id, |items| - 1);
    }
  }

  /** The accepted request that breaks the forest: moving a leaf under itself. */
  predicate MovesUnderItself(items: Items, op: Op) {
    Refusal(items, op).None? && op.Change? && op.upd.parent == Some(Some(op.id))
  }

  /** Once its own parent, an item stays so: the leaf guard now counts the item as its own child. */
  lemma SelfParentIsPermanent(items: Items, op: Op, id: string)
    requires SelfParented(items, id)
    ensures SelfParented(Apply(items, op), id)
  {
  }

  ghost predicate SomeSelfParented(items: Items) {
    exists id :: SelfParented(items, id)
  }

  lemma StepSelfParents(items: Items, op: Op)
    ensures SomeSelfParented(Apply(items, op)) <==> SomeSelfParented(items) || MovesUnderItself(items, op)
  {
    var n := Apply(items, op);
    if id :| SelfParented(items, id) {
      SelfParentIsPermanent(items, op, id);
    }
    if MovesUnderItself(items, op) {
      assert SelfParented(n, op.id);
    }
    forall id ensures SelfParented(n, id) ==> SelfParented(items, id) || MovesUnderItself(items, op) {
    }
  }

  ghost predicate SomeSelfMove(ops: seq<Op>) {
    exists i :: 0 <= i < |ops| && MovesUnderItself(Run(ops[..i]), ops[i])
  }

  lemma {:induction false} SelfParentedIffMoved(ops: seq<Op>)
    ensures SomeSelfParented(Run(ops)) <==> SomeSelfMove(ops)
  {
    if ops != [] {
      var init, last := ops[..|ops| - 1], ops[|ops| - 1];
      SelfParentedIffMoved(init);
      SelfParentStep(init, last);
      assert ops == init + [last];
    }
  }

  lemma {:induction false} SelfParentStep(init: seq<Op>, last: Op)
    requires SomeSelfParented(Run(init)) <==> SomeSelfMove(init)
    ensures SomeSelfParented(Apply(Run(init), last)) <==> SomeSelfMove(init + [last])
  {
    StepSelfParents(Run(init), last);
    SelfMoveSnoc(init, last);
  }

  lemma {:induction false} SelfMoveSnoc(init: seq<Op>, last: Op)
    ensures SomeSelfMove(init + [last]) <==> SomeSelfMove(init) || MovesUnderItself(Run(init), last)
  {
    var ops := init + [last];
    assert ops[..|init|] == init;
    if i :| 0 <= i < |init| && MovesUnderItself(Run(init[..i]), init[i]) {
      assert ops[..i] == init[..i] && ops[i] == init[i];
    }
    if i :| 0 <= i < |ops| && MovesUnderItself(Run(ops[..i]), ops[i]) {
      if i < |init| { assert ops[..i] == init[..i] && ops[i] == init[i]; }
    }
  }

  /** A serial run ends in a forest exactly when it accepted no request to move an item under itself. */
  lemma {:induction false} ForestIffNoSelfMove(ops: seq<Op>)
    ensures IsForest(Run(ops)) <==> !SomeSelfMove(ops)
  {
    ForestIffNoSelfParent(ops);
    SelfParentedIffMoved(ops);
    if id :| SelfParented(Run(ops), id) {
      assert id in Run(ops);
    }
  }

  /** Such a request is accepted for any leaf. */
  lemma SelfMoveIsAccepted(items: Items, id: string)
    requires id in items && !HasChild(items, id)
    ensures MovesUnderItself(items, Change(id, Update(Some(Some(id)), None, None, None, map[])))
    ensures !IsForest(Apply(items, Change(id, Update(Some(Some(id)), None, None, None, map[]))))
  {
    var n := Apply(items, Change(id, Update(Some(Some(id)), None, None, None, map[])));
    SelfParentedNeverReaches(n, id, |n| - 1);
  }
}
