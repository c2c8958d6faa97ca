/**
 Uploads that interleave. "Latest" is chosen in a snapshot (ORDER BY version DESC LIMIT 1); the row lock of
 FOR UPDATE may only be granted later, when that row is no longer the latest. What keeps the chain a line is the
 guard of MarkSuperseded: it flips the predecessor only while it is still ACTIVE, and the loser rolls back.
 */
module EvidenceRuns {
  import opened Common
  import opened Audit
  import opened Evidences

  type TxId = nat

  datatype Pc = Begun | Snapshotted | Locked | Inserted | Flipped | Audited

  /** `latest` is the row the snapshot chose; `version` is what the handler computed from the locked row, `stored`
      the uncommitted row InsertEvidence produced. */
  datatype Tx = Tx(item: string, id: Uuid, body: map<string, string>, pc: Pc, latest: Option<Uuid>, version: nat,
      stored: Option<Evidence>)

  /** A column update that has counted no successor and not yet sent its UPDATE. */
  datatype Edit = Edit(id: Uuid, column: string, value: string)

  datatype Sys = Sys(
    rows: Rows,
    log: seq<EvEvent>,
    locks: map<Uuid, TxId>,
    txs: map<TxId, Tx>,
    used: set<Uuid>,  // every id ever generated
    edits: map<TxId, Edit>)

  datatype Label =
    | Begin(t: TxId, item: string, id: Uuid, body: map<string, string>)
    | Snapshot(t: TxId, latest: Option<Uuid>)
    | Lock(t: TxId)
    | Insert(t: TxId)
    | Flip(t: TxId)
    | Record(t: TxId)
    | Commit(t: TxId, at: int)
    | Abort(t: TxId)
    | Check(t: TxId, id: Uuid, column: string, value: string)
    | Write(t: TxId)
    | Cancel(t: TxId)

  /** The steps of UpdateEvidenceBodyColumn; their transactions are numbered apart from the uploads. */
  predicate IsEdit(l: Label) {
    l.Check? || l.Write? || l.Cancel?
  }

  const EMPTY := Sys(map[], [], map[], map[], {}, map[])

  function Unlock(s: Sys, t: TxId): map<Uuid, TxId> {
    map k | k in s.locks && s.locks[k] != t :: s.locks[k]
  }

  function Drop(s: Sys, t: TxId): Sys {
    s.(locks := Unlock(s, t), txs := s.txs - {t})
  }

  function Committed(s: Sys, x: Tx): Rows
    requires x.stored.Some?
    requires x.latest.Some? ==> x.latest.value in s.rows
  {
    var flipped := if x.latest.None? then s.rows
                   else s.rows[x.latest.value := s.rows[x.latest.value].(status := Superseded)];
    flipped[x.id := x.stored.value]
  }

  ghost function Next(s: Sys, l: Label): Sys {
    match l
    case Begin(t, item, id, body) =>
      if t in s.txs || id in s.used then s
      else s.(txs := s.txs[t := Tx(item, id, body, Begun, None, 0, None)], used := s.used + {id})
    case Snapshot(t, latest) =>
      if t !in s.txs || !s.txs[t].pc.Begun? || !IsLatest(s.rows, s.txs[t].item, latest) then s
      else s.(txs := s.txs[t := s.txs[t].(pc := Snapshotted, latest := latest)])
    case Lock(t) =>
      if t !in s.txs || !s.txs[t].pc.Snapshotted? then s
      else
        var x := s.txs[t];
        (match x.latest
         case None => s.(txs := s.txs[t := x.(pc := Locked, version := 1)])
         case Some(p) =>
           if p in s.locks || p !in s.rows then s
           else s.(locks := s.locks[p := t], txs := s.txs[t := x.(pc := Locked, version := s.rows[p].version + 1)]))
    case Insert(t) =>
      if t !in s.txs || !s.txs[t].pc.Locked? then s
      else
        var x := s.txs[t];
        (match x.latest
         case None =>
           s.(txs := s.txs[t := x.(pc := Inserted, stored := Some(Evidence(x.item, 1, None, Active, x.body)))])
         case Some(p) =>
           if p !in s.rows then Drop(s, t)
           else s.(txs := s.txs[t := x.(pc := Inserted,
                     stored := Some(Evidence(x.item, s.rows[p].version + 1, x.latest, Active, x.body)))]))
    case Flip(t) =>
      if t !in s.txs || !s.txs[t].pc.Inserted? then s
      else
        var x := s.txs[t];
        if x.latest.Some? && (x.latest.value !in s.rows || s.rows[x.latest.value].status != Active) then Drop(s, t)
        else s.(txs := s.txs[t := x.(pc := Flipped)])
    case Record(t) =>
      if t !in s.txs || !s.txs[t].pc.Flipped? then s else s.(txs := s.txs[t := s.txs[t].(pc := Audited)])
    case Commit(t, at) =>
      if t !in s.txs || !s.txs[t].pc.Audited? || s.txs[t].stored.None? then s
      else
        var x := s.txs[t];
        if x.latest.Some? && x.latest.value !in s.rows then s
        else
          var e := if x.version == 1
            then Event(at, EvidenceCreated, x.id, DEFAULT_USER, Details(x.item, x.version, HashOf(x.body), None))
            else Event(at, EvidenceVersioned, x.id, DEFAULT_USER, Details(x.item, x.version, HashOf(x.body), x.latest));
          Drop(s, t).(rows := Committed(s, x), log := s.log + [e])
    case Abort(t) => if t in s.txs then Drop(s, t) else s
    case Check(t, id, column, value) =>
      if t in s.edits || column !in BODY_COLUMNS || HasSuccessor(s.rows, id) then s
      else s.(edits := s.edits[t := Edit(id, column, value)])
    case Write(t) =>
      // the UPDATE waits for the row's lock, asks for nothing but the id, and keeps the lock until its commit
      if t !in s.edits || s.edits[t].id in s.locks then s
      else s.(rows := Edited(s.rows, s.edits[t]), edits := s.edits - {t})
    case Cancel(t) => s.(edits := s.edits - {t})
  }

  function Edited(rows: Rows, e: Edit): Rows {
    if e.id !in rows then rows
    else rows[e.id := rows[e.id].(body := rows[e.id].body[e.column := e.value])]
  }

  ghost function Run(s: Sys, ls: seq<Label>): Sys {
    if ls == [] then s else Next(Run(s, ls[..|ls| - 1]), ls[|ls| - 1])
  }

  // ----- the invariant -----

  ghost predicate RowOk(rows: Rows, r: Uuid)
    requires r in rows
  {
    match rows[r].prev
    case None => rows[r].version == 1
    case Some(p) =>
      && p in rows && rows[p].item == rows[r].item
      && rows[p].status == Superseded
      && rows[p].version >= 1 && rows[r].version == rows[p].version + 1
  }

  /** No fork: a row has at most one successor; it is SUPERSEDED exactly when it has one. */
  ghost predicate NoFork(rows: Rows) {
    && (forall a, b :: a in rows && b in rows && rows[a].prev.Some? && rows[a].prev == rows[b].prev ==> a == b)
    && (forall r :: r in rows ==> (rows[r].status == Superseded <==> HasSuccessor(rows, r)))
  }

  ghost predicate RowsOk(rows: Rows) {
    (forall r :: r in rows ==> RowOk(rows, r)) && NoFork(rows)
  }

  ghost predicate TxOk(s: Sys, t: TxId)
    requires t in s.txs
  {
    var x := s.txs[t];
    && x.id in s.used && x.id !in s.rows
    && (x.latest.Some? ==> x.latest.value in s.rows && s.rows[x.latest.value].item == x.item)
    && (!x.pc.Begun? && !x.pc.Snapshotted? ==>
      && x.version == (if x.latest.None? then 1 else s.rows[x.latest.value].version + 1)
      && (x.latest.Some? ==> x.latest.value in s.locks && s.locks[x.latest.value] == t))
    && (x.stored.Some? <==> x.pc.Inserted? || x.pc.Flipped? || x.pc.Audited?)
    && (x.stored.Some? ==> x.stored.value == Evidence(x.item, x.version, x.latest, Active, x.body))
    && (x.pc.Flipped? || x.pc.Audited? ==> x.latest.Some? ==> s.rows[x.latest.value].status == Active)
  }

  ghost predicate Inv(s: Sys) {
    && RowsOk(s.rows)
    && (forall t :: t in s.txs ==> TxOk(s, t))
    && (forall t, u :: t in s.txs && u in s.txs && s.txs[t].id == s.txs[u].id ==> t == u)
    && (forall r :: r in s.rows ==> r in s.used)
    && (forall k :: k in s.locks ==> s.locks[k] in s.txs)
  }

  /** A new ACTIVE version of `latest`, which was ACTIVE and becomes SUPERSEDED. */
  ghost predicate Adds(rows: Rows, n: Rows, latest: Option<Uuid>, id: Uuid, e: Evidence) {
    && id !in rows && e.prev == latest && e.status == Active
    && n.Keys == rows.Keys + {id} && n[id] == e
    && (forall r :: r in rows ==> n[r] == if latest == Some(r) then rows[r].(status := Superseded) else rows[r])
    && (match latest
        case None => e.version == 1
        case Some(p) =>
          p in rows && rows[p].status == Active && rows[p].item == e.item && e.version == rows[p].version + 1)
  }

  lemma AddKeepsRowOk(rows: Rows, n: Rows, latest: Option<Uuid>, id: Uuid, e: Evidence, r: Uuid)
    requires RowsOk(rows) && Adds(rows, n, latest, id, e) && r in n
    ensures RowOk(n, r)
  {
    if r != id {
      assert RowOk(rows, r);
    } else if latest.Some? {
      assert RowOk(rows, latest.value);
    }
  }

  lemma AddKeepsSuccessors(rows: Rows, n: Rows, latest: Option<Uuid>, id: Uuid, e: Evidence, r: Uuid)
    requires RowsOk(rows) && Adds(rows, n, latest, id, e) && r in n
    ensures HasSuccessor(n, r) <==> latest == Some(r) || (r in rows && HasSuccessor(rows, r))
  {
    if HasSuccessor(n, r) {
      var q :| q in n && n[q].prev == Some(r);
      if q != id {
        assert rows[q].prev == Some(r);
        assert RowOk(rows, q);
      }
    }
    if latest == Some(r) {
      assert n[id].prev == Some(r);
    } else if r in rows && HasSuccessor(rows, r) {
      var q :| q in rows && rows[q].prev == Some(r);
      assert n[q].prev == Some(r);
    }
  }

  lemma AddKeepsUnique(rows: Rows, n: Rows, latest: Option<Uuid>, id: Uuid, e: Evidence, a: Uuid, b: Uuid)
    requires RowsOk(rows) && Adds(rows, n, latest, id, e)
    requires a in n && b in n && n[a].prev.Some? && n[a].prev == n[b].prev
    ensures a == b
  {
  }

  lemma AddKeepsRows(rows: Rows, n: Rows, latest: Option<Uuid>, id: Uuid, e: Evidence)
    requires RowsOk(rows) && Adds(rows, n, latest, id, e)
    ensures RowsOk(n)
  {
    forall r | r in n ensures RowOk(n, r) && (n[r].status == Superseded <==> HasSuccessor(n, r)) {
      AddKeepsRowOk(rows, n, latest, id, e, r);
      AddKeepsSuccessors(rows, n, latest, id, e, r);
    }
    forall a, b | a in n && b in n && n[a].prev.Some? && n[a].prev == n[b].prev ensures a == b {
      AddKeepsUnique(rows, n, latest, id, e, a, b);
    }
  }

  /** A commit adds one version to a predecessor that is still ACTIVE. */
  lemma CommitAdds(s: Sys, t: TxId)
    requires Inv(s) && t in s.txs && s.txs[t].pc.Audited?
    ensures s.txs[t].stored.Some? && (s.txs[t].latest.Some? ==> s.txs[t].latest.value in s.rows)
    ensures Adds(s.rows, Committed(s, s.txs[t]), s.txs[t].latest, s.txs[t].id, s.txs[t].stored.value)
  {
  }

  /** The columns a transaction relies on. */
  ghost predicate SameFor(s: Sys, n: Sys, p: Uuid) {
    p in s.rows && p in n.rows && n.rows[p].item == s.rows[p].item && n.rows[p].version == s.rows[p].version
  }

  lemma TxOkFrame(s: Sys, n: Sys, u: TxId)
    requires u in s.txs && TxOk(s, u) && u in n.txs && n.txs[u] == s.txs[u]
    requires s.used <= n.used && s.txs[u].id !in n.rows
    requires s.txs[u].latest.Some? ==> SameFor(s, n, s.txs[u].latest.value)
    requires s.txs[u].latest.Some? && s.txs[u].latest.value in s.locks && s.locks[s.txs[u].latest.value] == u ==>
      && n.rows[s.txs[u].latest.value].status == s.rows[s.txs[u].latest.value].status
      && s.txs[u].latest.value in n.locks && n.locks[s.txs[u].latest.value] == u
    ensures TxOk(n, u)
  {
  }

  lemma OthersKeepTx(s: Sys, l: Label, u: TxId)
    requires Inv(s) && u in s.txs && (IsEdit(l) || l.t != u)
    ensures u in Next(s, l).txs && TxOk(Next(s, l), u)
  {
    assert TxOk(s, u);
    if l.Commit? {
      if l.t in s.txs && s.txs[l.t].pc.Audited? { CommitKeepsOther(s, l.t, l.at, u); }
    } else {
      QuietStepKeepsOther(s, l, u);
    }
  }

  lemma QuietStepKeepsOther(s: Sys, l: Label, u: TxId)
    requires u in s.txs && TxOk(s, u) && !l.Commit? && (IsEdit(l) || l.t != u)
    ensures u in Next(s, l).txs && TxOk(Next(s, l), u)
  {
    TxOkFrame(s, Next(s, l), u);
  }

  lemma CommitKeepsOther(s: Sys, t: TxId, at: int, u: TxId)
    requires Inv(s) && u in s.txs && t in s.txs && t != u && s.txs[t].pc.Audited?
    ensures u in Next(s, Commit(t, at)).txs && TxOk(Next(s, Commit(t, at)), u)
  {
    var n := Next(s, Commit(t, at));
    assert TxOk(s, u) && TxOk(s, t);
    CommitAdds(s, t);
    assert n.rows == Committed(s, s.txs[t]);
    TxOkFrame(s, n, u);
  }

  lemma OwnStepKeepsTx(s: Sys, l: Label)
    requires Inv(s) && !IsEdit(l) && l.t in Next(s, l).txs
    ensures TxOk(Next(s, l), l.t)
  {
    if l.t in s.txs { assert TxOk(s, l.t); }
  }

  lemma NextKeepsTxs(s: Sys, l: Label, u: TxId)
    requires Inv(s) && u in Next(s, l).txs
    ensures TxOk(Next(s, l), u)
  {
    if !IsEdit(l) && l.t == u {
      OwnStepKeepsTx(s, l);
    } else if u in s.txs {
      OthersKeepTx(s, l, u);
    }
  }

  lemma NextKeepsRows(s: Sys, l: Label)
    requires Inv(s)
    ensures RowsOk(Next(s, l).rows)
  {
    if l.Commit? && l.t in s.txs && s.txs[l.t].pc.Audited? {
      CommitAdds(s, l.t);
      var x := s.txs[l.t];
      AddKeepsRows(s.rows, Committed(s, x), x.latest, x.id, x.stored.value);
    } else if l.Write? && l.t in s.edits {
      EditKeepsRows(s.rows, s.edits[l.t]);
    }
  }

  lemma EditKeepsRows(rows: Rows, e: Edit)
    requires RowsOk(rows)
    ensures RowsOk(Edited(rows, e))
  {
    var n := Edited(rows, e);
    assert forall r :: r in n <==> r in rows;
    assert forall r :: r in n ==> n[r] == rows[r].(body := n[r].body);
    forall r | r in n ensures RowOk(n, r) {
      assert RowOk(rows, r);
    }
    forall r | r in n ensures HasSuccessor(n, r) <==> HasSuccessor(rows, r) {
      if HasSuccessor(rows, r) {
        var q :| q in rows && rows[q].prev == Some(r);
        assert n[q].prev == Some(r);
      }
    }
  }

  lemma NextKeepsTxId(s: Sys, l: Label, u: TxId)
    requires u in Next(s, l).txs
    ensures if u in s.txs then Next(s, l).txs[u].id == s.txs[u].id
            else u == l.t && Next(s, l).txs[u].id !in s.used
  {
  }

  lemma NextUsesIds(s: Sys, l: Label)
    requires Inv(s)
    ensures forall r :: r in Next(s, l).rows ==> r in Next(s, l).used
  {
    if !IsEdit(l) && l.t in s.txs { assert TxOk(s, l.t); }
  }

  lemma NextKeepsIds(s: Sys, l: Label)
    requires Inv(s)
    ensures
      var n := Next(s, l);
      && (forall t, u :: t in n.txs && u in n.txs && n.txs[t].id == n.txs[u].id ==> t == u)
      && (forall r :: r in n.rows ==> r in n.used)
  {
    NextUsesIds(s, l);
    forall t, u | t in Next(s, l).txs && u in Next(s, l).txs && Next(s, l).txs[t].id == Next(s, l).txs[u].id
      ensures t == u
    {
      NextKeepsTxId(s, l, t);
      NextKeepsTxId(s, l, u);
      if t in s.txs { assert TxOk(s, t); }
      if u in s.txs { assert TxOk(s, u); }
    }
  }

  lemma NextKeepsHolders(s: Sys, l: Label)
    requires forall k :: k in s.locks ==> s.locks[k] in s.txs
    ensures forall k :: k in Next(s, l).locks ==> Next(s, l).locks[k] in Next(s, l).txs
  {
  }

  lemma NextKeepsInv(s: Sys, l: Label)
    requires Inv(s)
    ensures Inv(Next(s, l))
  {
    NextKeepsRows(s, l);
    NextKeepsIds(s, l);
    NextKeepsHolders(s, l);
    forall u | u in Next(s, l).txs ensures TxOk(Next(s, l), u) {
      NextKeepsTxs(s, l, u);
    }
  }

  lemma {:induction false} RunKeepsInv(s: Sys, ls: seq<Label>)
    requires Inv(s)
    ensures Inv(Run(s, ls))
  {
    if ls != [] {
      RunKeepsInv(s, ls[..|ls| - 1]);
      NextKeepsInv(Run(s, ls[..|ls| - 1]), ls[|ls| - 1]);
    }
  }

  // ----- the chain of one item -----

  ghost predicate Linear(rows: Rows, log: seq<EvEvent>, item: string) {
    exists chain :: IsStory(rows, log, item, chain)
  }

  predicate FirstVersion(rows: Rows, item: string, r: Uuid) {
    r in rows && rows[r].item == item && rows[r].prev.None?
  }

  /** Two uploads of the item were both committed as its first version. */
  ghost predicate TwoFirstVersions(rows: Rows, item: string) {
    exists a, b :: FirstVersion(rows, item, a) && FirstVersion(rows, item, b) && a != b
  }

  ghost predicate LinearOrTwo(rows: Rows, log: seq<EvEvent>, item: string) {
    Linear(rows, log, item) || TwoFirstVersions(rows, item)
  }

  lemma ActiveIsLast(rows: Rows, item: string, chain: seq<Uuid>, p: Uuid)
    requires IsLine(rows, item, chain) && p in rows && rows[p].item == item && rows[p].status == Active
    ensures chain != [] && p == chain[|chain| - 1] && IsLatest(rows, item, Some(p))
  {
    var k := PlaceOf(rows, item, chain, p);
    forall r | r in rows && rows[r].item == item ensures rows[r].version <= rows[p].version {
      var j := PlaceOf(rows, item, chain, r);
    }
  }

  /** The event recorded for a new version. */
  ghost predicate Tells(ev: EvEvent, id: Uuid, e: Evidence) {
    && ev.resourceId == id && ev.details.item == e.item && ev.details.version == e.version
    && ev.details.previous == e.prev
    && ev.action == (if e.version == 1 then EvidenceCreated else EvidenceVersioned)
  }

  lemma AddExtendsLine(rows: Rows, n: Rows, latest: Option<Uuid>, id: Uuid, e: Evidence, chain: seq<Uuid>)
    requires Adds(rows, n, latest, id, e) && IsLine(rows, e.item, chain) && (latest.None? ==> chain == [])
    ensures latest == if chain == [] then None else Some(chain[|chain| - 1])
    ensures e.version == |chain| + 1
    ensures IsLine(n, e.item, chain + [id])
  {
    if latest.Some? {
      ActiveIsLast(rows, e.item, chain, latest.value);
      assert LineAt(rows, e.item, chain, |chain| - 1);
    }
    ExtendLine(rows, e.item, chain, id, e);
    assert n == FlipLast(rows, chain)[id := e];
  }

  lemma AddExtendsTale(evs: seq<EvEvent>, ev: EvEvent, id: Uuid, e: Evidence, chain: seq<Uuid>)
    requires |evs| == |chain| && forall k :: 0 <= k < |chain| ==> ToldAt(evs[k], chain, k)
    requires Tells(ev, id, e) && e.version == |chain| + 1
    requires e.prev == if chain == [] then None else Some(chain[|chain| - 1])
    ensures forall k :: 0 <= k < |chain| + 1 ==> ToldAt((evs + [ev])[k], chain + [id], k)
  {
    forall k | 0 <= k < |chain| + 1 ensures ToldAt((evs + [ev])[k], chain + [id], k) {
      if k < |chain| { assert ToldAt(evs[k], chain, k); }
    }
  }

  lemma AddExtendsStory(rows: Rows, n: Rows, log: seq<EvEvent>, latest: Option<Uuid>, id: Uuid, e: Evidence,
      ev: EvEvent, chain: seq<Uuid>)
    requires Adds(rows, n, latest, id, e) && IsStory(rows, log, e.item, chain) && Tells(ev, id, e)
    requires latest.None? ==> chain == []
    ensures IsStory(n, log + [ev], e.item, chain + [id])
  {
    ItemEventsSnoc(log, ev, e.item);
    AddExtendsLine(rows, n, latest, id, e, chain);
    AddExtendsTale(ItemEvents(log, e.item), ev, id, e, chain);
  }

  lemma AddKeepsOtherItem(rows: Rows, n: Rows, log: seq<EvEvent>, latest: Option<Uuid>, id: Uuid, e: Evidence,
      ev: EvEvent, item: string)
    requires Adds(rows, n, latest, id, e) && Linear(rows, log, item) && item != e.item && ev.details.item == e.item
    ensures Linear(n, log + [ev], item)
  {
    var chain :| IsStory(rows, log, item, chain);
    ItemEventsSnoc(log, ev, item);
    OtherLineUntouched(rows, n, item, chain);
    assert IsStory(n, log + [ev], item, chain);
  }

  lemma AddKeepsLinearOrTwo(rows: Rows, n: Rows, log: seq<EvEvent>, latest: Option<Uuid>, id: Uuid, e: Evidence,
      ev: EvEvent, item: string)
    requires Adds(rows, n, latest, id, e) && Tells(ev, id, e) && LinearOrTwo(rows, log, item)
    ensures LinearOrTwo(n, log + [ev], item)
  {
    if TwoFirstVersions(rows, item) {
      var a, b :| FirstVersion(rows, item, a) && FirstVersion(rows, item, b) && a != b;
      assert FirstVersion(n, item, a) && FirstVersion(n, item, b);
    } else if item != e.item {
      AddKeepsOtherItem(rows, n, log, latest, id, e, ev, item);
    } else {
      var chain :| IsStory(rows, log, item, chain);
      if latest.None? && chain != [] {
        assert LineAt(rows, item, chain, 0);
        assert FirstVersion(n, item, chain[0]) && FirstVersion(n, item, id);
      } else {
        AddExtendsStory(rows, n, log, latest, id, e, ev, chain);
      }
    }
  }

  lemma CommitKeepsLinear(s: Sys, t: TxId, at: int, item: string)
    requires Inv(s) && LinearOrTwo(s.rows, s.log, item) && t in s.txs && s.txs[t].pc.Audited?
    ensures var n := Next(s, Commit(t, at)); LinearOrTwo(n.rows, n.log, item)
  {
    var x := s.txs[t];
    var n := Next(s, Commit(t, at));
    assert TxOk(s, t);
    CommitAdds(s, t);
    if x.latest.Some? { assert RowOk(s.rows, x.latest.value); }
    assert n.rows == Committed(s, x);
    assert n.log == s.log + [n.log[|s.log|]];
    AddKeepsLinearOrTwo(s.rows, n.rows, s.log, x.latest, x.id, x.stored.value, n.log[|s.log|], item);
  }

  lemma EditKeepsLinear(rows: Rows, log: seq<EvEvent>, e: Edit, item: string)
    requires LinearOrTwo(rows, log, item)
    ensures LinearOrTwo(Edited(rows, e), log, item)
  {
    var n := Edited(rows, e);
    assert n.Keys == rows.Keys;
    assert forall r :: r in rows ==> n[r] == rows[r].(body := n[r].body);
    if Linear(rows, log, item) {
      var chain :| IsStory(rows, log, item, chain);
      BodyDoesNotMatter(rows, n, item, chain);
      assert IsStory(n, log, item, chain);
    } else {
      var a, b :| FirstVersion(rows, item, a) && FirstVersion(rows, item, b) && a != b;
      assert FirstVersion(n, item, a) && FirstVersion(n, item, b);
    }
  }

  lemma {:induction false} RunKeepsLinear(ls: seq<Label>, item: string)
    ensures LinearOrTwo(Run(EMPTY, ls).rows, Run(EMPTY, ls).log, item)
  {
    if ls == [] {
      assert IsStory(map[], [], item, []);
    } else {
      var s, l := Run(EMPTY, ls[..|ls| - 1]), ls[|ls| - 1];
      RunKeepsLinear(ls[..|ls| - 1], item);
      RunKeepsInv(EMPTY, ls[..|ls| - 1]);
      if l.Commit? {
        if Next(s, l) != s { CommitKeepsLinear(s, l.t, l.at, item); }
      } else if l.Write? && l.t in s.edits {
        EditKeepsLinear(s.rows, s.log, s.edits[l.t], item);
      }
    }
  }

  // ----- all interleaved runs -----

  /** In every interleaving no version ever gets two successors, and a version is SUPERSEDED exactly when it has one. */
  lemma {:induction false} NeverForks(ls: seq<Label>)
    ensures RowsOk(Run(EMPTY, ls).rows)
  {
    RunKeepsInv(EMPTY, ls);
  }

  /** In every interleaving, the versions of an item form one line 1..n told by its audit events exactly when no two
      first uploads of it were both committed. */
  lemma {:induction false} LinearIffOneFirstVersion(ls: seq<Label>, item: string)
    ensures
      var s := Run(EMPTY, ls);
      Linear(s.rows, s.log, item) <==> !TwoFirstVersions(s.rows, item)
  {
    var s := Run(EMPTY, ls);
    RunKeepsLinear(ls, item);
    if Linear(s.rows, s.log, item) && TwoFirstVersions(s.rows, item) {
      var chain :| IsStory(s.rows, s.log, item, chain);
      var a, b :| FirstVersion(s.rows, item, a) && FirstVersion(s.rows, item, b) && a != b;
      FirstIsHead(s.rows, item, chain, a);
      FirstIsHead(s.rows, item, chain, b);
    }
  }

  /** An upload that found no version of the item in its snapshot is still under way. */
  ghost predicate FirstUploadOpen(s: Sys, item: string) {
    exists t :: t in s.txs && OpenFirst(s.txs[t], item)
  }

  predicate OpenFirst(x: Tx, item: string) {
    x.item == item && !x.pc.Begun? && x.latest.None?
  }

  ghost predicate HasVersion(rows: Rows, item: string) {
    exists r :: r in rows && rows[r].item == item
  }

  /** The item has one first version and nobody is about to add another. */
  ghost predicate Settled(s: Sys, item: string) {
    HasVersion(s.rows, item) && !TwoFirstVersions(s.rows, item) && !FirstUploadOpen(s, item)
  }

  lemma QuietStepKeepsSettled(s: Sys, l: Label, item: string)
    requires Settled(s, item) && !l.Commit? && !l.Write?
    ensures Settled(Next(s, l), item)
  {
    var n := Next(s, l);
    assert n.rows == s.rows;
    forall t | t in n.txs ensures !OpenFirst(n.txs[t], item) {
      if t in s.txs { assert !OpenFirst(s.txs[t], item); }
    }
  }

  lemma CommitKeepsSettled(s: Sys, l: Label, item: string)
    requires Inv(s) && Settled(s, item) && l.Commit? && l.t in s.txs && s.txs[l.t].pc.Audited?
    ensures Settled(Next(s, l), item)
  {
    var x, n := s.txs[l.t], Next(s, l);
    assert TxOk(s, l.t) && !OpenFirst(x, item);
    CommitAdds(s, l.t);
    assert n.rows == Committed(s, x);
    var r :| r in s.rows && s.rows[r].item == item;
    assert n.rows[r].item == item;
    forall a | FirstVersion(n.rows, item, a) ensures FirstVersion(s.rows, item, a) {}
    forall t | t in n.txs ensures !OpenFirst(n.txs[t], item) {
      assert t in s.txs && !OpenFirst(s.txs[t], item);
    }
  }

  lemma WriteKeepsSettled(s: Sys, l: Label, item: string)
    requires Settled(s, item) && l.Write? && l.t in s.edits
    ensures Settled(Next(s, l), item)
  {
    var n := Next(s, l);
    assert n.rows.Keys == s.rows.Keys && n.txs == s.txs;
    assert forall r :: r in s.rows ==> n.rows[r].item == s.rows[r].item && n.rows[r].prev == s.rows[r].prev;
    var r :| r in s.rows && s.rows[r].item == item;
    assert n.rows[r].item == item;
    forall a ensures FirstVersion(n.rows, item, a) <==> FirstVersion(s.rows, item, a) {}
  }

  lemma {:induction false} RunKeepsSettled(s: Sys, more: seq<Label>, item: string)
    requires Inv(s) && Settled(s, item)
    ensures Settled(Run(s, more), item)
  {
    if more != [] {
      var m, l := Run(s, more[..|more| - 1]), more[|more| - 1];
      RunKeepsSettled(s, more[..|more| - 1], item);
      RunKeepsInv(s, more[..|more| - 1]);
      if l.Commit? {
        if Next(m, l) != m { CommitKeepsSettled(m, l, item); }
      } else if l.Write? {
        if Next(m, l) != m { WriteKeepsSettled(m, l, item); }
      } else {
        QuietStepKeepsSettled(m, l, item);
      }
    }
  }

  function Rank(pc: Pc): nat {
    match pc
    case Begun => 0
    case Snapshotted => 1
    case Locked => 2
    case Inserted => 3
    case Flipped => 4
    case Audited => 5
  }

  /** An upload without predecessor waits for nobody: its next statement moves it on, the others leave it alone. */
  lemma FirstUploadMoves(s: Sys, t: TxId, l: Label, item: string)
    requires t in s.txs && OpenFirst(s.txs[t], item)
    requires l in {Lock(t), Insert(t), Flip(t), Record(t)}
    ensures var n := Next(s, l);
      var step := if l.Lock? then 1 else if l.Insert? then 2 else if l.Flip? then 3 else 4;
      && n.rows == s.rows && t in n.txs && OpenFirst(n.txs[t], item)
      && Rank(n.txs[t].pc) == if Rank(s.txs[t].pc) == step then step + 1 else Rank(s.txs[t].pc)
  {
  }

  lemma FirstUploadCommits(s: Sys, t: TxId, item: string) returns (more: seq<Label>)
    requires Inv(s) && t in s.txs && OpenFirst(s.txs[t], item)
    ensures var n := Run(s, more);
      && s.txs[t].id !in s.rows && FirstVersion(n.rows, item, s.txs[t].id)
      && (forall r :: r in s.rows ==> r in n.rows && n.rows[r] == s.rows[r])
  {
    assert TxOk(s, t);
    more := [];
    var m, steps := s, [Lock(t), Insert(t), Flip(t), Record(t)];
    for k := 0 to 4
      invariant m == Run(s, more) && m.rows == s.rows && Inv(m)
      invariant t in m.txs && OpenFirst(m.txs[t], item) && m.txs[t].id == s.txs[t].id && Rank(m.txs[t].pc) >= k + 1
    {
      FirstUploadMoves(m, t, steps[k], item);
      NextKeepsInv(m, steps[k]);
      RunSnoc(s, more, steps[k]);
      MovesKeepId(m, t, steps[k]);
      more, m := more + [steps[k]], Next(m, steps[k]);
    }
    CommitAdds(m, t);
    RunSnoc(s, more, Commit(t, 0));
    assert Next(m, Commit(t, 0)).rows == Committed(m, m.txs[t]);
    more := more + [Commit(t, 0)];
  }

  lemma MovesKeepId(s: Sys, t: TxId, l: Label)
    requires t in s.txs && t in Next(s, l).txs && l in {Lock(t), Insert(t), Flip(t), Record(t)}
    ensures Next(s, l).txs[t].id == s.txs[t].id
  {
  }

  lemma {:induction false} SettledStaysLinear(ls: seq<Label>, more: seq<Label>, item: string)
    requires Settled(Run(EMPTY, ls), item)
    ensures Linear(Run(Run(EMPTY, ls), more).rows, Run(Run(EMPTY, ls), more).log, item)
  {
    RunKeepsInv(EMPTY, ls);
    RunKeepsSettled(Run(EMPTY, ls), more, item);
    RunConcat(EMPTY, ls, more);
    LinearIffOneFirstVersion(ls + more, item);
  }

  lemma {:induction false} UnsettledCanFork(ls: seq<Label>, item: string) returns (more: seq<Label>)
    requires HasVersion(Run(EMPTY, ls).rows, item) && !Settled(Run(EMPTY, ls), item)
    ensures !Linear(Run(Run(EMPTY, ls), more).rows, Run(Run(EMPTY, ls), more).log, item)
  {
    var s := Run(EMPTY, ls);
    more := [];
    if !TwoFirstVersions(s.rows, item) {
      RunKeepsInv(EMPTY, ls);
      LinearIffOneFirstVersion(ls, item);
      var t :| t in s.txs && OpenFirst(s.txs[t], item);
      more := FirstUploadCommits(s, t, item);
      SecondFirstVersion(s, Run(s, more), item, s.txs[t].id);
    }
    RunConcat(EMPTY, ls, more);
    LinearIffOneFirstVersion(ls + more, item);
  }

  /** An item that has a version is one line, told by its events, in every continuation under any interleaved re-uploads
      exactly when it has one first version and no upload that found none is still under way. */
  lemma {:induction false} StaysLinearIff(ls: seq<Label>, item: string)
    requires HasVersion(Run(EMPTY, ls).rows, item)
    ensures var s := Run(EMPTY, ls);
      (forall more :: Linear(Run(s, more).rows, Run(s, more).log, item))
      <==> !TwoFirstVersions(s.rows, item) && !FirstUploadOpen(s, item)
  {
    var s := Run(EMPTY, ls);
    if Settled(s, item) {
      forall more ensures Linear(Run(s, more).rows, Run(s, more).log, item) {
        SettledStaysLinear(ls, more, item);
      }
    } else {
      var more := UnsettledCanFork(ls, item);
      assert !Linear(Run(s, more).rows, Run(s, more).log, item);
    }
  }

  lemma SecondFirstVersion(s: Sys, n: Sys, item: string, id: Uuid)
    requires HasVersion(s.rows, item) && Linear(s.rows, s.log, item)
    requires id !in s.rows && FirstVersion(n.rows, item, id)
    requires forall r :: r in s.rows ==> r in n.rows && n.rows[r] == s.rows[r]
    ensures TwoFirstVersions(n.rows, item)
  {
    var chain :| IsStory(s.rows, s.log, item, chain);
    var r :| r in s.rows && s.rows[r].item == item;
    var k := PlaceOf(s.rows, item, chain, r);
    assert LineAt(s.rows, item, chain, 0);
    assert FirstVersion(n.rows, item, chain[0]) && chain[0] != id;
  }

  lemma {:induction false} RunConcat(s: Sys, ls: seq<Label>, more: seq<Label>)
    ensures Run(s, ls + more) == Run(Run(s, ls), more)
  {
    if more == [] {
      assert ls + more == ls;
    } else {
      RunConcat(s, ls, more[..|more| - 1]);
      assert (ls + more)[..|ls + more| - 1] == ls + more[..|more| - 1];
    }
  }

  lemma FirstIsHead(rows: Rows, item: string, chain: seq<Uuid>, r: Uuid)
    requires IsLine(rows, item, chain) && FirstVersion(rows, item, r)
    ensures chain != [] && r == chain[0]
  {
    var k := PlaceOf(rows, item, chain, r);
  }

  /** However stale the snapshot was, a re-upload that commits on a linear item commits on top of the real latest
      version. */
  lemma {:induction false} CommittedReuploadSawLatest(ls: seq<Label>, t: TxId)
    ensures
      var s := Run(EMPTY, ls);
      t in s.txs && s.txs[t].pc.Audited? && s.txs[t].latest.Some? && Linear(s.rows, s.log, s.txs[t].item) ==>
        IsLatest(s.rows, s.txs[t].item, s.txs[t].latest)
  {
    var s := Run(EMPTY, ls);
    RunKeepsInv(EMPTY, ls);
    if t in s.txs && s.txs[t].pc.Audited? && s.txs[t].latest.Some? && Linear(s.rows, s.log, s.txs[t].item) {
      assert TxOk(s, t);
      var chain :| IsStory(s.rows, s.log, s.txs[t].item, chain);
      ActiveIsLast(s.rows, s.txs[t].item, chain, s.txs[t].latest.value);
    }
  }

  // ----- body columns of superseded versions -----

  lemma RunSnoc(s: Sys, ls: seq<Label>, l: Label)
    ensures Run(s, ls + [l]) == Next(Run(s, ls), l)
  {
    assert (ls + [l])[..|ls|] == ls;
  }

  /** Every update of `r` still under way writes the value the column already has. */
  ghost predicate NoPendingChange(s: Sys, r: Uuid)
    requires r in s.rows
  {
    forall t :: t in s.edits && s.edits[t].id == r ==> Changeless(s.rows[r], s.edits[t])
  }

  predicate Changeless(row: Evidence, e: Edit) {
    row.(body := row.body[e.column := e.value]) == row
  }

  /** What a step may do to a superseded row: write one update that had passed its check before. */
  ghost predicate WritesAtMostOne(s: Sys, n: Sys, l: Label, r: Uuid)
    requires r in s.rows
  {
    && r in n.rows && HasSuccessor(n.rows, r)
    && (n.rows[r] == s.rows[r]
        || (l.Write? && l.t in s.edits && s.edits[l.t].id == r
            && n.rows[r] == s.rows[r].(body := s.rows[r].body[s.edits[l.t].column := s.edits[l.t].value])))
  }

  lemma StepOpensNoUpdate(s: Sys, l: Label, r: Uuid, t: TxId)
    requires HasSuccessor(s.rows, r) && t in Next(s, l).edits && Next(s, l).edits[t].id == r
    ensures t in s.edits && s.edits[t] == Next(s, l).edits[t]
  {
  }

  lemma SupersededStep(s: Sys, l: Label, r: Uuid)
    requires Inv(s) && r in s.rows && HasSuccessor(s.rows, r)
    ensures WritesAtMostOne(s, Next(s, l), l, r)
  {
    if l.Commit? && l.t in s.txs && s.txs[l.t].pc.Audited? {
      var x := s.txs[l.t];
      CommitAdds(s, l.t);
      SupersededCommit(s.rows, Committed(s, x), x.latest, x.id, x.stored.value, r);
      CommitStores(s, l.t, l.at);
    } else if l.Write? {
      SupersededWrite(s, l, r);
    } else {
      QuietKeepsRows(s, l);
    }
  }

  lemma CommitStores(s: Sys, t: TxId, at: int)
    requires t in s.txs && s.txs[t].pc.Audited? && s.txs[t].stored.Some?
    requires s.txs[t].latest.Some? ==> s.txs[t].latest.value in s.rows
    ensures Next(s, Commit(t, at)).rows == Committed(s, s.txs[t])
  {
  }

  lemma QuietKeepsRows(s: Sys, l: Label)
    requires !l.Write? && (l.Commit? ==> l.t !in s.txs || !s.txs[l.t].pc.Audited?)
    ensures Next(s, l).rows == s.rows
  {
  }

  lemma SupersededCommit(rows: Rows, n: Rows, latest: Option<Uuid>, id: Uuid, e: Evidence, r: Uuid)
    requires RowsOk(rows) && Adds(rows, n, latest, id, e) && r in rows && HasSuccessor(rows, r)
    ensures r in n && n[r] == rows[r] && HasSuccessor(n, r)
  {
    AddKeepsSuccessors(rows, n, latest, id, e, r);
  }

  lemma SupersededWrite(s: Sys, l: Label, r: Uuid)
    requires r in s.rows && HasSuccessor(s.rows, r) && l.Write?
    ensures WritesAtMostOne(s, Next(s, l), l, r)
  {
    var q :| q in s.rows && s.rows[q].prev == Some(r);
    assert q in Next(s, l).rows && Next(s, l).rows[q].prev == Some(r);
  }

  /** No update starts on a superseded row: the ones that write it later had passed their check before its successor was
      committed. */
  lemma {:induction false} LateUpdatesWereCheckedBefore(s: Sys, more: seq<Label>, r: Uuid, t: TxId)
    requires Inv(s) && r in s.rows && HasSuccessor(s.rows, r)
    ensures var n := Run(s, more);
      && r in n.rows && HasSuccessor(n.rows, r)
      && (t in n.edits && n.edits[t].id == r ==> t in s.edits && s.edits[t] == n.edits[t])
  {
    if more != [] {
      LateUpdatesWereCheckedBefore(s, more[..|more| - 1], r, t);
      RunKeepsInv(s, more[..|more| - 1]);
      var m, l := Run(s, more[..|more| - 1]), more[|more| - 1];
      SupersededStep(m, l, r);
      if t in Next(m, l).edits && Next(m, l).edits[t].id == r { StepOpensNoUpdate(m, l, r, t); }
    }
  }

  lemma {:induction false} FrozenWithoutPendingChange(s: Sys, more: seq<Label>, r: Uuid)
    requires Inv(s) && r in s.rows && HasSuccessor(s.rows, r) && NoPendingChange(s, r)
    ensures r in Run(s, more).rows && Run(s, more).rows[r] == s.rows[r]
  {
    if more != [] {
      var init, l := more[..|more| - 1], more[|more| - 1];
      var m := Run(s, init);
      FrozenWithoutPendingChange(s, init, r);
      RunKeepsInv(s, init);
      forall t ensures t in m.edits && m.edits[t].id == r ==> Changeless(s.rows[r], m.edits[t]) {
        LateUpdatesWereCheckedBefore(s, init, r, t);
      }
      LateUpdatesWereCheckedBefore(s, init, r, l.t);
      SupersededStep(m, l, r);
    }
  }

  /** A pending update can always go through: once the transaction that holds the row, if any, has given up. */
  lemma PendingChangeHappens(s: Sys, r: Uuid, t: TxId) returns (more: seq<Label>)
    requires Inv(s) && r in s.rows && t in s.edits && s.edits[t].id == r
    ensures r in Run(s, more).rows
    ensures Run(s, more).rows[r] == s.rows[r].(body := s.rows[r].body[s.edits[t].column := s.edits[t].value])
  {
    var free := if r in s.locks then [Abort(s.locks[r])] else [];
    var m := Run(s, free);
    if r in s.locks { RunSnoc(s, [], Abort(s.locks[r])); }
    assert m.rows == s.rows && m.edits == s.edits && r !in m.locks;
    more := free + [Write(t)];
    RunSnoc(s, free, Write(t));
  }

  /** A version with a successor keeps its row, body columns included, in every continuation exactly when no update of
      it that would change a column has already counted its successors. */
  lemma {:induction false} SupersededIsFrozenIff(ls: seq<Label>, r: Uuid)
    requires r in Run(EMPTY, ls).rows && HasSuccessor(Run(EMPTY, ls).rows, r)
    ensures var s := Run(EMPTY, ls);
      (forall more :: r in Run(s, more).rows && Run(s, more).rows[r] == s.rows[r]) <==> NoPendingChange(s, r)
  {
    var s := Run(EMPTY, ls);
    RunKeepsInv(EMPTY, ls);
    if NoPendingChange(s, r) {
      forall more ensures r in Run(s, more).rows && Run(s, more).rows[r] == s.rows[r] {
        FrozenWithoutPendingChange(s, more, r);
      }
    } else {
      var t :| t in s.edits && s.edits[t].id == r && !Changeless(s.rows[r], s.edits[t]);
      var more := PendingChangeHappens(s, r, t);
      assert Run(s, more).rows[r] != s.rows[r];
    }
  }

  // ----- two first uploads -----

  lemma Extend(ls: seq<Label>, s: Sys, l: Label, n: Sys) returns (more: seq<Label>)
    requires Run(EMPTY, ls) == s && Next(s, l) == n
    ensures Run(EMPTY, more) == n
  {
    more := ls + [l];
    assert more[..|ls|] == ls;
  }

  /** Two uploads in flight, `a` and `b`, with `rows` and `log` committed and no lock held. */
  function Two(rows: Rows, log: seq<EvEvent>, txs: map<TxId, Tx>): Sys {
    Sys(rows, log, map[], txs, {1, 2}, map[])
  }

  function FirstTx(id: Uuid, pc: Pc): Tx {
    if pc.Begun? || pc.Snapshotted? then Tx("i", id, map[], pc, None, 0, None)
    else if pc.Locked? then Tx("i", id, map[], pc, None, 1, None)
    else Tx("i", id, map[], pc, None, 1, Some(Evidence("i", 1, None, Active, map[])))
  }

  function FirstRow(): Evidence {
    Evidence("i", 1, None, Active, map[])
  }

  lemma FirstStatements(rows: Rows, log: seq<EvEvent>, txs: map<TxId, Tx>, id: Uuid, pc: Pc, l: Label, next: Pc)
    requires (pc, l, next) in {(Snapshotted, Lock(id), Locked), (Locked, Insert(id), Inserted),
        (Inserted, Flip(id), Flipped), (Flipped, Record(id), Audited)}
    ensures Next(Two(rows, log, txs[id := FirstTx(id, pc)]), l) == Two(rows, log, txs[id := FirstTx(id, next)])
  {
  }

  lemma FirstCommit(rows: Rows, log: seq<EvEvent>, txs: map<TxId, Tx>, id: Uuid)
    requires id in txs
    ensures
      var e := Event(0, EvidenceCreated, id, DEFAULT_USER, Details("i", 1, "", None));
      Next(Two(rows, log, txs[id := FirstTx(id, Audited)]), Commit(id, 0))
      == Two(rows[id := FirstRow()], log + [e], txs - {id})
  {
  }

  /** A first upload that has its snapshot runs to its commit. */
  lemma FinishFirst(ls: seq<Label>, rows: Rows, log: seq<EvEvent>, txs: map<TxId, Tx>, id: Uuid)
    returns (more: seq<Label>, log': seq<EvEvent>)
    requires id in txs && txs[id] == FirstTx(id, Snapshotted)
    requires Run(EMPTY, ls) == Two(rows, log, txs)
    ensures Run(EMPTY, more) == Two(rows[id := FirstRow()], log', txs - {id})
  {
    assert txs[id := FirstTx(id, Snapshotted)] == txs;
    FirstStatements(rows, log, txs, id, Snapshotted, Lock(id), Locked);
    more := Extend(ls, Two(rows, log, txs), Lock(id), Two(rows, log, txs[id := FirstTx(id, Locked)]));
    FirstStatements(rows, log, txs, id, Locked, Insert(id), Inserted);
    more := Extend(more, Two(rows, log, txs[id := FirstTx(id, Locked)]), Insert(id),
        Two(rows, log, txs[id := FirstTx(id, Inserted)]));
    FirstStatements(rows, log, txs, id, Inserted, Flip(id), Flipped);
    more := Extend(more, Two(rows, log, txs[id := FirstTx(id, Inserted)]), Flip(id),
        Two(rows, log, txs[id := FirstTx(id, Flipped)]));
    FirstStatements(rows, log, txs, id, Flipped, Record(id), Audited);
    more := Extend(more, Two(rows, log, txs[id := FirstTx(id, Flipped)]), Record(id),
        Two(rows, log, txs[id := FirstTx(id, Audited)]));
    FirstCommit(rows, log, txs, id);
    log' := log + [Event(0, EvidenceCreated, id, DEFAULT_USER, Details("i", 1, "", None))];
    more := Extend(more, Two(rows, log, txs[id := FirstTx(id, Audited)]), Commit(id, 0),
        Two(rows[id := FirstRow()], log', txs - {id}));
  }

  /** Two first uploads that both took their snapshot before either committed: nothing stops the second one. */
  lemma FirstUploadsCanCollide()
    ensures exists ls :: TwoFirstVersions(Run(EMPTY, ls).rows, "i")
  {
    var t1, t2 := FirstTx(1, Begun), FirstTx(2, Begun);
    var ls := Extend([], EMPTY, Begin(1, "i", 1, map[]), EMPTY.(txs := map[1 := t1], used := {1}));
    ls := Extend(ls, EMPTY.(txs := map[1 := t1], used := {1}), Begin(2, "i", 2, map[]),
        Two(map[], [], map[1 := t1, 2 := t2]));
    ls := Extend(ls, Two(map[], [], map[1 := t1, 2 := t2]), Snapshot(1, None),
                 Two(map[], [], map[1 := FirstTx(1, Snapshotted), 2 := t2]));
    var both := map[1 := FirstTx(1, Snapshotted), 2 := FirstTx(2, Snapshotted)];
    ls := Extend(ls, Two(map[], [], map[1 := FirstTx(1, Snapshotted), 2 := t2]), Snapshot(2, None),
        Two(map[], [], both));
    var log;
    ls, log := FinishFirst(ls, map[], [], both, 1);
    ls, log := FinishFirst(ls, map[1 := FirstRow()], log, both - {1}, 2);
    var rows := Run(EMPTY, ls).rows;
    assert FirstVersion(rows, "i", 1) && FirstVersion(rows, "i", 2);
  }

  // ----- an update that overtakes nothing but its own check -----

  const EDIT := Edit(1, "file_name", "x")

  /** Version 1 committed, the update checked, and one re-upload under way. */
  function Racing(log: seq<EvEvent>, pc: Pc): Sys {
    var locks := if Rank(pc) >= 2 then map[1 := 2] else map[];
    Sys(map[1 := FirstRow()], log, locks, map[2 := SecondTx(pc)], {1, 2}, map[0 := EDIT])
  }

  function SecondRow(): Evidence {
    Evidence("i", 2, Some(1), Active, map[])
  }

  function SecondTx(pc: Pc): Tx {
    Tx("i", 2, map[], pc, if pc.Begun? then None else Some(1), if Rank(pc) >= 2 then 2 else 0,
       if Rank(pc) >= 3 then Some(SecondRow()) else None)
  }

  lemma SecondStatements(log: seq<EvEvent>, pc: Pc, l: Label, next: Pc)
    requires (pc, l, next) in {
      (Begun, Snapshot(2, Some(1)), Snapshotted), (Snapshotted, Lock(2), Locked), (Locked, Insert(2), Inserted),
      (Inserted, Flip(2), Flipped), (Flipped, Record(2), Audited)}
    ensures Next(Racing(log, pc), l) == Racing(log, next)
  {
  }

  lemma SecondCommits(log: seq<EvEvent>)
    ensures var n := Next(Racing(log, Audited), Commit(2, 0));
      && n.rows == map[1 := FirstRow().(status := Superseded), 2 := SecondRow()]
      && n.locks == map[] && n.edits == map[0 := EDIT]
  {
    var s := Racing(log, Audited);
    assert Unlock(s, 2) == map[];
    assert Committed(s, SecondTx(Audited)) == map[1 := FirstRow().(status := Superseded), 2 := SecondRow()];
  }

  lemma FirstUploadRun() returns (ls: seq<Label>, log: seq<EvEvent>)
    ensures Run(EMPTY, ls) == Racing(log, Begun)
  {
    var t1, t2 := FirstTx(1, Begun), FirstTx(2, Begun);
    ls := Extend([], EMPTY, Begin(1, "i", 1, map[]), EMPTY.(txs := map[1 := t1], used := {1}));
    ls := Extend(ls, EMPTY.(txs := map[1 := t1], used := {1}), Begin(2, "i", 2, map[]),
        Two(map[], [], map[1 := t1, 2 := t2]));
    ls := Extend(ls, Two(map[], [], map[1 := t1, 2 := t2]), Snapshot(1, None),
                 Two(map[], [], map[1 := FirstTx(1, Snapshotted), 2 := t2]));
    ls, log := FinishFirst(ls, map[], [], map[1 := FirstTx(1, Snapshotted), 2 := t2], 1);
    assert map[1 := FirstTx(1, Snapshotted), 2 := t2] - {1} == map[2 := t2];
    CheckPasses(log);
    ls := Extend(ls, Two(map[1 := FirstRow()], log, map[2 := t2]), Check(0, 1, "file_name", "x"), Racing(log, Begun));
  }

  lemma CheckPasses(log: seq<EvEvent>)
    ensures Next(Two(map[1 := FirstRow()], log, map[2 := FirstTx(2, Begun)]), Check(0, 1, "file_name", "x"))
        == Racing(log, Begun)
  {
  }

  /** The two statements of UpdateEvidenceBodyColumn with a re-upload committed in between: version 1 has a successor,
      and its body changes. */
  lemma LateWriteChangesSuperseded()
    ensures exists ls, l :: BodyChanges(Run(EMPTY, ls), l, 1)
  {
    var ls, log := FirstUploadRun();
    ls := SecondUpload(ls, log);
    SecondCommits(log);
    LateWrite(Run(EMPTY, ls));
    assert BodyChanges(Run(EMPTY, ls), Write(0), 1);
  }

  /** A step that changes the body of a row that has a successor. */
  ghost predicate BodyChanges(s: Sys, l: Label, r: Uuid) {
    r in s.rows && HasSuccessor(s.rows, r) && r in Next(s, l).rows && Next(s, l).rows[r].body != s.rows[r].body
  }

  lemma LateWrite(s: Sys)
    requires s.rows == map[1 := FirstRow().(status := Superseded), 2 := SecondRow()]
    requires s.locks == map[] && s.edits == map[0 := EDIT]
    ensures BodyChanges(s, Write(0), 1)
  {
    assert s.rows[2].prev == Some(1);
    assert "file_name" in Next(s, Write(0)).rows[1].body;
  }

  lemma SecondUpload(ls: seq<Label>, log: seq<EvEvent>) returns (more: seq<Label>)
    requires Run(EMPTY, ls) == Racing(log, Begun)
    ensures Run(EMPTY, more) == Next(Racing(log, Audited), Commit(2, 0))
  {
    SecondStatements(log, Begun, Snapshot(2, Some(1)), Snapshotted);
    more := Extend(ls, Racing(log, Begun), Snapshot(2, Some(1)), Racing(log, Snapshotted));
    SecondStatements(log, Snapshotted, Lock(2), Locked);
    more := Extend(more, Racing(log, Snapshotted), Lock(2), Racing(log, Locked));
    SecondStatements(log, Locked, Insert(2), Inserted);
    more := Extend(more, Racing(log, Locked), Insert(2), Racing(log, Inserted));
    SecondStatements(log, Inserted, Flip(2), Flipped);
    more := Extend(more, Racing(log, Inserted), Flip(2), Racing(log, Flipped));
    SecondStatements(log, Flipped, Record(2), Audited);
    more := Extend(more, Racing(log, Flipped), Record(2), Racing(log, Audited));
    more := Extend(more, Racing(log, Audited), Commit(2, 0), Next(Racing(log, Audited), Commit(2, 0)));
  }
}
