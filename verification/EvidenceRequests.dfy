/**
 What a committed upload, or a written column update, has to do with the request it was begun with, in every
 interleaving of module EvidenceRuns; and an upload that meets nobody goes through.
 */
module EvidenceRequests {
  import opened Common
  import opened Audit
  import opened Evidences
  import opened EvidenceRuns

  /** The transaction was begun as this upload. */
  ghost predicate UploadBegun(ls: seq<Label>, t: TxId, x: Tx) {
    Label.Begin(t, x.item, x.id, x.body) in ls
  }

  lemma StepKeepsUpload(s: Sys, l: Label, t: TxId)
    requires t in Next(s, l).txs && (t !in s.txs || Next(s, l).txs[t] != s.txs[t])
    ensures l.Begin? || l.t == t
    ensures var y := Next(s, l).txs[t];
      if l.Begin? then l == Label.Begin(t, y.item, y.id, y.body)
      else t in s.txs && s.txs[t].item == y.item && s.txs[t].id == y.id && s.txs[t].body == y.body
  {
  }

  lemma {:induction false} UploadsWereBegun(ls: seq<Label>, t: TxId)
    requires t in Run(EMPTY, ls).txs
    ensures UploadBegun(ls, t, Run(EMPTY, ls).txs[t])
  {
    var init, l := ls[..|ls| - 1], ls[|ls| - 1];
    assert ls == init + [l];
    var s, n := Run(EMPTY, init), Run(EMPTY, ls);
    if t in s.txs { UploadsWereBegun(init, t); }
    if t !in s.txs || n.txs[t] != s.txs[t] { StepKeepsUpload(s, l, t); }
  }

  lemma CommitFields(s: Sys, t: TxId, at: int)
    requires Inv(s) && t in s.txs && s.txs[t].pc.Audited?
    ensures var x, n := s.txs[t], Next(s, Commit(t, at));
      && StoredOnTop(s.rows, n.rows, x.latest, x.id, x.item, x.body)
      && t !in n.txs
  {
    CommitAdds(s, t);
    CommitStores(s, t, at);
  }

  lemma CommitRecords(s: Sys, t: TxId, at: int)
    requires Inv(s) && t in s.txs && s.txs[t].pc.Audited?
    ensures var x, n := s.txs[t], Next(s, Commit(t, at));
      x.id in n.rows && RecordedOnce(s.log, n.log, at, x.id, n.rows[x.id])
  {
    var x := s.txs[t];
    CommitAdds(s, t);
    CommitStores(s, t, at);
    if x.latest.Some? { assert RowOk(s.rows, x.latest.value); }
  }

  /** In every interleaving a commit stores the item and body its upload was begun with, on top of the version it
      flipped, and its event names that version and that body's hash. */
  lemma CommitStoresUpload(ls: seq<Label>, t: TxId, at: int)
    requires t in Run(EMPTY, ls).txs && Run(EMPTY, ls).txs[t].pc.Audited?
    ensures
      var s, n := Run(EMPTY, ls), Run(EMPTY, ls + [Commit(t, at)]);
      var x := s.txs[t];
      && Label.Begin(t, x.item, x.id, x.body) in ls
      && StoredOnTop(s.rows, n.rows, x.latest, x.id, x.item, x.body)
      && RecordedOnce(s.log, n.log, at, x.id, n.rows[x.id])
      && t !in n.txs
  {
    var s := Run(EMPTY, ls);
    RunKeepsInv(EMPTY, ls);
    UploadsWereBegun(ls, t);
    RunSnoc(EMPTY, ls, Commit(t, at));
    CommitFields(s, t, at);
    CommitRecords(s, t, at);
  }

  // ----- column updates -----

  lemma StepKeepsEdit(s: Sys, l: Label, t: TxId)
    requires t in Next(s, l).edits
    ensures var e := Next(s, l).edits[t];
      || (l == Check(t, e.id, e.column, e.value) && !HasSuccessor(s.rows, e.id) && e.column in BODY_COLUMNS)
      || (t in s.edits && s.edits[t] == e)
  {
    match l
    case Begin(_, _, _, _) =>
    case Snapshot(_, _) =>
    case Lock(_) =>
    case Insert(_) =>
    case Flip(_) =>
    case Record(_) =>
    case Commit(_, _) =>
    case Abort(_) =>
    case Check(_, _, _, _) =>
    case Write(_) =>
    case Cancel(_) =>
  }

  /** Step `k` of the run checked this update, and the row had no successor then. */
  ghost predicate CheckedAt(ls: seq<Label>, t: TxId, e: Edit, k: nat) {
    && k < |ls| && ls[k] == Check(t, e.id, e.column, e.value)
    && e.column in BODY_COLUMNS && !HasSuccessor(Run(EMPTY, ls[..k]).rows, e.id)
  }

  lemma {:induction false} EditsWereChecked(ls: seq<Label>, t: TxId) returns (k: nat)
    requires t in Run(EMPTY, ls).edits
    ensures CheckedAt(ls, t, Run(EMPTY, ls).edits[t], k)
  {
    var init, l := ls[..|ls| - 1], ls[|ls| - 1];
    assert ls == init + [l];
    StepKeepsEdit(Run(EMPTY, init), l, t);
    if t in Run(EMPTY, init).edits && Run(EMPTY, init).edits[t] == Run(EMPTY, ls).edits[t] {
      k := EditsWereChecked(init, t);
      assert ls[..k] == init[..k];
    } else {
      k := |init|;
    }
  }

  /** In every interleaving a write sets the column its check named to the value its check named, and nothing else; the
      row had no successor when it was checked. */
  lemma WriteStoresColumn(ls: seq<Label>, t: TxId) returns (k: nat)
    requires t in Run(EMPTY, ls).edits && Run(EMPTY, ls).edits[t].id !in Run(EMPTY, ls).locks
    ensures CheckedAt(ls, t, Run(EMPTY, ls).edits[t], k)
    ensures
      var s, n := Run(EMPTY, ls), Run(EMPTY, ls + [Write(t)]);
      var e := s.edits[t];
      && n.log == s.log && n.rows.Keys == s.rows.Keys && t !in n.edits
      && (forall r :: r in s.rows && r != e.id ==> n.rows[r] == s.rows[r])
      && (e.id in s.rows ==>
        && n.rows[e.id].item == s.rows[e.id].item && n.rows[e.id].version == s.rows[e.id].version
        && n.rows[e.id].prev == s.rows[e.id].prev && n.rows[e.id].status == s.rows[e.id].status
        && n.rows[e.id].body == s.rows[e.id].body[e.column := e.value])
  {
    k := EditsWereChecked(ls, t);
    RunSnoc(EMPTY, ls, Write(t));
  }

  // ----- an upload that meets nobody -----

  /** Only transaction `t`, at `x`; it holds its predecessor's row once it is past the lock. */
  function Solo(s: Sys, t: TxId, x: Tx): Sys {
    s.(txs := map[t := x], used := s.used + {x.id},
       locks := if x.pc.Begun? || x.pc.Snapshotted? || x.latest.None? then map[] else map[x.latest.value := t])
  }

  function At(item: string, id: Uuid, body: map<string, string>, pc: Pc, latest: Option<Uuid>, version: nat): Tx {
    Tx(item, id, body, pc, latest, version,
      if pc.Inserted? || pc.Flipped? || pc.Audited? then Some(Evidence(item, version, latest, Active, body)) else None)
  }

  lemma SoloStarts(s: Sys, t: TxId, item: string, id: Uuid, body: map<string, string>, latest: Option<Uuid>)
    requires s.txs == map[] && s.locks == map[] && id !in s.used && IsLatest(s.rows, item, latest)
    ensures Next(Next(s, Begin(t, item, id, body)), Snapshot(t, latest))
         == Solo(s, t, At(item, id, body, Snapshotted, latest, 0))
  {
    assert Next(s, Begin(t, item, id, body)) == Solo(s, t, At(item, id, body, Begun, None, 0));
  }

  lemma SoloStores(s: Sys, t: TxId, item: string, id: Uuid, body: map<string, string>, latest: Option<Uuid>)
    requires latest.Some? ==> latest.value in s.rows
    ensures var version := if latest.Some? then s.rows[latest.value].version + 1 else 1;
      Next(Next(Solo(s, t, At(item, id, body, Snapshotted, latest, 0)), Lock(t)), Insert(t))
      == Solo(s, t, At(item, id, body, Inserted, latest, version))
  {
    var version := if latest.Some? then s.rows[latest.value].version + 1 else 1;
    assert Next(Solo(s, t, At(item, id, body, Snapshotted, latest, 0)), Lock(t))
        == Solo(s, t, At(item, id, body, Locked, latest, version));
  }

  lemma SoloFlips(s: Sys, t: TxId, x: Tx)
    requires x.pc.Inserted?
    requires x.latest.Some? ==> x.latest.value in s.rows && s.rows[x.latest.value].status == Active
    ensures Next(Solo(s, t, x), Flip(t)) == Solo(s, t, x.(pc := Flipped))
  {
    assert Solo(s, t, x).txs[t] == x;
  }

  lemma SoloRecords(s: Sys, t: TxId, x: Tx)
    requires x.pc.Flipped?
    ensures Next(Solo(s, t, x), Record(t)) == Solo(s, t, x.(pc := Audited))
  {
    assert Solo(s, t, x).txs[t] == x;
  }

  function UpToCommit(t: TxId, item: string, id: Uuid, body: map<string, string>, latest: Option<Uuid>): seq<Label> {
    [Begin(t, item, id, body)] + [Snapshot(t, latest)] + [Lock(t)] + [Insert(t)] + [Flip(t)] + [Record(t)]
  }

  lemma RunSteps(s: Sys, t: TxId, item: string, id: Uuid, body: map<string, string>, latest: Option<Uuid>)
    ensures
      var a := Next(Next(s, Begin(t, item, id, body)), Snapshot(t, latest));
      Run(s, UpToCommit(t, item, id, body, latest))
      == Next(Next(Next(Next(a, Lock(t)), Insert(t)), Flip(t)), Record(t))
  {
    var ls := [Begin(t, item, id, body)];
    assert [] + ls == ls;
    RunSnoc(s, [], ls[0]);
    RunSnoc(s, ls, Snapshot(t, latest));
    ls := ls + [Snapshot(t, latest)];
    RunSnoc(s, ls, Lock(t));
    ls := ls + [Lock(t)];
    RunSnoc(s, ls, Insert(t));
    ls := ls + [Insert(t)];
    RunSnoc(s, ls, Flip(t));
    ls := ls + [Flip(t)];
    RunSnoc(s, ls, Record(t));
  }

  lemma SoloUpload(s: Sys, t: TxId, item: string, id: Uuid, body: map<string, string>, latest: Option<Uuid>)
    requires s.txs == map[] && s.locks == map[] && id !in s.used && IsLatest(s.rows, item, latest)
    requires latest.Some? ==> s.rows[latest.value].status == Active
    ensures
      var version := if latest.Some? then s.rows[latest.value].version + 1 else 1;
      Run(s, UpToCommit(t, item, id, body, latest)) == Solo(s, t, At(item, id, body, Audited, latest, version))
  {
    var version := if latest.Some? then s.rows[latest.value].version + 1 else 1;
    SoloStarts(s, t, item, id, body, latest);
    SoloStores(s, t, item, id, body, latest);
    SoloFlips(s, t, At(item, id, body, Inserted, latest, version));
    SoloRecords(s, t, At(item, id, body, Flipped, latest, version));
    RunSteps(s, t, item, id, body, latest);
  }

  /** From every reached state in which no upload is under way, one that runs alone on an item whose rows form a line
      commits its body as the next version. */
  lemma LoneUploadCommits(ls: seq<Label>, t: TxId, item: string, id: Uuid, body: map<string, string>, at: int,
      chain: seq<Uuid>)
    requires Run(EMPTY, ls).txs == map[] && id !in Run(EMPTY, ls).used && IsLine(Run(EMPTY, ls).rows, item, chain)
    ensures
      var latest := if chain == [] then None else Some(chain[|chain| - 1]);
      var s, n := Run(EMPTY, ls), Run(EMPTY, ls + UpToCommit(t, item, id, body, latest) + [Commit(t, at)]);
      && StoredOnTop(s.rows, n.rows, latest, id, item, body) && n.rows[id].version == |chain| + 1
      && RecordedOnce(s.log, n.log, at, id, n.rows[id])
  {
    var latest := if chain == [] then None else Some(chain[|chain| - 1]);
    var s := Run(EMPTY, ls);
    NoLocksWhenIdle(ls);
    LastIsLatest(s.rows, item, chain);
    SoloUpload(s, t, item, id, body, latest);
    var before := UpToCommit(t, item, id, body, latest);
    RunConcat(EMPTY, ls, before);
    CommitStoresUpload(ls + before, t, at);
  }

  lemma NoLocksWhenIdle(ls: seq<Label>)
    requires Run(EMPTY, ls).txs == map[]
    ensures Run(EMPTY, ls).locks == map[]
  {
    RunKeepsInv(EMPTY, ls);
  }

  lemma LastIsLatest(rows: Rows, item: string, chain: seq<Uuid>)
    requires IsLine(rows, item, chain)
    ensures var latest := if chain == [] then None else Some(chain[|chain| - 1]);
      && IsLatest(rows, item, latest)
      && (latest.Some? ==> rows[latest.value].status == Active && rows[latest.value].version == |chain|)
  {
    if chain != [] {
      assert LineAt(rows, item, chain, |chain| - 1);
      ActiveIsLast(rows, item, chain, chain[|chain| - 1]);
    } else {
      assert forall r :: r in rows && rows[r].item == item ==> r in chain;
    }
  }
}
