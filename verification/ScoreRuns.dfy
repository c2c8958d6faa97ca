/**
 Corrections that interleave. SupersedeAndReplaceScore reads the old row without a lock, inserts the replacement,
 and only then marks the old row SUPERSEDED, provided it is still CONFIRMED; the loser of a race rolls back whole.
 */
module ScoreRuns {
  import opened Common
  import opened Audit
  import opened Scores

  type TxId = nat

  datatype Pc = Begun | Read | Inserted | CreateLogged | Flipped | UpdateLogged

  /** `seen` is the old row as the unlocked read returned it. */
  datatype Tx = Tx(
    id: Uuid, newId: Uuid, at: int, value: real, weight: Option<real>, metadata: Option<string>,
    pc: Pc, seen: Option<Score>)

  /** `links` records, in commit order, which row each committed correction replaced by which. */
  datatype Sys = Sys(
    rows: Rows, log: seq<ScEvent>, links: seq<(Uuid, Uuid)>,
    locks: map<Uuid, TxId>, txs: map<TxId, Tx>, used: set<Uuid>)

  datatype Label =
    | Begin(t: TxId, id: Uuid, newId: Uuid, at: int, value: Float, weight: Option<real>, metadata: Option<string>)
    | Get(t: TxId)
    | InsertRow(t: TxId)
    | LogCreated(t: TxId)
    | Flip(t: TxId)
    | LogUpdated(t: TxId)
    | Commit(t: TxId)
    | Abort(t: TxId)

  function Drop(s: Sys, t: TxId): Sys {
    s.(locks := map k | k in s.locks && s.locks[k] != t :: s.locks[k], txs := s.txs - {t})
  }

  function To(s: Sys, t: TxId, x: Tx): Sys {
    s.(txs := s.txs[t := x])
  }

  function NewRow(x: Tx): Score
    requires x.seen.Some?
  {
    Replacement(x.seen.value, x.value, x.weight, x.metadata)
  }

  function Install(s: Sys, x: Tx): Sys
    requires x.seen.Some? && x.id in s.rows
  {
    s.(rows := s.rows[x.newId := NewRow(x)][x.id := s.rows[x.id].(status := Superseded)],
       log := s.log + [Created(x.at, x.newId, NewRow(x)), Updated(x.at, x.id, x.seen.value)],
       links := s.links + [(x.id, x.newId)])
  }

  function Next(s: Sys, l: Label): Sys {
    match l
    case Begin(t, id, newId, at, value, weight, metadata) =>
      if t in s.txs || newId in s.used || value.NonFinite? then s
      else To(s, t, Tx(id, newId, at, value.value, weight, metadata, Begun, None)).(used := s.used + {newId})
    case Get(t) =>
      if t !in s.txs || !s.txs[t].pc.Begun? then s
      else if s.txs[t].id !in s.rows || s.rows[s.txs[t].id].status != Confirmed then Drop(s, t)
      else To(s, t, s.txs[t].(pc := Read, seen := Some(s.rows[s.txs[t].id])))
    case InsertRow(t) =>
      if t !in s.txs || !s.txs[t].pc.Read? then s
      else if !Fits(Some(s.txs[t].value), s.txs[t].weight) then Drop(s, t)
      else To(s, t, s.txs[t].(pc := Inserted))
    case LogCreated(t) =>
      if t !in s.txs || !s.txs[t].pc.Inserted? then s else To(s, t, s.txs[t].(pc := CreateLogged))
    case Flip(t) =>
      if t !in s.txs || !s.txs[t].pc.CreateLogged? || s.txs[t].id in s.locks then s
      else if s.txs[t].id !in s.rows || s.rows[s.txs[t].id].status != Confirmed then Drop(s, t)
      else To(s, t, s.txs[t].(pc := Flipped)).(locks := s.locks[s.txs[t].id := t])
    case LogUpdated(t) =>
      if t !in s.txs || !s.txs[t].pc.Flipped? then s else To(s, t, s.txs[t].(pc := UpdateLogged))
    case Commit(t) =>
      if t !in s.txs || !s.txs[t].pc.UpdateLogged? || s.txs[t].seen.None? || s.txs[t].id !in s.rows then s
      else Drop(Install(s, s.txs[t]), t)
    case Abort(t) => if t in s.txs then Drop(s, t) else s
  }

  function Run(s: Sys, ls: seq<Label>): Sys {
    if ls == [] then s else Next(Run(s, ls[..|ls| - 1]), ls[|ls| - 1])
  }

  /** A table nobody is correcting yet; IDs generated so far are those of its rows. */
  function Start(rows: Rows, log: seq<ScEvent>): Sys {
    Sys(rows, log, [], map[], map[], rows.Keys)
  }

  // ----- the invariant -----

  ghost predicate TxOk(s: Sys, t: TxId)
    requires t in s.txs
  {
    var x := s.txs[t];
    && x.newId in s.used && x.newId !in s.rows
    && (!x.pc.Begun? ==> x.seen.Some? && x.id in s.rows && SameIdentity(x.seen.value, s.rows[x.id]))
    && (!x.pc.Begun? && !x.pc.Read? ==> Fits(Some(x.value), x.weight))
    && (x.pc.Flipped? || x.pc.UpdateLogged? ==>
      x.id in s.rows && s.rows[x.id].status == Confirmed && x.id in s.locks && s.locks[x.id] == t)
  }

  ghost predicate TxsOk(s: Sys) {
    && (forall t :: t in s.txs ==> TxOk(s, t))
    && (forall t, u :: t in s.txs && u in s.txs && s.txs[t].newId == s.txs[u].newId ==> t == u)
  }

  /** Each row is replaced at most once, replaces at most one, and only after it was itself created. */
  ghost predicate Chains(links: seq<(Uuid, Uuid)>) {
    && (forall i, j :: 0 <= i < j < |links| ==> links[i].0 != links[j].0)
    && (forall i, j :: 0 <= i < j < |links| ==> links[i].1 != links[j].1)
    && (forall i, j :: 0 <= i <= j < |links| ==> links[i].0 != links[j].1)
  }

  ghost predicate KeysGrown(rows: Rows, links: seq<(Uuid, Uuid)>, rows0: Rows) {
    forall id :: id in rows <==> id in rows0 || exists i :: 0 <= i < |links| && links[i].1 == id
  }

  ghost predicate LinkOk(rows: Rows, link: (Uuid, Uuid), rows0: Rows) {
    && link.0 in rows && rows[link.0].status == Superseded
    && link.1 in rows && link.1 !in rows0
    && SameIdentity(rows[link.0], rows[link.1])
  }

  ghost predicate OldRowOk(rows: Rows, id: Uuid, rows0: Rows)
    requires id in rows0
  {
    && id in rows
    && (rows[id] == rows0[id] || (rows0[id].status == Confirmed && rows[id] == rows0[id].(status := Superseded)))
  }

  /** The table is the initial one, with every replaced row flipped and every replacement added. */
  ghost predicate Grown(s: Sys, rows0: Rows) {
    && KeysGrown(s.rows, s.links, rows0)
    && (forall i :: 0 <= i < |s.links| ==> LinkOk(s.rows, s.links[i], rows0))
    && (forall id :: id in rows0 ==> OldRowOk(s.rows, id, rows0))
  }

  ghost predicate Inv(s: Sys, rows0: Rows) {
    && s.rows.Keys <= s.used
    && TxsOk(s) && Chains(s.links) && Grown(s, rows0)
  }

  /** A transaction nobody touched stays in order while its row and its lock do. */
  lemma TxFrame(s: Sys, n: Sys, u: TxId)
    requires u in s.txs && TxOk(s, u) && u in n.txs && n.txs[u] == s.txs[u]
    requires s.used <= n.used && s.txs[u].newId !in n.rows
    requires s.txs[u].id in s.rows ==> s.txs[u].id in n.rows && SameIdentity(s.rows[s.txs[u].id], n.rows[s.txs[u].id])
    requires s.txs[u].pc.Flipped? || s.txs[u].pc.UpdateLogged? ==>
      && n.rows[s.txs[u].id].status == Confirmed
      && s.txs[u].id in n.locks && n.locks[s.txs[u].id] == u
    ensures TxOk(n, u)
  {
  }

  lemma QuietKeepsOther(s: Sys, l: Label, u: TxId)
    requires u in s.txs && TxOk(s, u) && !l.Commit? && l.t != u
    ensures u in Next(s, l).txs && Next(s, l).txs[u] == s.txs[u] && TxOk(Next(s, l), u)
  {
    TxFrame(s, Next(s, l), u);
  }

  lemma QuietKeepsOwn(s: Sys, l: Label)
    requires l.t in s.txs ==> TxOk(s, l.t)
    requires !l.Commit? && l.t in Next(s, l).txs && s.rows.Keys <= s.used
    ensures TxOk(Next(s, l), l.t)
    ensures l.t in s.txs ==> Next(s, l).txs[l.t].newId == s.txs[l.t].newId
    ensures l.t !in s.txs ==> Next(s, l).txs[l.t].newId !in s.used
  {
  }

  lemma QuietKeepsTable(s: Sys, l: Label)
    requires !l.Commit?
    ensures Next(s, l).rows == s.rows && s.used <= Next(s, l).used
    ensures Next(s, l).links == s.links && Next(s, l).log == s.log
    ensures forall u :: u in Next(s, l).txs ==> u in s.txs || u == l.t
  {
  }

  lemma QuietKeepsTxs(s: Sys, l: Label)
    requires TxsOk(s) && s.rows.Keys <= s.used && !l.Commit?
    ensures TxsOk(Next(s, l))
  {
    QuietKeepsTable(s, l);
    var n := Next(s, l);
    forall u | u in n.txs
      ensures TxOk(n, u) && (u in s.txs ==> n.txs[u].newId == s.txs[u].newId)
          && (u !in s.txs ==> n.txs[u].newId !in s.used)
    {
      if u == l.t { QuietKeepsOwn(s, l); } else { QuietKeepsOther(s, l, u); }
    }
    forall u | u in s.txs ensures s.txs[u].newId in s.used { assert TxOk(s, u); }
  }

  lemma CommitKeepsTxs(s: Sys, t: TxId)
    requires TxsOk(s) && t in s.txs && s.txs[t].pc.UpdateLogged?
    ensures TxsOk(Next(s, Commit(t)))
  {
    var n := Next(s, Commit(t));
    assert TxOk(s, t);
    forall u | u in n.txs ensures TxOk(n, u) {
      assert TxOk(s, u);
      TxFrame(s, n, u);
    }
  }

  /** What the locked, still CONFIRMED row tells at commit. */
  lemma CommitFacts(s: Sys, t: TxId, rows0: Rows)
    requires TxsOk(s) && Grown(s, rows0) && t in s.txs && s.txs[t].pc.UpdateLogged?
    ensures var x := s.txs[t];
      && x.seen.Some? && x.id in s.rows && s.rows[x.id].status == Confirmed && SameIdentity(s.rows[x.id], NewRow(x))
      && x.newId !in s.rows && x.newId in s.used
      && (forall i :: 0 <= i < |s.links| ==> s.links[i].0 != x.id && s.links[i].0 != x.newId && s.links[i].1 != x.newId)
  {
  }

  lemma ChainsSnoc(links: seq<(Uuid, Uuid)>, a: Uuid, b: Uuid)
    requires Chains(links) && a != b
    requires forall i :: 0 <= i < |links| ==> links[i].0 != a && links[i].0 != b && links[i].1 != b
    ensures Chains(links + [(a, b)])
  {
  }

  /** `rows` after one correction of the row `id`. */
  ghost predicate Corrects(rows: Rows, n: Rows, id: Uuid, newId: Uuid, row: Score) {
    && id in rows && rows[id].status == Confirmed && newId !in rows && SameIdentity(rows[id], row)
    && n == rows[newId := row][id := rows[id].(status := Superseded)]
  }

  lemma LinkFrame(rows: Rows, n: Rows, id: Uuid, newId: Uuid, row: Score, link: (Uuid, Uuid), rows0: Rows)
    requires Corrects(rows, n, id, newId, row) && LinkOk(rows, link, rows0) && link.0 != id
    ensures LinkOk(n, link, rows0)
  {
  }

  lemma {:induction false} GrownSnoc(s: Sys, n: Sys, x: Tx, rows0: Rows)
    requires Grown(s, rows0) && x.seen.Some? && Corrects(s.rows, n.rows, x.id, x.newId, NewRow(x))
    requires forall i :: 0 <= i < |s.links| ==> s.links[i].0 != x.id
    requires n.links == s.links + [(x.id, x.newId)]
    ensures Grown(n, rows0)
  {
    KeysSnoc(s.rows, n.rows, s.links, x.id, x.newId, NewRow(x), rows0);
    assert LinkOk(n.rows, (x.id, x.newId), rows0);
    forall i | 0 <= i < |n.links| ensures LinkOk(n.rows, n.links[i], rows0) {
      if i < |s.links| { LinkFrame(s.rows, n.rows, x.id, x.newId, NewRow(x), s.links[i], rows0); }
    }
    forall id | id in rows0 ensures OldRowOk(n.rows, id, rows0) {
      OldRowFrame(s.rows, n.rows, x.id, x.newId, NewRow(x), id, rows0);
    }
  }

  lemma OldRowFrame(rows: Rows, n: Rows, id: Uuid, newId: Uuid, row: Score, old': Uuid, rows0: Rows)
    requires Corrects(rows, n, id, newId, row) && old' in rows0 && OldRowOk(rows, old', rows0)
    ensures OldRowOk(n, old', rows0)
  {
  }

  lemma KeysSnoc(rows: Rows, n: Rows, links: seq<(Uuid, Uuid)>, id: Uuid, newId: Uuid, row: Score, rows0: Rows)
    requires KeysGrown(rows, links, rows0) && Corrects(rows, n, id, newId, row)
    ensures KeysGrown(n, links + [(id, newId)], rows0)
  {
    var all := links + [(id, newId)];
    assert all[|links|].1 == newId;
    forall k ensures k in n <==> k in rows0 || exists i :: 0 <= i < |all| && all[i].1 == k {
      if k in rows && k !in rows0 {
        var i :| 0 <= i < |links| && links[i].1 == k;
        assert all[i].1 == k;
      }
    }
  }

  lemma CommitKeepsTable(s: Sys, t: TxId, rows0: Rows)
    requires TxsOk(s) && Chains(s.links) && Grown(s, rows0) && s.rows.Keys <= s.used
    requires t in s.txs && s.txs[t].pc.UpdateLogged?
    ensures var n := Next(s, Commit(t));
      Chains(n.links) && Grown(n, rows0) && n.rows.Keys <= n.used
  {
    var x := s.txs[t];
    CommitFacts(s, t, rows0);
    CommitInstalls(s, t);
    ChainsSnoc(s.links, x.id, x.newId);
    GrownSnoc(s, Next(s, Commit(t)), x, rows0);
  }

  lemma {:induction false} StepKeepsInv(s: Sys, l: Label, rows0: Rows)
    requires Inv(s, rows0)
    ensures Inv(Next(s, l), rows0)
  {
    if !l.Commit? {
      QuietKeepsTxs(s, l);
      QuietKeepsTable(s, l);
    } else if l.t in s.txs && s.txs[l.t].pc.UpdateLogged? {
      CommitKeepsTxs(s, l.t);
      CommitKeepsTable(s, l.t, rows0);
    }
  }

  lemma {:induction false} RunKeepsInv(rows0: Rows, log0: seq<ScEvent>, ls: seq<Label>)
    ensures Inv(Run(Start(rows0, log0), ls), rows0)
  {
    if ls != [] {
      RunKeepsInv(rows0, log0, ls[..|ls| - 1]);
      StepKeepsInv(Run(Start(rows0, log0), ls[..|ls| - 1]), ls[|ls| - 1], rows0);
    }
  }

  // ----- main results -----

  /** `n` replacements lead from `a` to `b`. */
  ghost predicate Path(links: seq<(Uuid, Uuid)>, a: Uuid, b: Uuid, n: nat)
    decreases n
  {
    if n == 0 then a == b
    else exists i :: 0 <= i < |links| && links[i].0 == a && Path(links, links[i].1, b, n - 1)
  }

  /** A path that starts with link `i` only ends where later links start. */
  lemma {:induction false} PathGoesForward(links: seq<(Uuid, Uuid)>, i: nat, b: Uuid, n: nat, k: nat)
    requires Chains(links) && i < |links| && Path(links, links[i].1, b, n) && k < |links| && links[k].0 == b
    ensures i < k
    decreases n
  {
    if n > 0 {
      var j :| 0 <= j < |links| && links[j].0 == links[i].1 && Path(links, links[j].1, b, n - 1);
      PathGoesForward(links, j, b, n - 1, k);
    }
  }

  lemma ChainsHaveNoCycle(links: seq<(Uuid, Uuid)>, a: Uuid, n: nat)
    requires Chains(links) && n > 0
    ensures !Path(links, a, a, n)
  {
    if Path(links, a, a, n) {
      var i :| 0 <= i < |links| && links[i].0 == a && Path(links, links[i].1, a, n - 1);
      PathGoesForward(links, i, a, n - 1, i);
    }
  }

  /** In every interleaving of corrections each row is replaced at most once and replaces at most one row, and no row
      is, through any number of replacements, its own replacement. */
  lemma ReplacementsFormChains(rows0: Rows, log0: seq<ScEvent>, ls: seq<Label>)
    ensures var links := Run(Start(rows0, log0), ls).links;
      && Chains(links)
      && (forall a, n: nat :: n > 0 ==> !Path(links, a, a, n))
  {
    RunKeepsInv(rows0, log0, ls);
    var links := Run(Start(rows0, log0), ls).links;
    forall a, n: nat | n > 0 ensures !Path(links, a, a, n) {
      ChainsHaveNoCycle(links, a, n);
    }
  }

  /** Nothing is deleted: old rows stay, at most flipped to SUPERSEDED, exactly when a committed correction replaced
      them; the new rows are the replacements. */
  lemma OnlyReplacedRowsChange(rows0: Rows, log0: seq<ScEvent>, ls: seq<Label>, id: Uuid)
    requires id in rows0
    ensures var s := Run(Start(rows0, log0), ls);
      && id in s.rows
      && s.rows[id] ==
        (if exists i :: 0 <= i < |s.links| && s.links[i].0 == id then rows0[id].(status := Superseded) else rows0[id])
  {
    RunKeepsInv(rows0, log0, ls);
    RunFlipsOnlyLinked(rows0, log0, ls, id);
    var s := Run(Start(rows0, log0), ls);
    assert OldRowOk(s.rows, id, rows0);
    forall i | 0 <= i < |s.links| && s.links[i].0 == id ensures s.rows[id].status == Superseded {
      assert LinkOk(s.rows, s.links[i], rows0);
    }
  }

  lemma {:induction false} RunFlipsOnlyLinked(rows0: Rows, log0: seq<ScEvent>, ls: seq<Label>, id: Uuid)
    requires id in rows0
    ensures var s := Run(Start(rows0, log0), ls);
      id in s.rows && (s.rows[id] != rows0[id] ==> exists i :: 0 <= i < |s.links| && s.links[i].0 == id)
  {
    if ls != [] {
      var s, l := Run(Start(rows0, log0), ls[..|ls| - 1]), ls[|ls| - 1];
      RunFlipsOnlyLinked(rows0, log0, ls[..|ls| - 1], id);
      RunKeepsInv(rows0, log0, ls[..|ls| - 1]);
      if !l.Commit? {
        QuietKeepsTable(s, l);
      } else if l.t in s.txs && s.txs[l.t].pc.UpdateLogged? {
        CommitFacts(s, l.t, rows0);
        var n := Next(s, l);
        assert n.links[|s.links|].0 == s.txs[l.t].id;
        forall i | 0 <= i < |s.links| && s.links[i].0 == id ensures n.links[i].0 == id {}
      }
    }
  }

  datatype Key = Key(item: string, evidence: Option<Uuid>, level: string)

  function KeyOf(row: Score): Key {
    Key(row.item, row.evidence, row.level)
  }

  /** The CONFIRMED rows of one (item, evidence, level) triple. */
  function ConfirmedOf(rows: Rows, key: Key): set<Uuid> {
    set id | id in rows && rows[id].status == Confirmed && KeyOf(rows[id]) == key
  }

  lemma CorrectionConserves(rows: Rows, n: Rows, id: Uuid, newId: Uuid, row: Score, key: Key)
    requires Corrects(rows, n, id, newId, row) && row.status == Confirmed
    ensures |ConfirmedOf(n, key)| == |ConfirmedOf(rows, key)|
  {
    if KeyOf(row) == key {
      assert ConfirmedOf(n, key) == ConfirmedOf(rows, key) - {id} + {newId};
    } else {
      assert ConfirmedOf(n, key) == ConfirmedOf(rows, key);
    }
  }

  lemma {:induction false} CommitConserves(s: Sys, t: TxId, rows0: Rows, key: Key)
    requires TxsOk(s) && Grown(s, rows0) && t in s.txs && s.txs[t].pc.UpdateLogged?
    ensures |ConfirmedOf(Next(s, Commit(t)).rows, key)| == |ConfirmedOf(s.rows, key)|
  {
    CommitFacts(s, t, rows0);
    CommitInstalls(s, t);
    CorrectionConserves(s.rows, Next(s, Commit(t)).rows, s.txs[t].id, s.txs[t].newId, NewRow(s.txs[t]), key);
  }

  /** Corrections conserve the number of CONFIRMED rows of every triple. */
  lemma {:induction false} ConfirmedCountIsConserved(rows0: Rows, log0: seq<ScEvent>, ls: seq<Label>, key: Key)
    ensures |ConfirmedOf(Run(Start(rows0, log0), ls).rows, key)| == |ConfirmedOf(rows0, key)|
  {
    if ls != [] {
      var s, l := Run(Start(rows0, log0), ls[..|ls| - 1]), ls[|ls| - 1];
      ConfirmedCountIsConserved(rows0, log0, ls[..|ls| - 1], key);
      if !l.Commit? {
        QuietKeepsTable(s, l);
      } else if l.t in s.txs && s.txs[l.t].pc.UpdateLogged? {
        RunKeepsInv(rows0, log0, ls[..|ls| - 1]);
        CommitConserves(s, l.t, rows0, key);
      }
    }
  }

  /** The two events of the correction `link`, placed in the log. */
  predicate EventsAt(log: seq<ScEvent>, k: int, link: (Uuid, Uuid)) {
    && 0 <= k && k + 1 < |log|
    && log[k].action == ScoreCreated && log[k].resourceId == link.1 && log[k].details.scoreId == link.1
    && log[k + 1].action == ScoreUpdated && log[k + 1].resourceId == link.0 && log[k + 1].details.scoreId == link.0
    && log[k].details.item == log[k + 1].details.item && log[k].details.level == log[k + 1].details.level
  }

  ghost predicate LogGrown(log: seq<ScEvent>, links: seq<(Uuid, Uuid)>, log0: seq<ScEvent>) {
    && |log| == |log0| + 2 * |links|
    && log0 <= log
    && (forall i :: 0 <= i < |links| ==> EventsAt(log, |log0| + 2 * i, links[i]))
  }

  lemma LogGrownSnoc(log: seq<ScEvent>, links: seq<(Uuid, Uuid)>, log0: seq<ScEvent>, at: int, x: (Uuid, Uuid),
      row: Score, replaced: Score)
    requires LogGrown(log, links, log0) && row.item == replaced.item && row.level == replaced.level
    ensures LogGrown(log + [Created(at, x.1, row), Updated(at, x.0, replaced)], links + [x], log0)
  {
  }

  /** Each committed correction adds exactly two audit events, SCORE_CREATED for the new row and SCORE_UPDATED for the
      old; a correction that rolls back adds none. */
  lemma {:induction false} TwoEventsEach(rows0: Rows, log0: seq<ScEvent>, ls: seq<Label>)
    ensures LogGrown(Run(Start(rows0, log0), ls).log, Run(Start(rows0, log0), ls).links, log0)
  {
    if ls != [] {
      var s, l := Run(Start(rows0, log0), ls[..|ls| - 1]), ls[|ls| - 1];
      TwoEventsEach(rows0, log0, ls[..|ls| - 1]);
      if !l.Commit? {
        QuietKeepsTable(s, l);
      } else if l.t in s.txs && s.txs[l.t].pc.UpdateLogged? {
        RunKeepsInv(rows0, log0, ls[..|ls| - 1]);
        CommitLogs(s, l.t, log0);
      }
    }
  }

  lemma CommitLogs(s: Sys, t: TxId, log0: seq<ScEvent>)
    requires TxsOk(s) && LogGrown(s.log, s.links, log0) && t in s.txs && s.txs[t].pc.UpdateLogged?
    ensures LogGrown(Next(s, Commit(t)).log, Next(s, Commit(t)).links, log0)
  {
    var x := s.txs[t];
    ReadyToCommit(s, t);
    CommitInstalls(s, t);
    LogGrownSnoc(s.log, s.links, log0, x.at, (x.id, x.newId), NewRow(x), x.seen.value);
  }

  function ApplyAll(db: Db, ops: seq<Op>): Db {
    if ops == [] then db else Apply(ApplyAll(db, ops[..|ops| - 1]), ops[|ops| - 1])
  }

  function OpOf(x: Tx): Op {
    Correct(x.id, x.newId, x.at, Finite(x.value), x.weight, x.metadata)
  }

  lemma InstallIsCorrect(rows: Rows, log: seq<ScEvent>, x: Tx)
    requires x.seen.Some? && x.id in rows && rows[x.id].status == Confirmed && SameIdentity(x.seen.value, rows[x.id])
    requires x.newId !in rows && Fits(Some(x.value), x.weight)
    ensures Refusal(rows, OpOf(x)).None?
    ensures Apply(Db(rows, log), OpOf(x)) ==
      Db(rows[x.newId := NewRow(x)][x.id := rows[x.id].(status := Superseded)],
         log + [Created(x.at, x.newId, NewRow(x)), Updated(x.at, x.id, x.seen.value)])
  {
  }

  lemma ReadyToCommit(s: Sys, t: TxId)
    requires TxsOk(s) && t in s.txs && s.txs[t].pc.UpdateLogged?
    ensures var x := s.txs[t];
      && x.seen.Some? && x.id in s.rows && s.rows[x.id].status == Confirmed && SameIdentity(x.seen.value, s.rows[x.id])
      && x.newId !in s.rows && Fits(Some(x.value), x.weight)
  {
  }

  lemma CommitInstalls(s: Sys, t: TxId)
    requires t in s.txs && s.txs[t].pc.UpdateLogged? && s.txs[t].seen.Some? && s.txs[t].id in s.rows
    ensures var n, m := Next(s, Commit(t)), Install(s, s.txs[t]);
      n.rows == m.rows && n.log == m.log && n.links == m.links && n.used == s.used
  {
  }

  /** A commit is one serial SupersedeAndReplaceScore on the table as it is then, stale read or not. */
  lemma CommitIsOneCorrection(s: Sys, t: TxId)
    requires TxsOk(s) && t in s.txs && s.txs[t].pc.UpdateLogged?
    ensures Refusal(s.rows, OpOf(s.txs[t])).None?
    ensures Db(Next(s, Commit(t)).rows, Next(s, Commit(t)).log) == Apply(Db(s.rows, s.log), OpOf(s.txs[t]))
    ensures Next(s, Commit(t)).links == s.links + [(s.txs[t].id, s.txs[t].newId)]
  {
    ReadyToCommit(s, t);
    CommitInstalls(s, t);
    InstallIsCorrect(s.rows, s.log, s.txs[t]);
  }

  /** Every interleaving has the effect of its committed corrections, one after the other in commit order. */
  lemma {:induction false} InterleavingIsSerial(rows0: Rows, log0: seq<ScEvent>, ls: seq<Label>) returns (ops: seq<Op>)
    ensures SerialFor(Run(Start(rows0, log0), ls), Db(rows0, log0), ops)
  {
    ops := [];
    if ls != [] {
      var s, l := Run(Start(rows0, log0), ls[..|ls| - 1]), ls[|ls| - 1];
      ops := InterleavingIsSerial(rows0, log0, ls[..|ls| - 1]);
      if !l.Commit? {
        QuietKeepsTable(s, l);
      } else if l.t in s.txs && s.txs[l.t].pc.UpdateLogged? {
        RunKeepsInv(rows0, log0, ls[..|ls| - 1]);
        CommitIsOneCorrection(s, l.t);
        SerialSnoc(s, Next(s, l), Db(rows0, log0), ops, OpOf(s.txs[l.t]));
        ops := ops + [OpOf(s.txs[l.t])];
      }
    }
  }

  /** The committed state of `s` is what the corrections `ops` make of `db0`, and they are the ones that committed. */
  ghost predicate SerialFor(s: Sys, db0: Db, ops: seq<Op>) {
    && Db(s.rows, s.log) == ApplyAll(db0, ops)
    && |ops| == |s.links|
    && (forall i :: 0 <= i < |ops| ==> ops[i].Correct? && (ops[i].id, ops[i].newId) == s.links[i])
  }

  lemma SerialSnoc(s: Sys, n: Sys, db0: Db, ops: seq<Op>, op: Op)
    requires SerialFor(s, db0, ops) && op.Correct?
    requires Db(n.rows, n.log) == Apply(Db(s.rows, s.log), op) && n.links == s.links + [(op.id, op.newId)]
    ensures SerialFor(n, db0, ops + [op])
  {
  }

  // ----- what a committed correction was asked for -----

  /** The transaction was begun with these arguments. */
  ghost predicate WasBegun(ls: seq<Label>, t: TxId, x: Tx) {
    Label.Begin(t, x.id, x.newId, x.at, Finite(x.value), x.weight, x.metadata) in ls
  }

  lemma StepKeepsArguments(s: Sys, l: Label, t: TxId)
    requires t in Next(s, l).txs
    ensures WasBegun([l], t, Next(s, l).txs[t]) || (t in s.txs && SameArguments(s.txs[t], Next(s, l).txs[t]))
  {
    match l
    case Begin(_, _, _, _, _, _, _) =>
    case Get(_) =>
    case InsertRow(_) =>
    case LogCreated(_) =>
    case Flip(_) =>
    case LogUpdated(_) =>
    case Commit(_) =>
    case Abort(_) =>
  }

  predicate SameArguments(x: Tx, y: Tx) {
    && x.id == y.id && x.newId == y.newId && x.at == y.at && x.value == y.value && x.weight == y.weight
    && x.metadata == y.metadata
  }

  lemma {:induction false} TransactionsWereBegun(s: Sys, ls: seq<Label>, t: TxId)
    requires s.txs == map[] && t in Run(s, ls).txs
    ensures WasBegun(ls, t, Run(s, ls).txs[t])
  {
    var init, l := ls[..|ls| - 1], ls[|ls| - 1];
    StepKeepsArguments(Run(s, init), l, t);
    if t in Run(s, init).txs { TransactionsWereBegun(s, init, t); }
    assert ls == init + [l];
  }

  lemma CommitCorrects(s: Sys, t: TxId)
    requires TxsOk(s) && t in s.txs && s.txs[t].pc.UpdateLogged?
    ensures var x, n := s.txs[t], Next(s, Commit(t));
      && t !in n.txs
      && CorrectedScore(Db(s.rows, s.log), Db(n.rows, n.log), x.id, x.newId, x.at, Finite(x.value), x.weight,
          x.metadata)
  {
    CommitIsOneCorrection(s, t);
    CorrectDoes(Db(s.rows, s.log), OpOf(s.txs[t]));
    assert t !in Next(s, Commit(t)).txs by { ReadyToCommit(s, t); }
  }

  /** In every interleaving a commit corrects the row its transaction was begun with, by the value, weight and metadata
      it was begun with, on the table as it is then. */
  lemma CommitDoesItsRequest(rows0: Rows, log0: seq<ScEvent>, ls: seq<Label>, t: TxId)
    requires var s := Run(Start(rows0, log0), ls); t in s.txs && s.txs[t].pc.UpdateLogged?
    ensures
      var s, n := Run(Start(rows0, log0), ls), Run(Start(rows0, log0), ls + [Commit(t)]);
      var x := s.txs[t];
      && Label.Begin(t, x.id, x.newId, x.at, Finite(x.value), x.weight, x.metadata) in ls
      && CorrectedScore(Db(s.rows, s.log), Db(n.rows, n.log), x.id, x.newId, x.at, Finite(x.value), x.weight,
          x.metadata)
      && t !in n.txs
  {
    var s := Run(Start(rows0, log0), ls);
    RunSnoc(Start(rows0, log0), ls, Commit(t));
    TransactionsWereBegun(Start(rows0, log0), ls, t);
    RunKeepsInv(rows0, log0, ls);
    CommitCorrects(s, t);
  }

  lemma RunSnoc(s: Sys, ls: seq<Label>, l: Label)
    ensures Run(s, ls + [l]) == Next(Run(s, ls), l)
  {
    assert (ls + [l])[..|ls|] == ls;
  }

  /** The steps of one correction, in the order the transaction makes them. */
  function Steps(t: TxId, op: Op): seq<Label>
    requires op.Correct?
  {
    [Begin(t, op.id, op.newId, op.at, op.value, op.weight, op.metadata)]
    + [Get(t)] + [InsertRow(t)] + [LogCreated(t)] + [Flip(t)] + [LogUpdated(t)] + [Commit(t)]
  }

  lemma RunSteps(s: Sys, t: TxId, op: Op)
    requires op.Correct?
    ensures var a := Next(s, Begin(t, op.id, op.newId, op.at, op.value, op.weight, op.metadata));
      Run(s, Steps(t, op))
      == Next(Next(Next(Next(Next(Next(a, Get(t)), InsertRow(t)), LogCreated(t)), Flip(t)), LogUpdated(t)), Commit(t))
  {
    var ls := [Begin(t, op.id, op.newId, op.at, op.value, op.weight, op.metadata)];
    assert [] + ls == ls;
    RunSnoc(s, [], ls[0]);
    RunSnoc(s, ls, Get(t));
    ls := ls + [Get(t)];
    RunSnoc(s, ls, InsertRow(t));
    ls := ls + [InsertRow(t)];
    RunSnoc(s, ls, LogCreated(t));
    ls := ls + [LogCreated(t)];
    RunSnoc(s, ls, Flip(t));
    ls := ls + [Flip(t)];
    RunSnoc(s, ls, LogUpdated(t));
    ls := ls + [LogUpdated(t)];
    RunSnoc(s, ls, Commit(t));
  }

  /** Only transaction `t`, at `x`, and its lock if it has one. */
  function Solo(rows: Rows, log: seq<ScEvent>, t: TxId, x: Tx, locked: bool): Sys {
    Sys(rows, log, [], if locked then map[x.id := t] else map[], map[t := x], rows.Keys + {x.newId})
  }

  lemma SoloReads(rows: Rows, log: seq<ScEvent>, t: TxId, x: Tx)
    requires x.pc.Begun? && x.seen.None? && x.id in rows && rows[x.id].status == Confirmed
    requires Fits(Some(x.value), x.weight)
    ensures Next(Next(Solo(rows, log, t, x, false), Get(t)), InsertRow(t))
         == Solo(rows, log, t, x.(pc := Inserted, seen := Some(rows[x.id])), false)
  {
    var read := Solo(rows, log, t, x.(pc := Read, seen := Some(rows[x.id])), false);
    assert Next(Solo(rows, log, t, x, false), Get(t)) == read;
  }

  lemma SoloWrites(rows: Rows, log: seq<ScEvent>, t: TxId, x: Tx)
    requires x.pc.Inserted? && x.id in rows && rows[x.id].status == Confirmed
    ensures Next(Next(Next(Solo(rows, log, t, x, false), LogCreated(t)), Flip(t)), LogUpdated(t))
         == Solo(rows, log, t, x.(pc := UpdateLogged), true)
  {
    var logged := Solo(rows, log, t, x.(pc := CreateLogged), false);
    assert Next(Solo(rows, log, t, x, false), LogCreated(t)) == logged;
    var flipped := Solo(rows, log, t, x.(pc := Flipped), true);
    assert Next(logged, Flip(t)) == flipped;
  }

  lemma RefusedStays(s: Sys, t: TxId)
    requires t !in s.txs
    ensures Next(s, Get(t)) == s && Next(s, InsertRow(t)) == s && Next(s, LogCreated(t)) == s
    ensures Next(s, Flip(t)) == s && Next(s, LogUpdated(t)) == s && Next(s, Commit(t)) == s
  {
  }

  /** A correction that runs alone does what SupersedeAndReplaceScore does: when its checks pass it reaches its commit
      and corrects the row, and otherwise it leaves the tables alone. */
  lemma LoneCorrection(rows: Rows, log: seq<ScEvent>, t: TxId, op: Op)
    requires op.Correct? && op.newId !in rows
    ensures
      var n := Run(Start(rows, log), Steps(t, op));
      if MayCorrect(rows, op.id, op.newId, op.value, op.weight) then
        CorrectedScore(Db(rows, log), Db(n.rows, n.log), op.id, op.newId, op.at, op.value, op.weight, op.metadata)
      else n.rows == rows && n.log == log
  {
    RunSteps(Start(rows, log), t, op);
    if op.value.Finite? {
      LoneFinite(rows, log, t, op);
    } else {
      RefusedStays(Start(rows, log), t);
    }
  }

  lemma LoneFinite(rows: Rows, log: seq<ScEvent>, t: TxId, op: Op)
    requires op.Correct? && op.newId !in rows && op.value.Finite?
    ensures
      var n := Run(Start(rows, log), Steps(t, op));
      if MayCorrect(rows, op.id, op.newId, op.value, op.weight) then
        CorrectedScore(Db(rows, log), Db(n.rows, n.log), op.id, op.newId, op.at, op.value, op.weight, op.metadata)
      else n.rows == rows && n.log == log
  {
    RunSteps(Start(rows, log), t, op);
    var x := Tx(op.id, op.newId, op.at, op.value.value, op.weight, op.metadata, Begun, None);
    var begun := Solo(rows, log, t, x, false);
    assert Next(Start(rows, log), Begin(t, op.id, op.newId, op.at, op.value, op.weight, op.metadata)) == begun;
    if MayCorrect(rows, op.id, op.newId, op.value, op.weight) {
      var y := x.(pc := Inserted, seen := Some(rows[x.id]));
      SoloReads(rows, log, t, x);
      SoloWrites(rows, log, t, y);
      CommitInstalls(Solo(rows, log, t, y.(pc := UpdateLogged), true), t);
      InstallIsCorrect(rows, log, y.(pc := UpdateLogged));
      CorrectDoes(Db(rows, log), op);
    } else {
      SoloRefused(rows, log, t, x);
    }
  }

  lemma SoloRefused(rows: Rows, log: seq<ScEvent>, t: TxId, x: Tx)
    requires x.pc.Begun? && x.seen.None?
    requires !(x.id in rows && rows[x.id].status == Confirmed && Fits(Some(x.value), x.weight))
    ensures var n := Next(Next(Solo(rows, log, t, x, false), Get(t)), InsertRow(t));
      var m := Next(Next(Next(Next(n, LogCreated(t)), Flip(t)), LogUpdated(t)), Commit(t));
      m.rows == rows && m.log == log
  {
    var n := Next(Next(Solo(rows, log, t, x, false), Get(t)), InsertRow(t));
    if x.id in rows && rows[x.id].status == Confirmed {
      var read := Solo(rows, log, t, x.(pc := Read, seen := Some(rows[x.id])), false);
      assert Next(Solo(rows, log, t, x, false), Get(t)) == read;
    }
    assert t !in n.txs && n.rows == rows && n.log == log;
    RefusedStays(n, t);
  }
}
