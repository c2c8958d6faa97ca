/**
 The evidence table: versions of the files uploaded for an evaluation item. A re-upload inserts version k+1
 pointing at version k and flips version k from ACTIVE to SUPERSEDED, in one transaction with one audit event.
 Here transactions run one at a time; EvidenceRuns interleaves them.
 */
module Evidences {
  import opened Common
  import opened Audit

  datatype Status = Active | Superseded

  /** `body` holds the body columns by name. */
  datatype Evidence = Evidence(
    item: string, version: nat, prev: Option<Uuid>, status: Status, body: map<string, string>)

  type Rows = map<Uuid, Evidence>

  datatype Action = EvidenceCreated | EvidenceVersioned

  datatype Details = Details(item: string, version: nat, fileHash: string, previous: Option<Uuid>)

  type EvEvent = Event<Action, Details>

  const HASH := "file_hash_sha256"

  const BODY_COLUMNS: set<string> :=
    {"file_name", "file_size_bytes", HASH, "content_type", "storage_location", "file_content", "metadata"}

  function HashOf(body: map<string, string>): string {
    if HASH in body then body[HASH] else ""
  }

  /** The event recorded for a stored version: CREATED for version 1, VERSIONED for the others. */
  function EventFor(at: int, id: Uuid, e: Evidence): EvEvent {
    if e.version == 1 then
      Event(at, EvidenceCreated, id, DEFAULT_USER, Details(e.item, e.version, HashOf(e.body), None))
    else
      Event(at, EvidenceVersioned, id, DEFAULT_USER, Details(e.item, e.version, HashOf(e.body), e.prev))
  }

  /** Place k of the line: version k+1, pointing at the place before; only the last place is ACTIVE. */
  ghost predicate LineAt(rows: Rows, item: string, chain: seq<Uuid>, k: nat)
    requires k < |chain|
  {
    && chain[k] in rows
    && rows[chain[k]].item == item
    && rows[chain[k]].version == k + 1
    && rows[chain[k]].prev == (if k == 0 then None else Some(chain[k - 1]))
    && (rows[chain[k]].status == Active <==> k == |chain| - 1)
  }

  /** `chain` lists all rows of `item`, oldest first: version k+1 points to version k, only the last is ACTIVE. */
  ghost predicate IsLine(rows: Rows, item: string, chain: seq<Uuid>) {
    && (forall k :: 0 <= k < |chain| ==> LineAt(rows, item, chain, k))
    && (forall r :: r in rows && rows[r].item == item ==> r in chain)
  }

  /** Where a row of the item stands in the line. */
  lemma PlaceOf(rows: Rows, item: string, chain: seq<Uuid>, r: Uuid) returns (k: nat)
    requires IsLine(rows, item, chain) && r in rows && rows[r].item == item
    ensures k < |chain| && chain[k] == r && LineAt(rows, item, chain, k)
  {
    k :| k < |chain| && chain[k] == r;
  }

  predicate HasSuccessor(rows: Rows, id: Uuid) {
    exists r :: r in rows && rows[r].prev == Some(id)
  }

  /** ORDER BY version DESC LIMIT 1 over the rows of one item. */
  ghost predicate IsLatest(rows: Rows, item: string, latest: Option<Uuid>) {
    match latest
    case None => forall r :: r in rows ==> rows[r].item != item
    case Some(l) =>
      && l in rows && rows[l].item == item
      && forall r :: r in rows && rows[r].item == item ==> rows[r].version <= rows[l].version
  }

  lemma LatestIsLast(rows: Rows, item: string, chain: seq<Uuid>, latest: Option<Uuid>)
    requires IsLine(rows, item, chain) && IsLatest(rows, item, latest)
    ensures latest == if chain == [] then None else Some(chain[|chain| - 1])
    ensures latest.Some? ==> rows[latest.value].version == |chain|
  {
    if chain != [] {
      assert LineAt(rows, item, chain, |chain| - 1);
      var k := PlaceOf(rows, item, chain, latest.value);
    }
  }

  function FlipLast(rows: Rows, chain: seq<Uuid>): Rows
  {
    if chain == [] || chain[|chain| - 1] !in rows then rows
    else rows[chain[|chain| - 1] := rows[chain[|chain| - 1]].(status := Superseded)]
  }

  lemma LineIsDistinct(rows: Rows, item: string, chain: seq<Uuid>, j: nat, k: nat)
    requires IsLine(rows, item, chain) && j < k < |chain|
    ensures chain[j] != chain[k]
  {
    assert LineAt(rows, item, chain, j) && LineAt(rows, item, chain, k);
  }

  /** Inserting the next version and flipping the last one extends the line. */
  lemma ExtendLine(rows: Rows, item: string, chain: seq<Uuid>, id: Uuid, e: Evidence)
    requires IsLine(rows, item, chain) && id !in rows
    requires e.item == item && e.version == |chain| + 1 && e.status == Active
    requires e.prev == if chain == [] then None else Some(chain[|chain| - 1])
    ensures IsLine(FlipLast(rows, chain)[id := e], item, chain + [id])
  {
    var n := FlipLast(rows, chain)[id := e];
    if chain != [] { assert LineAt(rows, item, chain, |chain| - 1); }
    var line := chain + [id];
    forall k | 0 <= k < |line| ensures LineAt(n, item, line, k) {
      if k < |chain| {
        assert LineAt(rows, item, chain, k);
        if k < |chain| - 1 { LineIsDistinct(rows, item, chain, k, |chain| - 1); }
      }
    }
    forall r | r in n && n[r].item == item ensures r in line {
      if r == id {
        assert line[|chain|] == id;
      } else {
        var k := PlaceOf(rows, item, chain, r);
        assert line[k] == r;
      }
    }
  }

  lemma OtherLineUntouched(rows: Rows, n: Rows, item: string, chain: seq<Uuid>)
    requires IsLine(rows, item, chain)
    requires forall r :: r in rows && rows[r].item == item ==> r in n && n[r] == rows[r]
    requires forall r :: r in n && n[r].item == item ==> r in rows && rows[r].item == item
    ensures IsLine(n, item, chain)
  {
    forall k | 0 <= k < |chain| ensures LineAt(n, item, chain, k) {
      assert LineAt(rows, item, chain, k);
    }
  }

  // ----- what the audit log tells -----

  function ItemEvents(log: seq<EvEvent>, item: string): seq<EvEvent> {
    if log == [] then []
    else
      var init := ItemEvents(log[..|log| - 1], item);
      if log[|log| - 1].details.item == item then init + [log[|log| - 1]] else init
  }

  /** The rows of `item` form one line, and the events about it tell it: one CREATED for version 1, then one VERSIONED
      for each later version, in order, naming the version and its predecessor. */
  ghost predicate IsStory(rows: Rows, log: seq<EvEvent>, item: string, chain: seq<Uuid>) {
    var evs := ItemEvents(log, item);
    && IsLine(rows, item, chain)
    && |evs| == |chain|
    && (forall k :: 0 <= k < |chain| ==> ToldAt(evs[k], chain, k))
  }

  predicate ToldAt(ev: EvEvent, chain: seq<Uuid>, k: nat)
    requires k < |chain|
  {
    && ev.resourceId == chain[k] && ev.details.version == k + 1
    && ev.action == (if k == 0 then EvidenceCreated else EvidenceVersioned)
    && ev.details.previous == (if k == 0 then None else Some(chain[k - 1]))
  }

  lemma ItemEventsSnoc(log: seq<EvEvent>, e: EvEvent, item: string)
    ensures ItemEvents(log + [e], item)
         == if e.details.item == item then ItemEvents(log, item) + [e] else ItemEvents(log, item)
  {
  }

  /** The version an upload stores on top of the line `chain`. */
  function NextVersion(item: string, chain: seq<Uuid>, body: map<string, string>): Evidence {
    Evidence(item, |chain| + 1, if chain == [] then None else Some(chain[|chain| - 1]), Active, body)
  }

  // ----- what an upload does, column by column -----

  /** One ACTIVE version of `item` with this body was added on top of `latest`, which is SUPERSEDED now; no other row
      changed. */
  ghost predicate StoredOnTop(rows: Rows, n: Rows, latest: Option<Uuid>, id: Uuid, item: string,
      body: map<string, string>)
  {
    && id !in rows && n.Keys == rows.Keys + {id}
    && n[id].item == item && n[id].body == body && n[id].prev == latest && n[id].status == Active
    && (latest.None? ==> n[id].version == 1)
    && (latest.Some? ==>
      && latest.value in rows && rows[latest.value].item == item && rows[latest.value].status == Active
      && n[id].version == rows[latest.value].version + 1
      && n[latest.value].status == Superseded && n[latest.value].version == rows[latest.value].version
      && n[latest.value].item == item && n[latest.value].prev == rows[latest.value].prev
      && n[latest.value].body == rows[latest.value].body)
    && (forall r :: r in rows && latest != Some(r) ==> n[r] == rows[r])
  }

  /** The one event of an upload. */
  ghost predicate RecordedOnce(log: seq<EvEvent>, n: seq<EvEvent>, at: int, id: Uuid, e: Evidence) {
    && |n| == |log| + 1 && n[..|log|] == log
    && var ev := n[|log|];
      && ev.at == at && ev.resourceId == id && ev.userId == "cli-anonymous"
      && ev.action == (if e.prev.None? then EvidenceCreated else EvidenceVersioned)
      && ev.details.item == e.item && ev.details.version == e.version && ev.details.previous == e.prev
      && ev.details.fileHash == (if "file_hash_sha256" in e.body then e.body["file_hash_sha256"] else "")
  }

  datatype Error = NotFound | Immutable | BadColumn

  datatype Resolution = Resolution(prev: Option<Uuid>, version: nat, dupOf: Option<Uuid>)

  class EvidenceTable {
    var rows: Rows
    var log: seq<EvEvent>
    const dupSignal: bool

    constructor (dupSignal: bool)
      ensures rows == map[] && log == [] && this.dupSignal == dupSignal
    {
      this.dupSignal := dupSignal;
      rows, log := map[], [];
    }

    /** GetLatestVersionByEvalItem */
    method Latest(item: string) returns (latest: Option<Uuid>)
      ensures IsLatest(rows, item, latest)
    {
      latest := None;
      var todo := rows.Keys;
      while todo != {}
        invariant todo <= rows.Keys
        invariant latest.Some? ==> latest.value in rows && rows[latest.value].item == item
        invariant forall r :: r in rows && r !in todo && rows[r].item == item ==>
          latest.Some? && rows[r].version <= rows[latest.value].version
      {
        var r :| r in todo;
        if rows[r].item == item && (latest.None? || rows[latest.value].version < rows[r].version) {
          latest := Some(r);
        }
        todo := todo - {r};
      }
    }

    /** resolveVersion: version 1 for a new item, else the latest version plus one; a repeated hash is only
        signalled. */
    method ResolveVersion(item: string, fileHash: string) returns (vr: Resolution)
      ensures IsLatest(rows, item, vr.prev)
      ensures vr.version == if vr.prev.Some? then rows[vr.prev.value].version + 1 else 1
      ensures vr.dupOf ==
        if dupSignal && vr.prev.Some? && HashOf(rows[vr.prev.value].body) == fileHash then vr.prev else None
    {
      var latest := Latest(item);
      vr := Resolution(None, 1, None);
      if latest.Some? {
        var dup := dupSignal && HashOf(rows[latest.value].body) == fileHash;
        vr := Resolution(latest, rows[latest.value].version + 1, if dup then latest else None);
      }
    }

    /** InsertEvidence: the stored version is computed again, from the row `prev` points at. */
    method InsertEvidence(id: Uuid, item: string, body: map<string, string>, prev: Option<Uuid>) returns (ok: bool)
      requires id !in rows
      modifies this`rows
      ensures ok <==> (prev.Some? ==> prev.value in old(rows))
      ensures rows == if ok
                      then
                        var version := if prev.Some? then old(rows)[prev.value].version + 1 else 1;
                        old(rows)[id := Evidence(item, version, prev, Active, body)]
                      else old(rows)
    {
      var version := 1;
      if prev.Some? {
        if prev.value !in rows { return false; }
        version := rows[prev.value].version + 1;
      }
      rows := rows[id := Evidence(item, version, prev, Active, body)];
      return true;
    }

    /** MarkSuperseded: only an ACTIVE row is flipped; false when no row was affected. */
    method MarkSuperseded(id: Uuid) returns (ok: bool)
      modifies this`rows
      ensures ok <==> id in old(rows) && old(rows)[id].status == Active
      ensures rows == if ok then old(rows)[id := old(rows)[id].(status := Superseded)] else old(rows)
    {
      if id !in rows || rows[id].status != Active { return false; }
      rows := rows[id := rows[id].(status := Superseded)];
      return true;
    }

    /** An upload with no other transaction around. On an item whose rows form a line it extends the line,
        answers the version it stored, appends one event naming that version, and touches no other item. */
    method Upload(id: Uuid, item: string, body: map<string, string>, at: int, ghost chain: seq<Uuid>)
      returns (ok: bool, vr: Resolution)
      requires id !in rows
      requires IsLine(rows, item, chain)
      modifies this`rows, this`log
      ensures ok
      ensures rows == FlipLast(old(rows), chain)[id := NextVersion(item, chain, body)]
      ensures IsLine(rows, item, chain + [id])
      ensures rows.Keys == old(rows).Keys + {id}
      ensures rows[id].body == body && vr.version == rows[id].version == |chain| + 1
      ensures log == old(log) + [EventFor(at, id, rows[id])]
      ensures StoredOnTop(old(rows), rows, vr.prev, id, item, body)
      ensures RecordedOnce(old(log), log, at, id, rows[id])
      ensures forall r :: r in old(rows) ==>
        && r in rows && rows[r] == old(rows)[r].(status := rows[r].status)
        && (old(rows)[r].item != item ==> rows[r] == old(rows)[r])
      ensures vr.prev == if chain == [] then None else Some(chain[|chain| - 1])
      ensures vr.dupOf.Some? <==>
        && dupSignal && vr.prev.Some? && vr.prev.value in old(rows)
        && HashOf(old(rows)[vr.prev.value].body) == HashOf(body)
    {
      vr := ResolveVersion(item, HashOf(body));
      LatestIsLast(rows, item, chain, vr.prev);
      if vr.prev.Some? { assert LineAt(rows, item, chain, |chain| - 1); }
      ghost var before := rows;
      ok := InsertEvidence(id, item, body, vr.prev);
      assert ok;
      ghost var inserted := rows[id];
      if vr.prev.Some? {
        ok := MarkSuperseded(vr.prev.value);
      }
      ExtendLine(before, item, chain, id, inserted);
      assert rows == FlipLast(before, chain)[id := inserted];
      assert (chain + [id])[|chain|] == id;
      var event := if vr.version == 1
        then Event(at, EvidenceCreated, id, DEFAULT_USER, Details(item, vr.version, HashOf(body), None))
        else Event(at, EvidenceVersioned, id, DEFAULT_USER, Details(item, vr.version, HashOf(body), vr.prev));
      log := log + [event];
    }

    /** UpdateEvidenceBodyColumn: refused once a successor exists; otherwise that column alone changes. */
    method UpdateBodyColumn(id: Uuid, column: string, value: string) returns (error: Option<Error>)
      modifies this`rows
      ensures error.Some? ==> rows == old(rows)
      ensures error.None? <==> column in BODY_COLUMNS && id in old(rows) && !HasSuccessor(old(rows), id)
      ensures error == Some(BadColumn) <==> column !in BODY_COLUMNS
      ensures error == Some(Immutable) <==> column in BODY_COLUMNS && HasSuccessor(old(rows), id)
      ensures error.None? ==> rows == old(rows)[id := old(rows)[id].(body := old(rows)[id].body[column := value])]
    {
      if column !in BODY_COLUMNS { return Some(BadColumn); }
      var successors := 0;
      var todo := rows.Keys;
      while todo != {}
        invariant todo <= rows.Keys
        invariant successors > 0 <==> exists r :: r in rows && r !in todo && rows[r].prev == Some(id)
      {
        var r :| r in todo;
        if rows[r].prev == Some(id) { successors := successors + 1; }
        todo := todo - {r};
      }
      if successors > 0 { return Some(Immutable); }
      if id !in rows { return Some(NotFound); }
      rows := rows[id := rows[id].(body := rows[id].body[column := value])];
      return None;
    }
  }

  // ----- serial runs -----

  datatype Step =
    | Add(id: Uuid, item: string, body: map<string, string>, at: int)
    | SetColumn(id: Uuid, column: string, value: string)

  datatype Table = Table(rows: Rows, log: seq<EvEvent>)

  lemma {:induction false} LatestExists(rows: Rows, item: string, among: set<Uuid>) returns (latest: Option<Uuid>)
    requires among <= rows.Keys
    ensures if latest.None? then forall r :: r in among ==> rows[r].item != item
            else
              && latest.value in among && rows[latest.value].item == item
              && forall r :: r in among && rows[r].item == item ==> rows[r].version <= rows[latest.value].version
  {
    latest := None;
    if among != {} {
      var r :| r in among;
      latest := LatestExists(rows, item, among - {r});
      if rows[r].item == item && (latest.None? || rows[latest.value].version < rows[r].version) { latest := Some(r); }
    }
  }

  ghost predicate SomeLatest(rows: Rows, item: string) {
    exists latest :: IsLatest(rows, item, latest)
  }

  lemma LatestIsThere(rows: Rows, item: string)
    ensures SomeLatest(rows, item)
  {
    var latest := LatestExists(rows, item, rows.Keys);
    assert IsLatest(rows, item, latest);
  }

  /** A row of highest version, as the query picks it from the table. */
  ghost function LatestOf(rows: Rows, item: string): (latest: Option<Uuid>)
    ensures IsLatest(rows, item, latest)
  {
    LatestIsThere(rows, item);
    var latest :| IsLatest(rows, item, latest);
    latest
  }

  /** The table after an upload on top of `latest`. */
  function AddedOn(rows: Rows, latest: Option<Uuid>, id: Uuid, item: string, body: map<string, string>): Rows
    requires latest.Some? ==> latest.value in rows
  {
    match latest
    case None => rows[id := Evidence(item, 1, None, Active, body)]
    case Some(p) =>
      rows[p := rows[p].(status := Superseded)][id := Evidence(item, rows[p].version + 1, latest, Active, body)]
  }

  /** One request on the table as it is; a repeated id and a refused column update change nothing. */
  ghost function ApplyStep(t: Table, step: Step): Table {
    match step
    case Add(id, item, body, at) =>
      if id in t.rows then t
      else
        var rows := AddedOn(t.rows, LatestOf(t.rows, item), id, item, body);
        Table(rows, t.log + [EventFor(at, id, rows[id])])
    case SetColumn(id, column, value) =>
      if column !in BODY_COLUMNS || id !in t.rows || HasSuccessor(t.rows, id) then t
      else t.(rows := t.rows[id := t.rows[id].(body := t.rows[id].body[column := value])])
  }

  ghost function RunSteps(steps: seq<Step>): Table {
    if steps == [] then Table(map[], []) else ApplyStep(RunSteps(steps[..|steps| - 1]), steps[|steps| - 1])
  }

  /** The uploads of one item that went through, oldest first. */
  ghost function LineOf(steps: seq<Step>, item: string): seq<Uuid> {
    if steps == [] then []
    else
      var init, last := steps[..|steps| - 1], steps[|steps| - 1];
      LineOf(init, item) + if last.Add? && last.item == item && last.id !in RunSteps(init).rows then [last.id] else []
  }

  lemma AddOnLine(rows: Rows, item: string, chain: seq<Uuid>, id: Uuid, body: map<string, string>)
    requires IsLine(rows, item, chain) && id !in rows
    ensures AddedOn(rows, LatestOf(rows, item), id, item, body)
         == FlipLast(rows, chain)[id := NextVersion(item, chain, body)]
  {
    LatestIsLast(rows, item, chain, LatestOf(rows, item));
    if chain != [] { assert LineAt(rows, item, chain, |chain| - 1); }
  }

  lemma ExtendStory(rows: Rows, log: seq<EvEvent>, item: string, chain: seq<Uuid>, id: Uuid, body: map<string, string>,
      at: int)
    requires IsStory(rows, log, item, chain) && id !in rows
    ensures var e := NextVersion(item, chain, body);
      IsStory(FlipLast(rows, chain)[id := e], log + [EventFor(at, id, e)], item, chain + [id])
  {
    var e := NextVersion(item, chain, body);
    var ev, evs := EventFor(at, id, e), ItemEvents(log, item);
    ExtendLine(rows, item, chain, id, e);
    ItemEventsSnoc(log, ev, item);
    forall k | 0 <= k < |chain + [id]| ensures ToldAt((evs + [ev])[k], chain + [id], k) {
      if k < |chain| { assert ToldAt(evs[k], chain, k); }
    }
  }

  lemma OtherStoryKept(rows: Rows, log: seq<EvEvent>, item: string, chain: seq<Uuid>, id: Uuid, e: Evidence,
      other: seq<Uuid>, at: int)
    requires IsStory(rows, log, item, chain) && IsLine(rows, e.item, other) && e.item != item && id !in rows
    ensures IsStory(FlipLast(rows, other)[id := e], log + [EventFor(at, id, e)], item, chain)
  {
    if other != [] { assert LineAt(rows, e.item, other, |other| - 1); }
    ItemEventsSnoc(log, EventFor(at, id, e), item);
    OtherLineUntouched(rows, FlipLast(rows, other)[id := e], item, chain);
  }

  lemma BodyDoesNotMatter(rows: Rows, n: Rows, item: string, chain: seq<Uuid>)
    requires IsLine(rows, item, chain) && n.Keys == rows.Keys
    requires forall r :: r in rows ==> n[r] == rows[r].(body := n[r].body)
    ensures IsLine(n, item, chain)
  {
    forall k | 0 <= k < |chain| ensures LineAt(n, item, chain, k) {
      assert LineAt(rows, item, chain, k);
    }
    forall r | r in n && n[r].item == item ensures r in chain {
      assert r in rows;
    }
  }

  lemma AddKeepsStory(t: Table, item: string, chain: seq<Uuid>, other: seq<Uuid>, step: Step)
    requires step.Add? && step.id !in t.rows
    requires IsStory(t.rows, t.log, item, chain) && IsLine(t.rows, step.item, other)
    requires step.item == item ==> other == chain
    ensures var n := ApplyStep(t, step);
      IsStory(n.rows, n.log, item, if step.item == item then chain + [step.id] else chain)
  {
    AddOnLine(t.rows, step.item, other, step.id, step.body);
    if step.item == item {
      ExtendStory(t.rows, t.log, item, chain, step.id, step.body, step.at);
    } else {
      OtherStoryKept(t.rows, t.log, item, chain, step.id, NextVersion(step.item, other, step.body), other, step.at);
    }
  }

  lemma SetColumnKeepsStory(t: Table, item: string, chain: seq<Uuid>, step: Step)
    requires step.SetColumn? && IsStory(t.rows, t.log, item, chain)
    ensures IsStory(ApplyStep(t, step).rows, ApplyStep(t, step).log, item, chain)
  {
    var n := ApplyStep(t, step).rows;
    assert n.Keys == t.rows.Keys && forall r :: r in t.rows ==> n[r] == t.rows[r].(body := n[r].body);
    BodyDoesNotMatter(t.rows, n, item, chain);
  }

  /** After any serial run of uploads and column updates from the empty table the versions of every item are exactly
      1..n in upload order, only the last one ACTIVE, told by one CREATED event and then n-1 VERSIONED events. */
  lemma {:induction false} SerialRunsFormLines(steps: seq<Step>, item: string)
    ensures IsStory(RunSteps(steps).rows, RunSteps(steps).log, item, LineOf(steps, item))
  {
    if steps != [] {
      var init, last := steps[..|steps| - 1], steps[|steps| - 1];
      var t := RunSteps(init);
      SerialRunsFormLines(init, item);
      assert LineOf(init, item) + [] == LineOf(init, item);
      if last.SetColumn? {
        SetColumnKeepsStory(t, item, LineOf(init, item), last);
      } else if last.id !in t.rows {
        SerialRunsFormLines(init, last.item);
        AddKeepsStory(t, item, LineOf(init, item), LineOf(init, last.item), last);
      }
    }
  }

  /** In a serial run a version with a successor is SUPERSEDED. */
  lemma SuccessorMeansSuperseded(steps: seq<Step>, r: Uuid)
    requires r in RunSteps(steps).rows && HasSuccessor(RunSteps(steps).rows, r)
    ensures RunSteps(steps).rows[r].status == Superseded
  {
    var rows := RunSteps(steps).rows;
    var q :| q in rows && rows[q].prev == Some(r);
    var item := rows[q].item;
    SerialRunsFormLines(steps, item);
    var k := PlaceOf(rows, item, LineOf(steps, item), q);
    assert LineAt(rows, item, LineOf(steps, item), k - 1);
  }

  lemma SerialStepFreezes(steps: seq<Step>, step: Step, r: Uuid)
    requires r in RunSteps(steps).rows && HasSuccessor(RunSteps(steps).rows, r)
    ensures var n := ApplyStep(RunSteps(steps), step).rows;
      r in n && n[r] == RunSteps(steps).rows[r] && HasSuccessor(n, r)
  {
    var t := RunSteps(steps);
    var q :| q in t.rows && t.rows[q].prev == Some(r);
    SuccessorMeansSuperseded(steps, r);
    if step.Add? && step.id !in t.rows {
      var chain := LineOf(steps, step.item);
      SerialRunsFormLines(steps, step.item);
      AddOnLine(t.rows, step.item, chain, step.id, step.body);
      if chain != [] { assert LineAt(t.rows, step.item, chain, |chain| - 1); }
    }
    assert ApplyStep(t, step).rows[q].prev == Some(r);
  }

  /** In serial runs a version with a successor keeps its row for good, body columns included. */
  lemma {:induction false} SerialSupersededIsFrozen(steps: seq<Step>, more: seq<Step>, r: Uuid)
    requires r in RunSteps(steps).rows && HasSuccessor(RunSteps(steps).rows, r)
    ensures var n := RunSteps(steps + more).rows;
      r in n && n[r] == RunSteps(steps).rows[r] && HasSuccessor(n, r)
  {
    if more == [] {
      assert steps + more == steps;
    } else {
      var init, last := more[..|more| - 1], more[|more| - 1];
      SerialSupersededIsFrozen(steps, init, r);
      assert (steps + more)[..|steps + more| - 1] == steps + init;
      SerialStepFreezes(steps + init, last, r);
    }
  }

  /** The requests served one after the other by the table object. */
  method Serve(steps: seq<Step>, dupSignal: bool) returns (table: EvidenceTable)
    ensures fresh(table) && Table(table.rows, table.log) == RunSteps(steps)
  {
    table := new EvidenceTable(dupSignal);
    for i := 0 to |steps|
      invariant fresh(table) && Table(table.rows, table.log) == RunSteps(steps[..i])
    {
      assert steps[..i + 1][..i] == steps[..i];
      ghost var rows, log := table.rows, table.log;
      match steps[i]
      case Add(id, item, body, at) =>
        if id !in table.rows {
          ghost var chain := LineOf(steps[..i], item);
          SerialRunsFormLines(steps[..i], item);
          AddOnLine(rows, item, chain, id, body);
          var ok, vr := table.Upload(id, item, body, at, chain);
        }
      case SetColumn(id, column, value) =>
        var error := table.UpdateBodyColumn(id, column, value);
    }
    assert steps[..|steps|] == steps;
  }
}
