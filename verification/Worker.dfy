/**
 The ingestion worker: OCR, chunk, embed, store with retries, trigger scoring, call back. What the services answer is
 given as `Services`; the vector store is an object whose rows the worker adds to.
 */
module Worker {
  import opened Common
  import Chunker

  const DIMENSION := 768
  const MAX_RETRIES := 3

  datatype Exception =
    | EmptyOcr
    | Timeout
    | UpsertFailed(attempt: nat)  // the RuntimeError after the last retry
    | NoConnection                // the AttributeError of executing a statement on a missing connection
    | Other(detail: string)

  datatype Encoded = Raised | Vector(values: seq<real>)

  /** How one upsert attempt ends: all rows written, or an error once `written` rows have been. VectorStore.upsert with
      a working connection answers Stored or Failed; Rebuilding is an answer of other stores behind the same
      interface. The worker builds its own store without a connection, whose every attempt is
      Failed(0, NoConnection). */
  datatype Upsert = Stored | Rebuilding(written: nat) | Failed(written: nat, e: Exception)

  /** What OCR returns: text, backend, pages. */
  datatype Ocr = OcrRaised(e: Exception) | OcrText(text: string, backend: string, pages: int)

  /** `encode` answers per chunk index, `ids` are the fresh UUIDs, `trigger` is ScoreTrigger.fire. */
  datatype Services = Services(ocr: Ocr, encode: nat -> Encoded, ids: nat -> string, trigger: bool)

  datatype Criterion = Criterion(id: string, name: nat, detail: string, parent: string, embedding: seq<real>)

  type Table = map<string, Criterion>

  /** INSERT ... ON CONFLICT (id) DO UPDATE: a row that exists only gets the new name and embedding. */
  function Merged(rows: Table, c: Criterion): Criterion {
    if c.id in rows then rows[c.id].(name := c.name, embedding := c.embedding) else c
  }

  /** The table after the statements for `criteria`, one row after the other. */
  function Upserted(rows: Table, criteria: seq<Criterion>): Table {
    if criteria == [] then rows
    else
      var before, c := Upserted(rows, criteria[..|criteria| - 1]), criteria[|criteria| - 1];
      before[c.id := Merged(before, c)]
  }

  /** One statement, on the columns: a new row is stored whole; a row whose id is taken gets the new name and embedding
      and keeps its detail and parent; no other row changes. */
  lemma UpsertedOne(rows: Table, c: Criterion)
    ensures var n := Upserted(rows, [c]);
      && n.Keys == rows.Keys + {c.id}
      && (forall id :: id in rows && id != c.id ==> n[id] == rows[id])
      && n[c.id].name == c.name && n[c.id].embedding == c.embedding
      && n[c.id].detail == (if c.id in rows then rows[c.id].detail else c.detail)
      && n[c.id].parent == (if c.id in rows then rows[c.id].parent else c.parent)
  {
    assert Upserted(rows, [c][..0]) == rows;
  }

  /** How many of `n` rows an attempt writes. */
  function Written(u: Upsert, n: nat): (k: nat)
    ensures k <= n && (u.Stored? ==> k == n)
  {
    match u
    case Stored => n
    case Rebuilding(k) => if k < n then k else n
    case Failed(k, _) => if k < n then k else n
  }

  /** The table after attempts 1..k. */
  function AfterAttempts(rows: Table, criteria: seq<Criterion>, answers: nat -> Upsert, k: nat): Table {
    if k == 0 then rows
    else Upserted(AfterAttempts(rows, criteria, answers, k - 1), criteria[..Written(answers(k), |criteria|)])
  }

  /** VectorStore: `answers` says how each attempt, counted from 1, will end. */
  class VectorStore {
    const answers: nat -> Upsert
    var rows: Table
    var attempts: nat
    var successes: nat

    constructor (answers: nat -> Upsert)
      ensures this.answers == answers && rows == map[] && attempts == 0 && successes == 0
    {
      this.answers := answers;
      rows, attempts, successes := map[], 0, 0;
    }

    /** The loop over the rows; an error leaves the rows already written behind. */
    method Upsert(criteria: seq<Criterion>) returns (r: Upsert)
      modifies this
      ensures attempts == old(attempts) + 1 && r == answers(attempts)
      ensures rows == Upserted(old(rows), criteria[..Written(r, |criteria|)])
      ensures successes == old(successes) + if r.Stored? then 1 else 0
    {
      attempts := attempts + 1;
      r := answers(attempts);
      ghost var before := rows;
      var n := Written(r, |criteria|);
      for i := 0 to n
        invariant rows == Upserted(before, criteria[..i])
        invariant attempts == old(attempts) + 1 && successes == old(successes)
      {
        assert criteria[..i + 1][..i] == criteria[..i];
        rows := rows[criteria[i].id := Merged(rows, criteria[i])];
      }
      if r.Stored? { successes := successes + 1; }
    }
  }

  predicate Embeds(s: Services, idx: nat) {
    s.encode(idx).Vector? && |s.encode(idx).values| == DIMENSION
  }

  /** The chunks whose embedding came back with the right dimension, in order, as rows; `name` is the chunk index. */
  function Survivors(s: Services, document: string, chunks: seq<string>): (r: seq<Criterion>)
    ensures |r| <= |chunks|
  {
    if chunks == [] then []
    else
      var n := |chunks| - 1;
      var init := Survivors(s, document, chunks[..n]);
      if Embeds(s, n) then init + [Criterion(s.ids(n), n, chunks[n], document, s.encode(n).values)] else init
  }

  lemma SurvivorsSnoc(s: Services, document: string, chunks: seq<string>, idx: nat)
    requires idx < |chunks|
    ensures Survivors(s, document, chunks[..idx + 1]) == Survivors(s, document, chunks[..idx])
      + if Embeds(s, idx) then [Criterion(s.ids(idx), idx, chunks[idx], document, s.encode(idx).values)] else []
  {
    assert chunks[..idx + 1][..idx] == chunks[..idx];
  }

  /** The outcome of the retry loop from attempt `k` on, and the last attempt made. */
  function Retry(answers: nat -> Upsert, k: nat): (r: (nat, Option<Exception>))
    requires 1 <= k <= MAX_RETRIES
    ensures k <= r.0 <= MAX_RETRIES
    decreases MAX_RETRIES - k
  {
    match answers(k)
    case Stored => (k, None)
    case Failed(_, e) => (k, Some(e))
    case Rebuilding(_) => if k >= MAX_RETRIES then (k, Some(UpsertFailed(k))) else Retry(answers, k + 1)
  }

  /** (indexed, failed), or the exception that leaves _embed_and_upsert_chunks. */
  type Counts = Result<(nat, nat), Exception>

  const SETTINGS: Chunker.Settings := (1536, 128)

  /** _embed_and_upsert_chunks on a given store. Its stored branch needs one with a connection. */
  method EmbedAndUpsertChunks(s: Services, store: VectorStore, document: string, text: string) returns (r: Counts)
    requires store.attempts == 0 && store.successes == 0
    modifies store
    ensures var chunks := Chunker.Chunks(text, SETTINGS);
      var survivors := Survivors(s, document, chunks);
      var retried := Retry(store.answers, 1);
      if survivors == [] then
        r == Ok((0, |chunks|)) && store.rows == old(store.rows) && store.attempts == 0 && store.successes == 0
      else
        && store.attempts == retried.0
        && store.rows == AfterAttempts(old(store.rows), survivors, store.answers, retried.0)
        && (match retried.1
            case None => r == Ok((|survivors|, |chunks| - |survivors|)) && store.successes == 1
            case Some(e) => r == Err(e) && store.successes == 0)
  {
    var chunks := Chunker.Chunk(text, SETTINGS);
    if |chunks| == 0 { return Ok((0, 0)); }
    var criteria, failed := EmbedAll(s, document, chunks);
    if |criteria| == 0 { return Ok((0, failed)); }
    var e := UpsertWithRetries(store, criteria);
    if e.Some? { return Err(e.value); }
    return Ok((|criteria|, failed));
  }

  /** The loop over the chunks: a raised or wrongly sized embedding is counted and skipped. */
  method EmbedAll(s: Services, document: string, chunks: seq<string>) returns (criteria: seq<Criterion>, failed: nat)
    ensures criteria == Survivors(s, document, chunks) && |criteria| + failed == |chunks|
  {
    criteria := [];
    failed := 0;
    for idx := 0 to |chunks|
      invariant criteria == Survivors(s, document, chunks[..idx])
      invariant failed + |criteria| == idx
    {
      SurvivorsSnoc(s, document, chunks, idx);
      match s.encode(idx)
      case Raised => failed := failed + 1;
      case Vector(values) =>
        if |values| != DIMENSION {
          failed := failed + 1;
        } else {
          criteria := criteria + [Criterion(s.ids(idx), idx, chunks[idx], document, values)];
        }
    }
    assert chunks[..|chunks|] == chunks;
  }

  method UpsertWithRetries(store: VectorStore, criteria: seq<Criterion>) returns (e: Option<Exception>)
    requires store.attempts == 0 && store.successes == 0
    modifies store
    ensures (store.attempts, e) == Retry(store.answers, 1)
    ensures store.rows == AfterAttempts(old(store.rows), criteria, store.answers, store.attempts)
    ensures store.successes == if e.None? then 1 else 0
  {
    var attempt := 1;
    while attempt <= MAX_RETRIES
      invariant 1 <= attempt <= MAX_RETRIES
      invariant store.attempts == attempt - 1 && store.successes == 0
      invariant store.rows == AfterAttempts(old(store.rows), criteria, store.answers, attempt - 1)
      invariant Retry(store.answers, 1) == Retry(store.answers, attempt)
      decreases MAX_RETRIES - attempt
    {
      var r := store.Upsert(criteria);
      match r
      case Stored => return None;
      case Failed(_, f) => return Some(f);
      case Rebuilding(_) =>
        if attempt >= MAX_RETRIES { return Some(UpsertFailed(attempt)); }
        attempt := attempt + 1;
    }
  }

  // ----- main results about the chunks -----

  /** The surviving rows are exactly the chunks that embedded, each once, carrying its own text and vector. */
  lemma {:induction false} SurvivorsAreEmbedded(s: Services, document: string, chunks: seq<string>, idx: nat)
    requires idx < |chunks|
    ensures Embeds(s, idx) <==> exists c :: c in Survivors(s, document, chunks) && c.name == idx
    ensures forall c :: c in Survivors(s, document, chunks) && c.name == idx ==>
      c == Criterion(s.ids(idx), idx, chunks[idx], document, s.encode(idx).values)
  {
    var n := |chunks| - 1;
    NamesBelow(s, document, chunks[..n]);
    if idx < n {
      SurvivorsAreEmbedded(s, document, chunks[..n], idx);
    } else if Embeds(s, n) {
      var last := Criterion(s.ids(n), n, chunks[n], document, s.encode(n).values);
      assert Survivors(s, document, chunks)[|Survivors(s, document, chunks)| - 1] == last;
    }
  }

  lemma {:induction false} NamesBelow(s: Services, document: string, chunks: seq<string>)
    ensures forall c :: c in Survivors(s, document, chunks) ==> c.name < |chunks|
  {
    if chunks != [] { NamesBelow(s, document, chunks[..|chunks| - 1]); }
  }

  /** The retry loop ends with its first attempt that does not find the table rebuilding, and as that one ended; after
      three rebuilds it gives up. */
  lemma RetryOutcome(answers: nat -> Upsert)
    ensures var (last, e) := Retry(answers, 1);
      && 1 <= last <= 3 && (forall j :: 1 <= j < last ==> answers(j).Rebuilding?)
      && (answers(last).Stored? ==> e == None)
      && (answers(last).Failed? ==> e == Some(answers(last).e))
      && (answers(last).Rebuilding? ==> last == 3 && e == Some(UpsertFailed(3)))
  {
    assert Retry(answers, 3) == Retry(answers, 3);
    if answers(1).Rebuilding? && answers(2).Rebuilding? {
      assert Retry(answers, 1) == Retry(answers, 2) == Retry(answers, 3);
    }
  }

  // ----- what is in the table afterwards -----

  predicate DistinctIds(criteria: seq<Criterion>) {
    forall i, j :: 0 <= i < j < |criteria| ==> criteria[i].id != criteria[j].id
  }

  predicate NewTo(rows: Table, criteria: seq<Criterion>) {
    forall i :: 0 <= i < |criteria| ==> criteria[i].id !in rows
  }

  /** The table holds the old rows and the first `k` of `criteria`, each under its own id, and nothing else. */
  ghost predicate Holds(n: Table, rows: Table, criteria: seq<Criterion>, k: nat)
    requires k <= |criteria|
  {
    && (forall id :: id in n ==> id in rows || exists i :: 0 <= i < k && criteria[i].id == id)
    && (forall id :: id in rows ==> id in n && n[id] == rows[id])
    && (forall i :: 0 <= i < k ==> criteria[i].id in n && n[criteria[i].id] == criteria[i])
  }

  ghost predicate HoldsPrefix(n: Table, rows: Table, criteria: seq<Criterion>) {
    exists k :: 0 <= k <= |criteria| && Holds(n, rows, criteria, k)
  }

  /** Writing a prefix again, shorter or longer, leaves the longer of the two. */
  lemma {:induction false} UpsertExtends(n: Table, rows: Table, criteria: seq<Criterion>, k: nat, w: nat)
    requires k <= |criteria| && w <= |criteria|
    requires DistinctIds(criteria) && NewTo(rows, criteria) && Holds(n, rows, criteria, k)
    ensures Holds(Upserted(n, criteria[..w]), rows, criteria, if w < k then k else w)
  {
    if w > 0 {
      UpsertExtends(n, rows, criteria, k, w - 1);
      UpsertedNext(n, criteria, w - 1);
      OneMore(Upserted(n, criteria[..w - 1]), rows, criteria, if w - 1 < k then k else w - 1, w - 1);
    } else {
      assert Upserted(n, criteria[..0]) == n;
    }
  }

  lemma UpsertedNext(n: Table, criteria: seq<Criterion>, i: nat)
    requires i < |criteria|
    ensures var m := Upserted(n, criteria[..i]);
      Upserted(n, criteria[..i + 1]) == m[criteria[i].id := Merged(m, criteria[i])]
  {
    assert criteria[..i + 1][..i] == criteria[..i];
  }

  lemma OneMore(n: Table, rows: Table, criteria: seq<Criterion>, k: nat, i: nat)
    requires i <= k <= |criteria| && i < |criteria|
    requires DistinctIds(criteria) && NewTo(rows, criteria) && Holds(n, rows, criteria, k)
    ensures Holds(n[criteria[i].id := Merged(n, criteria[i])], rows, criteria, if i < k then k else k + 1)
  {
    assert forall j :: 0 <= j < k && j != i ==> criteria[j].id != criteria[i].id;
  }

  /** The most rows any of the attempts 1..k has written. */
  function Reach(answers: nat -> Upsert, n: nat, k: nat): (r: nat)
    ensures r <= n
    ensures (exists j :: 1 <= j <= k && answers(j).Stored?) ==> r == n
  {
    if k == 0 then 0
    else
      var before, now := Reach(answers, n, k - 1), Written(answers(k), n);
      if now < before then before else now
  }

  /** Whatever the attempts answered, with new ids the table gains a prefix of the survivors, each row once and whole;
      after a stored attempt it has gained exactly the survivors. */
  lemma {:induction false} AttemptsLeavePrefix(rows: Table, criteria: seq<Criterion>, answers: nat -> Upsert, k: nat)
    requires DistinctIds(criteria) && NewTo(rows, criteria)
    ensures Holds(AfterAttempts(rows, criteria, answers, k), rows, criteria, Reach(answers, |criteria|, k))
    ensures (exists j :: 1 <= j <= k && answers(j).Stored?) ==>
      Holds(AfterAttempts(rows, criteria, answers, k), rows, criteria, |criteria|)
  {
    if k > 0 {
      AttemptsLeavePrefix(rows, criteria, answers, k - 1);
      UpsertExtends(AfterAttempts(rows, criteria, answers, k - 1), rows, criteria,
                    Reach(answers, |criteria|, k - 1), Written(answers(k), |criteria|));
    }
  }

  /** None of the attempts 1..k writes a row. */
  ghost predicate NothingWritten(answers: nat -> Upsert, n: nat, k: nat) {
    forall j :: 1 <= j <= k ==> Written(answers(j), n) == 0
  }

  lemma {:induction false} ReachesNothingIff(answers: nat -> Upsert, n: nat, k: nat)
    ensures Reach(answers, n, k) == 0 <==> NothingWritten(answers, n, k)
  {
    if k > 0 { ReachesNothingIff(answers, n, k - 1); }
  }

  /** The attempts leave the table as it was exactly when each of them failed before its first row. */
  lemma {:induction false} NothingRemainsIff(rows: Table, criteria: seq<Criterion>, answers: nat -> Upsert, k: nat)
    requires DistinctIds(criteria) && NewTo(rows, criteria)
    ensures AfterAttempts(rows, criteria, answers, k) == rows <==> NothingWritten(answers, |criteria|, k)
  {
    var n, reach := AfterAttempts(rows, criteria, answers, k), Reach(answers, |criteria|, k);
    AttemptsLeavePrefix(rows, criteria, answers, k);
    ReachesNothingIff(answers, |criteria|, k);
    if reach > 0 {
      assert criteria[0].id in n && criteria[0].id !in rows;
    } else {
      assert n.Keys == rows.Keys;
    }
  }

  /** A store without a connection. */
  ghost predicate Unconnected(answers: nat -> Upsert) {
    forall j :: j >= 1 ==> answers(j) == Failed(0, NoConnection)
  }

  /** Without a connection the first attempt raises before its first row and nothing is ever stored. */
  lemma UnconnectedStoresNothing(rows: Table, criteria: seq<Criterion>, answers: nat -> Upsert, k: nat)
    requires Unconnected(answers)
    ensures Retry(answers, 1) == (1, Some(NoConnection))
    ensures AfterAttempts(rows, criteria, answers, k) == rows
  {
    if k > 0 { UnconnectedStoresNothing(rows, criteria, answers, k - 1); }
  }

  /** With a connection a failing task can leave rows behind: every prefix of the survivors is what some answers
      leave. */
  lemma AnyPrefixCanRemain(rows: Table, criteria: seq<Criterion>, w: nat, e: Exception)
    requires DistinctIds(criteria) && NewTo(rows, criteria) && w <= |criteria|
    ensures var answers: nat -> Upsert := (_: nat) => Failed(w, e);
      && Retry(answers, 1) == (1, Some(e))
      && Holds(AfterAttempts(rows, criteria, answers, 1), rows, criteria, w)
  {
    var answers: nat -> Upsert := (_: nat) => Failed(w, e);
    assert AfterAttempts(rows, criteria, answers, 0) == rows;
    UpsertExtends(rows, rows, criteria, 0, w);
  }

  /** Fresh UUIDs: no two chunks get the same, and none is in the table. */
  ghost predicate FreshIds(s: Services, rows: Table) {
    && (forall i: nat, j: nat :: s.ids(i) == s.ids(j) ==> i == j)
    && (forall i: nat :: s.ids(i) !in rows)
  }

  lemma {:induction false} SurvivorsAreNew(s: Services, document: string, chunks: seq<string>, rows: Table)
    requires FreshIds(s, rows)
    ensures var survivors := Survivors(s, document, chunks);
      && DistinctIds(survivors) && NewTo(rows, survivors)
      && (forall c :: c in survivors ==> c.name < |chunks| && c.id == s.ids(c.name))
  {
    if chunks != [] {
      var n := |chunks| - 1;
      SurvivorsAreNew(s, document, chunks[..n], rows);
      var init, all := Survivors(s, document, chunks[..n]), Survivors(s, document, chunks);
      forall i, j | 0 <= i < j < |all| ensures all[i].id != all[j].id {
        assert all[i] == init[i] && init[i] in init;
      }
    }
  }

  // ----- the task -----

  /** result_json: absent keys are None. */
  datatype ResultJson = ResultJson(
    document: string, backend: Option<string>, pages: Option<int>, tokens: Option<nat>, chunks: Option<nat>,
    failedChunks: Option<nat>, scoreTriggered: Option<bool>, error: Option<Exception>)

  datatype TaskStatus = Completed | FailedTask

  datatype Callback = Callback(status: TaskStatus, json: ResultJson)

  /** What a task leaves in the table when the ids are fresh: a prefix of the survivors, all of them if it completed,
      and nothing exactly when no attempt wrote a row. */
  ghost predicate RowsLeft(s: Services, answers: nat -> Upsert, document: string, rows: Table, n: Table,
      completed: bool)
    requires s.ocr.OcrText?
  {
    var survivors := Survivors(s, document, Chunker.Chunks(s.ocr.text, SETTINGS));
    && HoldsPrefix(n, rows, survivors)
    && (completed ==> Holds(n, rows, survivors, |survivors|))
    && (n == rows <==> NothingWritten(answers, |survivors|, Retry(answers, 1).0))
  }

  lemma AttemptsLeaveRows(s: Services, answers: nat -> Upsert, document: string, rows: Table)
    requires FreshIds(s, rows) && s.ocr.OcrText?
    ensures var survivors := Survivors(s, document, Chunker.Chunks(s.ocr.text, SETTINGS));
      var retried := Retry(answers, 1);
      RowsLeft(s, answers, document, rows, AfterAttempts(rows, survivors, answers, retried.0), retried.1.None?)
  {
    var chunks := Chunker.Chunks(s.ocr.text, SETTINGS);
    var survivors := Survivors(s, document, chunks);
    var k := Retry(answers, 1).0;
    SurvivorsAreNew(s, document, chunks, rows);
    RetryOutcome(answers);
    AttemptsLeavePrefix(rows, survivors, answers, k);
    NothingRemainsIff(rows, survivors, answers, k);
    assert Holds(AfterAttempts(rows, survivors, answers, k), rows, survivors, Reach(answers, |survivors|, k));
  }

  lemma NoSurvivorsLeaveNothing(s: Services, answers: nat -> Upsert, document: string, rows: Table)
    requires s.ocr.OcrText? && Survivors(s, document, Chunker.Chunks(s.ocr.text, SETTINGS)) == []
    ensures RowsLeft(s, answers, document, rows, rows, true)
  {
    assert Holds(rows, rows, [], 0);
  }

  /** Step 3 of _execute, with what it means for the table. */
  method EmbedAndStore(s: Services, store: VectorStore, document: string) returns (counts: Counts)
    requires store.attempts == 0 && store.successes == 0 && s.ocr.OcrText?
    modifies store
    ensures var chunks := Chunker.Chunks(s.ocr.text, SETTINGS);
      var survivors := Survivors(s, document, chunks);
      && (counts.Ok? ==> counts.value == (|survivors|, |chunks| - |survivors|))
      && (counts.Ok? <==> survivors == [] || Retry(store.answers, 1).1.None?)
      && (counts.Err? ==> Some(counts.error) == Retry(store.answers, 1).1)
      && (FreshIds(s, old(store.rows)) ==>
          RowsLeft(s, store.answers, document, old(store.rows), store.rows, counts.Ok?))
      && (Unconnected(store.answers) ==>
          && store.rows == old(store.rows)
          && (counts.Ok? <==> survivors == []) && (counts.Err? ==> counts.error == NoConnection))
  {
    ghost var before := store.rows;
    ghost var survivors := Survivors(s, document, Chunker.Chunks(s.ocr.text, SETTINGS));
    counts := EmbedAndUpsertChunks(s, store, document, s.ocr.text);
    if FreshIds(s, before) { AttemptsLeaveRows(s, store.answers, document, before); }
    if survivors == [] { NoSurvivorsLeaveNothing(s, store.answers, document, before); }
    if Unconnected(store.answers) { UnconnectedStoresNothing(before, survivors, store.answers, 1); }
  }

  /** What result_json says: nothing but the error of an OCR that raised or was empty; else what OCR gave, and then
      either the error of the last attempt or the counts of the embedded and the failed chunks and the trigger's
      answer. */
  ghost predicate Says(json: ResultJson, s: Services, answers: nat -> Upsert, document: string) {
    && json.document == document
    && if s.ocr.OcrRaised? || s.ocr.text == "" then
         && json.backend.None? && json.pages.None? && json.tokens.None? && json.chunks.None?
         && json.failedChunks.None? && json.scoreTriggered.None?
         && json.error == Some(if s.ocr.OcrRaised? then s.ocr.e else EmptyOcr)
       else
         var chunks := Chunker.Chunks(s.ocr.text, SETTINGS);
         var indexed := |Survivors(s, document, chunks)|;
         var error := Retry(answers, 1).1;
         && json.backend == Some(s.ocr.backend) && json.pages == Some(s.ocr.pages) && json.tokens == Some(|s.ocr.text|)
         && if indexed == 0 || error.None? then
              && json.chunks == Some(indexed) && json.scoreTriggered == Some(s.trigger) && json.error.None?
              && json.failedChunks == (if indexed < |chunks| then Some(|chunks| - indexed) else None)
            else json.chunks.None? && json.failedChunks.None? && json.scoreTriggered.None? && json.error == error
  }

  /** _execute on a given store: every exception is absorbed, and the callback is posted last, once. Without a
      connection the task only completes when no chunk embedded. */
  method Execute(s: Services, store: VectorStore, document: string)
      returns (json: ResultJson, callbacks: seq<Callback>, triggers: nat)
    requires store.attempts == 0 && store.successes == 0
    modifies store
    ensures |callbacks| == 1 && callbacks[0].json == json
    ensures callbacks[0].status == Completed <==> json.error.None?
    ensures Says(json, s, store.answers, document)
    ensures triggers == if json.error.None? then 1 else 0
    ensures FreshIds(s, old(store.rows)) && s.ocr.OcrText? ==>
      RowsLeft(s, store.answers, document, old(store.rows), store.rows, json.error.None?)
    ensures s.ocr.OcrRaised? || s.ocr.text == "" || Unconnected(store.answers) ==> store.rows == old(store.rows)
    ensures Unconnected(store.answers) && s.ocr.OcrText? && s.ocr.text != "" ==>
      json.error == if Survivors(s, document, Chunker.Chunks(s.ocr.text, SETTINGS)) == [] then None
                    else Some(NoConnection)
  {
    json := ResultJson(document, None, None, None, None, None, None, None);
    if s.ocr.OcrText? && s.ocr.text == "" { NoSurvivorsLeaveNothing(s, store.answers, document, store.rows); }
    var status := Completed;
    triggers := 0;
    if s.ocr.OcrRaised? {
      status := FailedTask;
      json := json.(error := Some(s.ocr.e));
    } else if s.ocr.text == "" {
      status := FailedTask;
      json := json.(error := Some(EmptyOcr));
    } else {
      json := json.(backend := Some(s.ocr.backend), pages := Some(s.ocr.pages), tokens := Some(|s.ocr.text|));
      var counts := EmbedAndStore(s, store, document);
      if counts.Err? {
        status := FailedTask;
        json := json.(error := Some(counts.error));
      } else {
        json := json.(chunks := Some(counts.value.0));
        if counts.value.1 > 0 {
          json := json.(failedChunks := Some(counts.value.1));
        }
        triggers := triggers + 1;
        json := json.(scoreTriggered := Some(s.trigger));
      }
    }
    callbacks := [Callback(status, json)];
  }
}
