/**
 The score table, one transaction at a time. A DRAFT score is edited in place; a CONFIRMED score is corrected by
 inserting its replacement and marking it SUPERSEDED; nothing is ever deleted, and every change is audited.
 */
module Scores {
  import opened Common
  import opened Audit
  import opened Decimals

  datatype Status = Draft | Confirmed | Superseded

  /** `value` is in hundredths (DECIMAL(6,2)), `weight` in ten-thousandths (DECIMAL(5,4)); None is NULL. */
  datatype Score = Score(
    item: string, evidence: Option<Uuid>, level: string,
    value: Option<int>, weight: Option<int>, grade: Option<string>,
    status: Status, metadata: Option<string>)

  type Rows = map<Uuid, Score>

  datatype Action = ScoreCreated | ScoreUpdated

  datatype Details = Details(scoreId: Uuid, item: string, level: string)

  type ScEvent = Event<Action, Details>

  datatype Db = Db(rows: Rows, log: seq<ScEvent>)

  /** A float64 input: NaN and the infinities are told apart only from the numbers. */
  datatype Float = NonFinite | Finite(value: real)

  /** None: leave the column alone. */
  datatype Update = Update(
    value: Option<real>, weight: Option<real>, grade: Option<string>, status: Option<string>,
    metadata: Option<Option<string>>)

  datatype Error = InvalidInput | NotFound | Immutable | InvalidStatus | NotConfirmed | Constraint

  const MAX_ITEM_LEN := 64
  const LEVELS: set<string> := {"raw", "item", "category"}
  const GRADES: set<string> := {"S", "A", "B", "C", "D"}
  const VALUE_SCALE := 100
  const WEIGHT_SCALE := 10000

  const STATUSES: map<string, Status> := map["DRAFT" := Draft, "CONFIRMED" := Confirmed, "SUPERSEDED" := Superseded]

  const TRANSITIONS: map<Status, set<Status>> :=
    map[Draft := {Confirmed, Superseded}, Confirmed := {Superseded}, Superseded := {}]

  predicate ValidTransition(current: Status, next: string) {
    next in STATUSES && current in TRANSITIONS && STATUSES[next] in TRANSITIONS[current]
  }

  function StoredValue(x: real): int { Round(x, VALUE_SCALE) }

  function StoredWeight(w: Option<real>): Option<int> {
    if w.None? then None else Some(Round(w.value, WEIGHT_SCALE))
  }

  /** DECIMAL(6,2) and DECIMAL(5,4) hold six and five digits. */
  predicate Fits(value: Option<real>, weight: Option<real>) {
    && (value.Some? ==> -1000000 < StoredValue(value.value) < 1000000)
    && (weight.Some? ==> -100000 < Round(weight.value, WEIGHT_SCALE) < 100000)
  }

  predicate TouchesFields(upd: Update) {
    upd.value.Some? || upd.weight.Some? || upd.grade.Some?
  }

  predicate IsEmpty(upd: Update) {
    !TouchesFields(upd) && upd.status.None? && upd.metadata.None?
  }

  function Merged(row: Score, upd: Update): Score {
    row.(value := if upd.value.Some? then Some(StoredValue(upd.value.value)) else row.value,
         weight := if upd.weight.Some? then StoredWeight(upd.weight) else row.weight,
         grade := if upd.grade.Some? then upd.grade else row.grade,
         status := if upd.status.Some? && upd.status.value in STATUSES then STATUSES[upd.status.value] else row.status,
         metadata := if upd.metadata.Some? then upd.metadata.value else row.metadata)
  }

  function Created(at: int, id: Uuid, row: Score): ScEvent {
    Event(at, ScoreCreated, id, ResolveUser(false, ""), Details(id, row.item, row.level))
  }

  function Updated(at: int, id: Uuid, row: Score): ScEvent {
    Event(at, ScoreUpdated, id, ResolveUser(false, ""), Details(id, row.item, row.level))
  }

  datatype Op =
    | Insert(id: Uuid, at: int, item: string, evidence: Option<Uuid>, level: string, value: Float,
        weight: Option<real>, metadata: Option<string>)
    | Change(id: Uuid, at: int, upd: Update)
    | Correct(id: Uuid, newId: Uuid, at: int, value: Float, weight: Option<real>, metadata: Option<string>)

  /** Why an operation is refused, in the order of the checks; the column constraints come last. */
  function Refusal(rows: Rows, op: Op): Option<Error> {
    match op
    case Insert(id, at, item, evidence, level, value, weight, metadata) =>
      if Blank(item) || |item| > MAX_ITEM_LEN || level !in LEVELS || value.NonFinite? then Some(InvalidInput)
      else if id in rows || !Fits(Some(value.value), weight) then Some(Constraint)
      else None
    case Change(id, at, upd) =>
      if id !in rows then Some(NotFound)
      else if rows[id].status == Confirmed && TouchesFields(upd) then Some(Immutable)
      else if upd.status.Some? && !ValidTransition(rows[id].status, upd.status.value) then Some(InvalidStatus)
      else if !Fits(upd.value, upd.weight) || (upd.grade.Some? && upd.grade.value !in GRADES) then Some(Constraint)
      else None
    case Correct(id, newId, at, value, weight, metadata) =>
      if value.NonFinite? then Some(InvalidInput)
      else if id !in rows then Some(NotFound)
      else if rows[id].status != Confirmed then Some(NotConfirmed)
      else if newId in rows || !Fits(Some(value.value), weight) then Some(Constraint)
      else None
  }

  /** The replacement of a CONFIRMED row keeps its item, evidence and level; its grade is not set. */
  function Replacement(row: Score, value: real, weight: Option<real>, metadata: Option<string>): Score {
    Score(row.item, row.evidence, row.level, Some(StoredValue(value)), StoredWeight(weight), None, Confirmed, metadata)
  }

  function Apply(db: Db, op: Op): Db {
    if Refusal(db.rows, op).Some? then db
    else
      match op
      case Insert(id, at, item, evidence, level, value, weight, metadata) =>
        var row := Score(item, evidence, level, Some(StoredValue(value.value)), StoredWeight(weight), None, Draft,
            metadata);
        Db(db.rows[id := row], db.log + [Created(at, id, row)])
      case Change(id, at, upd) =>
        if IsEmpty(upd) then db
        else Db(db.rows[id := Merged(db.rows[id], upd)], db.log + [Updated(at, id, db.rows[id])])
      case Correct(id, newId, at, value, weight, metadata) =>
        var row := Replacement(db.rows[id], value.value, weight, metadata);
        Db(db.rows[newId := row][id := db.rows[id].(status := Superseded)],
           db.log + [Created(at, newId, row), Updated(at, id, db.rows[id])])
  }

  /** `units` is `x` to the nearest 1/scale, and a tie goes away from zero. */
  predicate Near(units: int, x: real, scale: int)
    requires scale > 0
  {
    var d := units as real - x * scale as real;
    if x * scale as real >= 0.0 then -0.5 < d <= 0.5 else -0.5 <= d < 0.5
  }

  lemma RoundIsNear(x: real, scale: int)
    requires scale > 0
    ensures Near(Round(x, scale), x, scale)
  {
    RoundHalfIff(x * scale as real, Round(x, scale));
  }

  /** A number fits its column exactly when it stays below the first number that would round to one digit more. */
  lemma FitsIff(value: Option<real>, weight: Option<real>)
    ensures Fits(value, weight) <==>
      && (value.Some? ==> -9999.995 < value.value < 9999.995)
      && (weight.Some? ==> -9.99995 < weight.value < 9.99995)
  {
  }

  function Run(ops: seq<Op>): Db {
    if ops == [] then Db(map[], []) else Apply(Run(ops[..|ops| - 1]), ops[|ops| - 1])
  }

  // ----- what an operation does, column by column -----

  predicate NearOrNull(units: Option<int>, x: Option<real>, scale: int)
    requires scale > 0
  {
    (units.Some? <==> x.Some?) && (x.Some? ==> Near(units.value, x.value, scale))
  }

  /** One audit event for the default user about score `id`, which belongs to `item` and `level`. */
  predicate Records(e: ScEvent, at: int, action: Action, id: Uuid, item: string, level: string) {
    && e.at == at && e.action == action && e.resourceId == id && e.userId == "cli-anonymous"
    && e.details.scoreId == id && e.details.item == item && e.details.level == level
  }

  ghost predicate MayInsert(rows: Rows, id: Uuid, item: string, level: string, value: Float, weight: Option<real>) {
    && !Blank(item) && |item| <= MAX_ITEM_LEN && level in {"raw", "item", "category"} && value.Finite?
    && id !in rows && Fits(Some(value.value), weight)
  }

  /** A DRAFT row with the columns as given, and its event. */
  ghost predicate InsertedScore(db: Db, n: Db, id: Uuid, at: int, item: string, evidence: Option<Uuid>, level: string,
      value: Float, weight: Option<real>, metadata: Option<string>)
  {
    && value.Finite? && n.rows.Keys == db.rows.Keys + {id}
    && (forall other :: other in db.rows ==> n.rows[other] == db.rows[other])
    && var row := n.rows[id];
      && row.item == item && row.evidence == evidence && row.level == level && row.metadata == metadata
      && NearOrNull(row.value, Some(value.value), VALUE_SCALE) && NearOrNull(row.weight, weight, WEIGHT_SCALE)
      && row.grade.None? && row.status == Draft
      && |n.log| == |db.log| + 1 && n.log[..|db.log|] == db.log
      && Records(n.log[|db.log|], at, ScoreCreated, id, item, level)
  }

  ghost predicate MayChange(rows: Rows, id: Uuid, upd: Update) {
    && id in rows
    && (rows[id].status == Confirmed ==> upd.value.None? && upd.weight.None? && upd.grade.None?)
    && (upd.status.Some? ==>
      || (rows[id].status == Draft && upd.status.value in {"CONFIRMED", "SUPERSEDED"})
      || (rows[id].status == Confirmed && upd.status.value == "SUPERSEDED"))
    && Fits(upd.value, upd.weight) && (upd.grade.Some? ==> upd.grade.value in {"S", "A", "B", "C", "D"})
  }

  /** Each column holds what was given for it or what it held; one event, unless nothing was given. */
  ghost predicate ChangedScore(db: Db, n: Db, id: Uuid, at: int, upd: Update) {
    && id in db.rows && n.rows.Keys == db.rows.Keys
    && (forall other :: other in db.rows && other != id ==> n.rows[other] == db.rows[other])
    && var was, row := db.rows[id], n.rows[id];
      && row.item == was.item && row.evidence == was.evidence && row.level == was.level
      && (if upd.value.Some? then NearOrNull(row.value, upd.value, VALUE_SCALE) else row.value == was.value)
      && (if upd.weight.Some? then NearOrNull(row.weight, upd.weight, WEIGHT_SCALE) else row.weight == was.weight)
      && row.grade == (if upd.grade.Some? then upd.grade else was.grade)
      && row.metadata == (if upd.metadata.Some? then upd.metadata.value else was.metadata)
      && row.status == (if upd.status == Some("CONFIRMED") then Confirmed
                        else if upd.status == Some("SUPERSEDED") then Superseded
                        else was.status)
      && (upd == Update(None, None, None, None, None) ==> n.log == db.log)
      && (upd != Update(None, None, None, None, None) ==>
        && |n.log| == |db.log| + 1 && n.log[..|db.log|] == db.log
        && Records(n.log[|db.log|], at, ScoreUpdated, id, was.item, was.level))
  }

  ghost predicate MayCorrect(rows: Rows, id: Uuid, newId: Uuid, value: Float, weight: Option<real>) {
    && value.Finite? && id in rows && rows[id].status == Confirmed
    && newId !in rows && Fits(Some(value.value), weight)
  }

  /** The old row is SUPERSEDED and otherwise kept; a CONFIRMED one of the same item, evidence and level holds the
      given value, weight and metadata; two events, the new row's first. */
  ghost predicate CorrectedScore(db: Db, n: Db, id: Uuid, newId: Uuid, at: int, value: Float, weight: Option<real>,
      metadata: Option<string>)
  {
    && value.Finite? && id in db.rows && newId != id && n.rows.Keys == db.rows.Keys + {newId}
    && (forall other :: other in db.rows && other != id ==> n.rows[other] == db.rows[other])
    && var was, old', row := db.rows[id], n.rows[id], n.rows[newId];
      && old'.status == Superseded && old'.value == was.value && old'.weight == was.weight && old'.grade == was.grade
      && old'.item == was.item && old'.evidence == was.evidence && old'.level == was.level
      && old'.metadata == was.metadata
      && row.status == Confirmed && row.item == was.item && row.evidence == was.evidence && row.level == was.level
      && NearOrNull(row.value, Some(value.value), VALUE_SCALE) && NearOrNull(row.weight, weight, WEIGHT_SCALE)
      && row.grade.None? && row.metadata == metadata
      && |n.log| == |db.log| + 2 && n.log[..|db.log|] == db.log
      && Records(n.log[|db.log|], at, ScoreCreated, newId, was.item, was.level)
      && Records(n.log[|db.log| + 1], at, ScoreUpdated, id, was.item, was.level)
  }

  lemma InsertDoes(db: Db, op: Op)
    requires op.Insert?
    ensures Refusal(db.rows, op).None? <==> MayInsert(db.rows, op.id, op.item, op.level, op.value, op.weight)
    ensures Refusal(db.rows, op).None? ==>
      InsertedScore(db, Apply(db, op), op.id, op.at, op.item, op.evidence, op.level, op.value, op.weight, op.metadata)
  {
    if op.value.Finite? { RoundIsNear(op.value.value, VALUE_SCALE); }
    if op.weight.Some? { RoundIsNear(op.weight.value, WEIGHT_SCALE); }
  }

  lemma ChangeDoes(db: Db, op: Op)
    requires op.Change?
    ensures Refusal(db.rows, op).None? <==> MayChange(db.rows, op.id, op.upd)
    ensures Refusal(db.rows, op).None? ==> ChangedScore(db, Apply(db, op), op.id, op.at, op.upd)
  {
    if op.upd.value.Some? { RoundIsNear(op.upd.value.value, VALUE_SCALE); }
    if op.upd.weight.Some? { RoundIsNear(op.upd.weight.value, WEIGHT_SCALE); }
  }

  lemma CorrectDoes(db: Db, op: Op)
    requires op.Correct?
    ensures Refusal(db.rows, op).None? <==> MayCorrect(db.rows, op.id, op.newId, op.value, op.weight)
    ensures Refusal(db.rows, op).None? ==>
      CorrectedScore(db, Apply(db, op), op.id, op.newId, op.at, op.value, op.weight, op.metadata)
  {
    if op.value.Finite? { RoundIsNear(op.value.value, VALUE_SCALE); }
    if op.weight.Some? { RoundIsNear(op.weight.value, WEIGHT_SCALE); }
  }

  /** An operation of a run does what it was asked exactly when its checks pass, and nothing otherwise. */
  lemma OperationDoes(db: Db, op: Op)
    ensures
      var n := Apply(db, op);
      match op
      case Insert(id, at, item, evidence, level, value, weight, metadata) =>
        if MayInsert(db.rows, id, item, level, value, weight)
        then InsertedScore(db, n, id, at, item, evidence, level, value, weight, metadata)
        else n == db
      case Change(id, at, upd) => if MayChange(db.rows, id, upd) then ChangedScore(db, n, id, at, upd) else n == db
      case Correct(id, newId, at, value, weight, metadata) =>
        if MayCorrect(db.rows, id, newId, value, weight)
        then CorrectedScore(db, n, id, newId, at, value, weight, metadata)
        else n == db
  {
    match op
    case Insert(_, _, _, _, _, _, _, _) => InsertDoes(db, op);
    case Change(_, _, _) => ChangeDoes(db, op);
    case Correct(_, _, _, _, _, _) => CorrectDoes(db, op);
  }

  /** Which check an operation fails, on the columns; what is left are the constraints of the database. */
  lemma RefusalSays(rows: Rows, op: Op)
    ensures op.Insert? ==>
      (Refusal(rows, op) == Some(InvalidInput) <==>
        Blank(op.item) || |op.item| > 64 || op.level !in {"raw", "item", "category"} || op.value.NonFinite?)
    ensures op.Change? ==>
      && (Refusal(rows, op) == Some(NotFound) <==> op.id !in rows)
      && (Refusal(rows, op) == Some(Immutable) <==>
        && op.id in rows && rows[op.id].status == Confirmed
        && (op.upd.value.Some? || op.upd.weight.Some? || op.upd.grade.Some?))
      && (Refusal(rows, op) == Some(InvalidStatus) <==>
        && op.id in rows && op.upd.status.Some? && Refusal(rows, op) != Some(Immutable)
        && !(rows[op.id].status == Draft && op.upd.status.value in {"CONFIRMED", "SUPERSEDED"})
        && !(rows[op.id].status == Confirmed && op.upd.status.value == "SUPERSEDED"))
    ensures op.Correct? ==>
      && (Refusal(rows, op) == Some(InvalidInput) <==> op.value.NonFinite?)
      && (Refusal(rows, op) == Some(NotFound) <==> op.value.Finite? && op.id !in rows)
      && (Refusal(rows, op) == Some(NotConfirmed) <==>
        op.value.Finite? && op.id in rows && rows[op.id].status != Confirmed)
  {
  }

  /** PgScoreTx over its tables, each call in its own committed or rolled-back transaction. */
  class ScoreTable {
    var rows: Rows
    var log: seq<ScEvent>

    ghost function Contents(): Db
      reads this
    {
      Db(rows, log)
    }

    constructor ()
      ensures Contents() == Db(map[], [])
    {
      rows := map[];
      log := [];
    }

    method InsertScore(id: Uuid, at: int, item: string, evidence: Option<Uuid>, level: string, value: Float,
        weight: Option<real>, metadata: Option<string>)
      returns (r: Result<Uuid, Error>)
      modifies this
      ensures var op := Insert(id, at, item, evidence, level, value, weight, metadata);
        && Contents() == Apply(old(Contents()), op)
        && r == (if Refusal(old(rows), op).Some? then Err(Refusal(old(rows), op).value) else Ok(id))
      ensures r.Ok? <==> MayInsert(old(rows), id, item, level, value, weight)
      ensures r.Ok? ==>
        InsertedScore(old(Contents()), Contents(), id, at, item, evidence, level, value, weight, metadata)
      ensures r.Err? ==> Contents() == old(Contents())
    {
      InsertDoes(Contents(), Insert(id, at, item, evidence, level, value, weight, metadata));
      if Blank(item) { return Err(InvalidInput); }
      if |item| > MAX_ITEM_LEN { return Err(InvalidInput); }
      if level !in LEVELS { return Err(InvalidInput); }
      if value.NonFinite? { return Err(InvalidInput); }
      if id in rows || !Fits(Some(value.value), weight) { return Err(Constraint); }
      var row := Score(item, evidence, level, Some(StoredValue(value.value)), StoredWeight(weight), None, Draft,
          metadata);
      rows := rows[id := row];
      log := log + [Created(at, id, row)];
      return Ok(id);
    }

    method UpdateScore(id: Uuid, at: int, upd: Update) returns (error: Option<Error>)
      modifies this
      ensures Contents() == Apply(old(Contents()), Change(id, at, upd))
      ensures error == Refusal(old(rows), Change(id, at, upd))
      ensures error.None? <==> MayChange(old(rows), id, upd)
      ensures error.None? ==> ChangedScore(old(Contents()), Contents(), id, at, upd)
      ensures error.Some? ==> Contents() == old(Contents())
    {
      ChangeDoes(Contents(), Change(id, at, upd));
      if id !in rows { return Some(NotFound); }
      var current := rows[id];
      if current.status == Confirmed {
        if upd.value.Some? || upd.weight.Some? || upd.grade.Some? { return Some(Immutable); }
      }
      if upd.status.Some? {
        if upd.status.value !in STATUSES { return Some(InvalidStatus); }
        if STATUSES[upd.status.value] !in TRANSITIONS[current.status] { return Some(InvalidStatus); }
      }
      if IsEmpty(upd) { return None; }
      if !Fits(upd.value, upd.weight) || (upd.grade.Some? && upd.grade.value !in GRADES) { return Some(Constraint); }
      rows := rows[id := Merged(current, upd)];
      log := log + [Updated(at, id, current)];
      return None;
    }

    method SupersedeAndReplaceScore(id: Uuid, newId: Uuid, at: int, value: Float, weight: Option<real>,
        metadata: Option<string>)
      returns (r: Result<Uuid, Error>)
      modifies this
      ensures var op := Correct(id, newId, at, value, weight, metadata);
        && Contents() == Apply(old(Contents()), op)
        && r == (if Refusal(old(rows), op).Some? then Err(Refusal(old(rows), op).value) else Ok(newId))
      ensures r.Ok? <==> MayCorrect(old(rows), id, newId, value, weight)
      ensures r.Ok? ==> CorrectedScore(old(Contents()), Contents(), id, newId, at, value, weight, metadata)
      ensures r.Err? ==> Contents() == old(Contents())
    {
      CorrectDoes(Contents(), Correct(id, newId, at, value, weight, metadata));
      if value.NonFinite? { return Err(InvalidInput); }
      if id !in rows { return Err(NotFound); }
      var current := rows[id];
      if current.status != Confirmed { return Err(NotConfirmed); }
      if newId in rows || !Fits(Some(value.value), weight) { return Err(Constraint); }
      var row := Replacement(current, value.value, weight, metadata);
      rows := rows[newId := row];
      log := log + [Created(at, newId, row)];
      rows := rows[id := current.(status := Superseded)];
      log := log + [Updated(at, id, current)];
      return Ok(newId);
    }
  }

  // ----- what a row keeps -----

  function Rank(s: Status): nat {
    match s
    case Draft => 0
    case Confirmed => 1
    case Superseded => 2
  }

  predicate SameFields(a: Score, b: Score) {
    a.value == b.value && a.weight == b.weight && a.grade == b.grade
  }

  predicate SameIdentity(a: Score, b: Score) {
    a.item == b.item && a.evidence == b.evidence && a.level == b.level
  }

  /** How a row may change between two moments. */
  predicate Evolves(a: Score, b: Score) {
    && SameIdentity(a, b)
    && Rank(a.status) <= Rank(b.status)
    && (a.status == Confirmed && b.status == Confirmed ==> SameFields(a, b))
  }

  lemma StepEvolves(db: Db, op: Op, id: Uuid)
    requires id in db.rows
    ensures id in Apply(db, op).rows && Evolves(db.rows[id], Apply(db, op).rows[id])
  {
  }

  /** Rows are never deleted or re-labelled, a status never moves back, and while a row stays CONFIRMED its value,
      weight and grade do not change. */
  lemma {:induction false} RowsOnlyEvolve(ops: seq<Op>, more: seq<Op>, id: Uuid)
    requires id in Run(ops).rows
    ensures id in Run(ops + more).rows && Evolves(Run(ops).rows[id], Run(ops + more).rows[id])
  {
    if more == [] {
      assert ops + more == ops;
    } else {
      var n := |more| - 1;
      RowsOnlyEvolve(ops, more[..n], id);
      assert (ops + more)[..|ops + more| - 1] == ops + more[..n];
      StepEvolves(Run(ops + more[..n]), more[n], id);
    }
  }

  /** An update of the score fields of a SUPERSEDED row with numbers and a grade that fit their columns. */
  predicate RewritesSuperseded(db: Db, op: Op, id: Uuid) {
    && id in db.rows && db.rows[id].status == Superseded
    && op.Change? && op.id == id && TouchesFields(op.upd) && op.upd.status.None?
    && Fits(op.upd.value, op.upd.weight) && (op.upd.grade.Some? ==> op.upd.grade.value in GRADES)
  }

  /** Every score field that the update gives is what `row` has already. */
  predicate WritesSame(row: Score, upd: Update) {
    && (upd.value.Some? ==> row.value == Some(StoredValue(upd.value.value)))
    && (upd.weight.Some? ==> row.weight == StoredWeight(upd.weight))
    && (upd.grade.Some? ==> row.grade == upd.grade)
  }

  lemma EditedAfterDraft(db: Db, op: Op, id: Uuid)
    requires id in db.rows && db.rows[id].status != Draft
    ensures SameFields(db.rows[id], Apply(db, op).rows[id]) || RewritesSuperseded(db, op, id)
  {
  }

  /** The design says that only a DRAFT may have its score fields edited. The guard covers CONFIRMED alone: the fields
      of a row that has left DRAFT are safe from every operation exactly while the row is CONFIRMED. */
  lemma FieldsSafeIffConfirmed(db: Db, id: Uuid)
    requires id in db.rows && db.rows[id].status != Draft
    ensures (forall op: Op :: SameFields(db.rows[id], Apply(db, op).rows[id])) <==> db.rows[id].status == Confirmed
  {
    if db.rows[id].status == Confirmed {
      forall op: Op ensures SameFields(db.rows[id], Apply(db, op).rows[id]) {
        EditedAfterDraft(db, op, id);
      }
    } else {
      var other := if db.rows[id].value == Some(0) then 1.0 else 0.0;
      SupersededIsEditable(db, id, 0, other);
      assert StoredValue(0.0) == 0 && StoredValue(1.0) == 100;
      assert !SameFields(db.rows[id], Apply(db, Change(id, 0, Update(Some(other), None, None, None, None))).rows[id]);
    }
  }

  /** One step on a row that has left DRAFT, whose fields are still those of `row`. */
  lemma FieldsStep(db: Db, op: Op, id: Uuid, row: Score)
    requires id in db.rows && db.rows[id].status != Draft && SameFields(row, db.rows[id])
    ensures SameFields(row, Apply(db, op).rows[id]) <==> (RewritesSuperseded(db, op, id) ==> WritesSame(row, op.upd))
  {
  }

  /** Step `k` of `more`, if it rewrites the row while SUPERSEDED, writes the fields `row` has already. */
  ghost predicate HarmlessAt(ops: seq<Op>, more: seq<Op>, id: Uuid, row: Score, k: nat)
    requires k < |more|
  {
    RewritesSuperseded(Run(ops + more[..k]), more[k], id) ==> WritesSame(row, more[k].upd)
  }

  lemma FieldsRunStep(ops: seq<Op>, more: seq<Op>, id: Uuid, k: nat)
    requires id in Run(ops).rows && Run(ops).rows[id].status != Draft && k < |more|
    ensures id in Run(ops + more[..k]).rows && id in Run(ops + more[..k + 1]).rows
    ensures var row := Run(ops).rows[id];
      SameFields(row, Run(ops + more[..k]).rows[id]) ==>
        (SameFields(row, Run(ops + more[..k + 1]).rows[id]) <==> HarmlessAt(ops, more, id, row, k))
  {
    var m := Run(ops + more[..k]);
    RowsOnlyEvolve(ops, more[..k], id);
    RunNext(ops, more, k);
    StepEvolves(m, more[k], id);
    if SameFields(Run(ops).rows[id], m.rows[id]) { FieldsStep(m, more[k], id, Run(ops).rows[id]); }
  }

  lemma RunNext(ops: seq<Op>, more: seq<Op>, k: nat)
    requires k < |more|
    ensures Run(ops + more[..k + 1]) == Apply(Run(ops + more[..k]), more[k])
  {
    var all := ops + more[..k + 1];
    assert all[..|all| - 1] == ops + more[..k] && all[|all| - 1] == more[k];
  }

  /** The row has the same score fields after every prefix of `more`. */
  ghost predicate FieldsLast(ops: seq<Op>, more: seq<Op>, id: Uuid)
    requires id in Run(ops).rows
  {
    forall k :: 0 <= k <= |more| ==> KeepsFields(ops, more[..k], id)
  }

  ghost predicate KeepsFields(ops: seq<Op>, more: seq<Op>, id: Uuid)
    requires id in Run(ops).rows
  {
    id in Run(ops + more).rows && SameFields(Run(ops).rows[id], Run(ops + more).rows[id])
  }

  /** Over a whole run: the fields of a row that has left DRAFT last exactly when every update of the score fields that
      meets the row SUPERSEDED writes what is there already. */
  lemma {:induction false} FieldsLastIff(ops: seq<Op>, more: seq<Op>, id: Uuid)
    requires id in Run(ops).rows && Run(ops).rows[id].status != Draft
    ensures FieldsLast(ops, more, id)
       <==> forall k :: 0 <= k < |more| ==> HarmlessAt(ops, more, id, Run(ops).rows[id], k)
  {
    var row := Run(ops).rows[id];
    if FieldsLast(ops, more, id) {
      forall k | 0 <= k < |more| ensures HarmlessAt(ops, more, id, row, k) {
        assert KeepsFields(ops, more[..k], id) && KeepsFields(ops, more[..k + 1], id);
        FieldsRunStep(ops, more, id, k);
      }
    }
    if forall k :: 0 <= k < |more| ==> HarmlessAt(ops, more, id, row, k) {
      assert ops + more[..0] == ops;
      for k := 0 to |more|
        invariant forall j :: 0 <= j <= k ==> KeepsFields(ops, more[..j], id)
      {
        assert KeepsFields(ops, more[..k], id) && HarmlessAt(ops, more, id, row, k);
        FieldsRunStep(ops, more, id, k);
      }
    }
  }

  /** Every row of a run that has left DRAFT has a continuation that changes its fields: one update once it is
      SUPERSEDED, and a status request before that if it is still CONFIRMED. */
  lemma {:induction false} LateRowsCanChange(ops: seq<Op>, id: Uuid) returns (more: seq<Op>)
    requires id in Run(ops).rows && Run(ops).rows[id].status != Draft
    ensures id in Run(ops + more).rows && !SameFields(Run(ops).rows[id], Run(ops + more).rows[id])
  {
    var row := Run(ops).rows[id];
    var supersede := Change(id, 0, Update(None, None, None, Some("SUPERSEDED"), None));
    var first := if row.status == Confirmed then [supersede] else [];
    var mid := ops + first;
    if row.status == Confirmed { assert mid[..|ops|] == ops; } else { assert mid == ops; }
    assert Run(mid).rows[id].status == Superseded && SameFields(row, Run(mid).rows[id]);
    var value := if row.value == Some(0) then 1.0 else 0.0;
    var rewrite := Change(id, 0, Update(Some(value), None, None, None, None));
    assert StoredValue(0.0) == 0 && StoredValue(1.0) == 100;
    SupersededIsEditable(Run(mid), id, 0, value);
    more := first + [rewrite];
    assert ops + more == mid + [rewrite] && (mid + [rewrite])[..|mid|] == mid;
  }

  /** Such a step exists for every SUPERSEDED row: a corrected score can still be overwritten. */
  lemma SupersededIsEditable(db: Db, id: Uuid, at: int, value: real)
    requires id in db.rows && db.rows[id].status == Superseded && Fits(Some(value), None)
    ensures var op := Change(id, at, Update(Some(value), None, None, None, None));
      Refusal(db.rows, op).None? && Apply(db, op).rows[id].value == Some(StoredValue(value))
  {
  }

  // ----- the audit log -----

  /** The log tells exactly which rows exist: one SCORE_CREATED each, first, then only SCORE_UPDATED. */
  ghost predicate Audited(db: Db, id: Uuid) {
    var events := EventsOf(db.log, id);
    && (id in db.rows <==> events != [])
    && (forall i :: 0 <= i < |events| ==>
      && events[i].action == (if i == 0 then ScoreCreated else ScoreUpdated)
      && id in db.rows && events[i].details == Details(id, db.rows[id].item, db.rows[id].level)
      && events[i].userId == DEFAULT_USER)
  }

  lemma CreateKeepsAudited(db: Db, at: int, newId: Uuid, row: Score, id: Uuid)
    requires Audited(db, id) && newId !in db.rows
    ensures Audited(Db(db.rows[newId := row], db.log + [Created(at, newId, row)]), id)
  {
  }

  lemma UpdateKeepsAudited(db: Db, at: int, changed: Uuid, row: Score, id: Uuid)
    requires Audited(db, id) && changed in db.rows && SameIdentity(db.rows[changed], row)
    ensures Audited(Db(db.rows[changed := row], db.log + [Updated(at, changed, db.rows[changed])]), id)
  {
  }

  lemma StepKeepsAudited(db: Db, op: Op, id: Uuid)
    requires Audited(db, id)
    ensures Audited(Apply(db, op), id)
  {
    if Refusal(db.rows, op).None? {
      match op
      case Insert(newId, at, item, evidence, level, value, weight, metadata) =>
        CreateKeepsAudited(db, at, newId, Apply(db, op).rows[newId], id);
      case Change(changed, at, upd) =>
        if !IsEmpty(upd) { UpdateKeepsAudited(db, at, changed, Merged(db.rows[changed], upd), id); }
      case Correct(oldId, newId, at, value, weight, metadata) =>
        CorrectKeepsAudited(db, op, id);
    }
  }

  lemma CorrectKeepsAudited(db: Db, op: Op, id: Uuid)
    requires Audited(db, id) && op.Correct? && Refusal(db.rows, op).None?
    ensures Audited(Apply(db, op), id)
  {
    var row := Replacement(db.rows[op.id], op.value.value, op.weight, op.metadata);
    var mid := Db(db.rows[op.newId := row], db.log + [Created(op.at, op.newId, row)]);
    CreateKeepsAudited(db, op.at, op.newId, row, id);
    UpdateKeepsAudited(mid, op.at, op.id, db.rows[op.id].(status := Superseded), id);
    assert Apply(db, op).log == mid.log + [Updated(op.at, op.id, db.rows[op.id])];
  }

  /** SCORE_CREATED events and rows are in bijection after every run. */
  lemma {:induction false} EveryRowIsAudited(ops: seq<Op>, id: Uuid)
    ensures Audited(Run(ops), id)
  {
    if ops != [] {
      var init, op := ops[..|ops| - 1], ops[|ops| - 1];
      EveryRowIsAudited(init, id);
      StepKeepsAudited(Run(init), op, id);
    }
  }

  // ----- the weighted sum -----

  /** score_value * weight in units of 10^-6, for the rows SumWeightedByEvaluationItem selects. */
  function Product(row: Score, item: string): int {
    if row.item == item && row.level == "raw" && row.weight.Some? && row.value.Some? then
      row.value.value * row.weight.value
    else 0
  }

  ghost function SumOver(rows: Rows, item: string, ids: set<Uuid>): int
    requires ids <= rows.Keys
  {
    if ids == {} then 0
    else
      var id :| id in ids;
      Product(rows[id], item) + SumOver(rows, item, ids - {id})
  }

  ghost function RawSum(rows: Rows, item: string): int {
    SumOver(rows, item, rows.Keys)
  }

  lemma {:induction false} SumWithout(rows: Rows, item: string, ids: set<Uuid>, id: Uuid)
    requires ids <= rows.Keys && id in ids
    ensures SumOver(rows, item, ids) == Product(rows[id], item) + SumOver(rows, item, ids - {id})
  {
    var first :| first in ids
      && SumOver(rows, item, ids) == Product(rows[first], item) + SumOver(rows, item, ids - {first});
    if first != id {
      SumWithout(rows, item, ids - {first}, id);
      SumWithout(rows, item, ids - {id}, first);
      assert ids - {first} - {id} == ids - {id} - {first};
    }
  }

  lemma {:induction false} SumDependsOnProducts(rows: Rows, other: Rows, item: string, ids: set<Uuid>)
    requires ids <= rows.Keys && ids <= other.Keys
    requires forall id :: id in ids ==> Product(rows[id], item) == Product(other[id], item)
    ensures SumOver(rows, item, ids) == SumOver(other, item, ids)
  {
    if ids != {} {
      var id :| id in ids;
      SumWithout(rows, item, ids, id);
      SumWithout(other, item, ids, id);
      SumDependsOnProducts(rows, other, item, ids - {id});
    }
  }

  /** The sum on the columns: nothing for no rows, and a row adds value * weight exactly when it is a raw one of the
      item with both set. */
  lemma {:induction false} RawSumIs(rows: Rows, item: string, id: Uuid)
    ensures RawSum(map[], item) == 0
    ensures id in rows ==>
      RawSum(rows, item) - RawSum(rows - {id}, item) == (
        if rows[id].item == item && rows[id].level == "raw" && rows[id].value.Some? && rows[id].weight.Some?
        then rows[id].value.value * rows[id].weight.value else 0)
  {
    if id in rows {
      var rest := rows - {id};
      SumWithout(rows, item, rows.Keys, id);
      assert rows.Keys - {id} == rest.Keys;
      SumDependsOnProducts(rows, rest, item, rest.Keys);
    }
  }

  /** The sum does not look at the status: a correction adds the new product and keeps the old one. (A remark
      on that: the sum moves by new - old, as replacing a score should, exactly when the superseded product was
      zero.) */
  lemma CorrectionCountsTwice(db: Db, op: Op, item: string)
    requires op.Correct? && Refusal(db.rows, op).None?
    ensures var before, after := db.rows, Apply(db, op).rows;
      var added, replaced := Product(after[op.newId], item), Product(before[op.id], item);
      && RawSum(after, item) == RawSum(before, item) + added
      && (RawSum(after, item) == RawSum(before, item) + added - replaced <==> replaced == 0)
  {
    var before, after := db.rows, Apply(db, op).rows;
    assert after.Keys == before.Keys + {op.newId};
    SumWithout(after, item, after.Keys, op.newId);
    assert after.Keys - {op.newId} == before.Keys;
    SumDependsOnProducts(before, after, item, before.Keys);
  }
}
