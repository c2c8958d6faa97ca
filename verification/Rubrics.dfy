/**
 Rubrics through their handlers, one request at a time: draft -> active -> archived, weighted criteria and closed
 grade bands. Inputs are the numbers of the request; what is stored is rounded to the column's four decimals.
 */
module Rubrics {
  import opened Common
  import opened Audit
  import opened Decimals

  datatype Status = Draft | Active | Archived

  datatype Rubric = Rubric(
    name: string, version: nat, scope: Option<string>, status: Status, archiveReason: Option<string>,
    metadata: Option<string>, createdBy: string, updatedBy: string)

  /** `weight` in ten-thousandths (NUMERIC(5,4)). */
  datatype Criterion = Criterion(id: Uuid, rubric: Uuid, item: Uuid, weight: int)

  /** A closed interval, ends in ten-thousandths (NUMERIC(8,4)). */
  datatype Band = Band(id: Uuid, rubric: Uuid, letter: string, min: int, max: int)

  datatype Action = RubricCreated | RubricUpdated | RubricArchived | CriterionAdded | BandAdded

  datatype Details =
    | ForCreate(rubric: Uuid, name: string, version: nat)
    | ForUpdate(rubric: Uuid)
    | ForArchive(rubric: Uuid, reason: string)
    | ForCriterion(rubric: Uuid, criterion: Uuid, item: Uuid)
    | ForBand(rubric: Uuid, band: Uuid, letter: string)

  type RbEvent = Event<Action, Details>

  datatype Db = Db(rubrics: map<Uuid, Rubric>, criteria: seq<Criterion>, bands: seq<Band>, log: seq<RbEvent>)

  datatype Error =
    | InvalidInput | NotFound | ArchivedRubric | InvalidStatus | Conflict
    | WeightSum | WeightOutOfBounds | Overlap | Constraint

  const MAX_NAME_LEN := 64
  const MAX_SCOPE_LEN := 64  // rubrics.scope VARCHAR(64)
  const MAX_LETTER_LEN := 8  // rubric_bands.letter VARCHAR(8)
  const SCALE := 10000

  const STATUSES: map<string, Status> := map["draft" := Draft, "active" := Active, "archived" := Archived]

  const TRANSITIONS: map<Status, set<Status>> := map[Draft := {Active}, Active := {Archived}, Archived := {}]

  predicate ValidTransition(current: Status, next: string) {
    next in STATUSES && current in TRANSITIONS && STATUSES[next] in TRANSITIONS[current]
  }

  function ScopeArg(scope: string): Option<string> {
    if Blank(scope) then None else Some(scope)
  }

  /** A blank scope is stored as NULL, any other must fit its column. */
  predicate ScopeFits(scope: string) {
    Blank(scope) || |scope| <= MAX_SCOPE_LEN
  }

  function Stored(x: real): int { Round(x, SCALE) }

  function Number(units: int): real { Value(units, SCALE) }

  // ----- the queries -----

  function CriteriaOf(criteria: seq<Criterion>, rubric: Uuid): seq<Criterion> {
    if criteria == [] then []
    else
      var init := CriteriaOf(criteria[..|criteria| - 1], rubric);
      if criteria[|criteria| - 1].rubric == rubric then init + [criteria[|criteria| - 1]] else init
  }

  function BandsOf(bands: seq<Band>, rubric: Uuid): (r: seq<Band>)
    ensures forall b :: b in r <==> b in bands && b.rubric == rubric
  {
    if bands == [] then []
    else
      assert bands == bands[..|bands| - 1] + [bands[|bands| - 1]];
      var init := BandsOf(bands[..|bands| - 1], rubric);
      if bands[|bands| - 1].rubric == rubric then init + [bands[|bands| - 1]] else init
  }

  function TotalWeight(criteria: seq<Criterion>): int {
    if criteria == [] then 0 else TotalWeight(criteria[..|criteria| - 1]) + criteria[|criteria| - 1].weight
  }

  /** CountRubrics("active", scope) > 0; a blank scope is no filter at all. */
  predicate ActiveExists(rubrics: map<Uuid, Rubric>, scope: string) {
    exists id :: id in rubrics && rubrics[id].status == Active && (Blank(scope) || rubrics[id].scope == Some(scope))
  }

  predicate SameActive(a: Rubric, b: Rubric) {
    a.status == Active && b.status == Active && a.name == b.name && a.scope == b.scope
  }

  /** rubrics_active_unique_idx: one active rubric per (name, scope). NULL scopes are never equal. */
  predicate ViolatesActiveIndex(rubrics: map<Uuid, Rubric>, id: Uuid, row: Rubric) {
    && row.status == Active && row.scope.Some?
    && (exists other :: other in rubrics && other != id && SameActive(rubrics[other], row))
  }

  predicate FitsColumn(x: real) { -100000000 < Stored(x) < 100000000 }

  /** rubric_bands_no_overlap: numrange '[]' && numrange '[]'. */
  predicate Touch(a: Band, b: Band) { a.min <= b.max && b.min <= a.max }

  // ----- the requests -----

  datatype Op =
    | Create(id: Uuid, name: string, scope: string, metadata: Option<string>)
    | Update(id: Uuid, name: string, scope: string, status: string, metadata: Option<string>)
    | Archive(id: Uuid, reason: string)
    | AddCriterion(id: Uuid, criterion: Uuid, item: Uuid, itemExists: bool, weight: real)
    | AddBand(id: Uuid, band: Uuid, letter: string, min: real, max: real)

  datatype Request = Request(at: int, user: string, op: Op)

  predicate KeepsStatus(row: Rubric, status: string) {
    Blank(status) || (status in STATUSES && STATUSES[status] == row.status)
  }

  function UpdatedRow(row: Rubric, op: Op, actor: string): Rubric
    requires op.Update?
  {
    row.(name := op.name, scope := ScopeArg(op.scope),
         status := if KeepsStatus(row, op.status) || op.status !in STATUSES then row.status else STATUSES[op.status],
         metadata := op.metadata, updatedBy := actor)
  }

  /** rubrics_archive_reason_chk */
  predicate ReasonOk(row: Rubric) {
    row.status == Archived ==> row.archiveReason.Some? && row.archiveReason.value != ""
  }

  function UpdateRefusal(db: Db, op: Op): Option<Error>
    requires op.Update?
  {
    if op.id !in db.rubrics then Some(NotFound)
    else
      var row := db.rubrics[op.id];
      if row.status == Draft && op.status == "active" && ActiveExists(db.rubrics, op.scope) then Some(Conflict)
      else if Blank(op.name) || |op.name| > MAX_NAME_LEN then Some(InvalidInput)
      else if row.status == Archived then Some(ArchivedRubric)
      else if !KeepsStatus(row, op.status) && !ValidTransition(row.status, op.status) then Some(InvalidStatus)
      else if !ScopeFits(op.scope) || !ReasonOk(UpdatedRow(row, op, ""))
        || ViolatesActiveIndex(db.rubrics, op.id, UpdatedRow(row, op, "")) then Some(Constraint)
      else None
  }

  function CriterionRefusal(db: Db, op: Op): Option<Error>
    requires op.AddCriterion?
  {
    if !op.itemExists then Some(NotFound)
    else if Number(TotalWeight(CriteriaOf(db.criteria, op.id))) + op.weight > 1.0 then Some(WeightSum)
    else if op.weight < 0.0 || op.weight > 1.0 then Some(WeightOutOfBounds)
    else if op.id !in db.rubrics then Some(NotFound)
    else if db.rubrics[op.id].status == Archived then Some(ArchivedRubric)
    else None
  }

  /** The handler's own overlap test, on the numbers of the request. */
  predicate Overlaps(b: Band, min: real, max: real) {
    min <= Number(b.max) && max >= Number(b.min)
  }

  function NewBand(op: Op): Band
    requires op.AddBand?
  {
    Band(op.band, op.id, op.letter, Stored(op.min), Stored(op.max))
  }

  function BandRefusal(db: Db, op: Op): Option<Error>
    requires op.AddBand?
  {
    if Blank(op.letter) then Some(InvalidInput)
    else if exists b :: b in BandsOf(db.bands, op.id) && Overlaps(b, op.min, op.max) then Some(Overlap)
    else if op.min >= op.max then Some(InvalidInput)
    else if op.id !in db.rubrics then Some(NotFound)
    else if db.rubrics[op.id].status == Archived then Some(ArchivedRubric)
    else if |op.letter| > MAX_LETTER_LEN || !FitsColumn(op.min) || !FitsColumn(op.max)
      || Stored(op.min) >= Stored(op.max)
      || exists b :: b in BandsOf(db.bands, op.id) && Touch(b, NewBand(op)) then Some(Constraint)
    else None
  }

  /** Why a request is refused, in the order of the checks; the column and index constraints come last. */
  function Refusal(db: Db, op: Op): Option<Error> {
    match op
    case Create(id, name, scope, metadata) =>
      if Blank(name) || |name| > MAX_NAME_LEN then Some(InvalidInput)
      else if id in db.rubrics || !ScopeFits(scope) then Some(Constraint)
      else None
    case Update(_, _, _, _, _) => UpdateRefusal(db, op)
    case Archive(id, reason) =>
      if Blank(reason) then Some(InvalidInput)
      else if id !in db.rubrics then Some(NotFound)
      else if db.rubrics[id].status != Active then Some(InvalidStatus)
      else None
    case AddCriterion(_, _, _, _, _) => CriterionRefusal(db, op)
    case AddBand(_, _, _, _, _) => BandRefusal(db, op)
  }

  function EventFor(r: Request): RbEvent {
    var user := ResolveUser(true, ResolveActor(r.user));
    match r.op
    case Create(id, name, scope, metadata) => Event(r.at, RubricCreated, id, user, ForCreate(id, name, 1))
    case Update(id, _, _, _, _) => Event(r.at, RubricUpdated, id, user, ForUpdate(id))
    case Archive(id, reason) => Event(r.at, RubricArchived, id, user, ForArchive(id, reason))
    case AddCriterion(id, criterion, item, _, _) => Event(r.at, CriterionAdded, criterion, user,
        ForCriterion(id, criterion, item))
    case AddBand(id, band, letter, _, _) => Event(r.at, BandAdded, band, user, ForBand(id, band, letter))
  }

  function RubricsAfter(rubrics: map<Uuid, Rubric>, op: Op, actor: string): map<Uuid, Rubric> {
    match op
    case Create(id, name, scope, metadata) =>
      rubrics[id := Rubric(name, 1, ScopeArg(scope), Draft, None, metadata, actor, actor)]
    case Update(id, _, _, _, _) => if id in rubrics then rubrics[id := UpdatedRow(rubrics[id], op, actor)] else rubrics
    case Archive(id, reason) =>
      if id in rubrics then
        rubrics[id := rubrics[id].(status := Archived, archiveReason := Some(reason), updatedBy := actor)]
      else rubrics
    case _ => rubrics
  }

  function Apply(db: Db, r: Request): Db {
    if Refusal(db, r.op).Some? then db
    else Db(
      RubricsAfter(db.rubrics, r.op, ResolveActor(r.user)),
      if r.op.AddCriterion? then
        db.criteria + [Criterion(r.op.criterion, r.op.id, r.op.item, Stored(r.op.weight))]
      else db.criteria,
      if r.op.AddBand? then db.bands + [NewBand(r.op)] else db.bands,
      db.log + [EventFor(r)])
  }

  function Run(rs: seq<Request>): Db {
    if rs == [] then Db(map[], [], [], []) else Apply(Run(rs[..|rs| - 1]), rs[|rs| - 1])
  }

  // ----- what a request does, column by column -----

  /** The rubrics other than `id` are as they were, and one event was appended, by the named user or the default one. */
  ghost predicate Logs(db: Db, n: Db, r: Request, action: Action, resource: Uuid, details: Details) {
    && (forall other :: other in db.rubrics && other != r.op.id ==>
      other in n.rubrics && n.rubrics[other] == db.rubrics[other])
    && n.rubrics.Keys == db.rubrics.Keys + (if r.op.Create? then {r.op.id} else {})
    && |n.log| == |db.log| + 1 && n.log[..|db.log|] == db.log
    && var e := n.log[|db.log|];
      && e.at == r.at && e.action == action && e.resourceId == resource && e.userId == Actor(r.user)
      && e.details == details
  }

  function Actor(user: string): string {
    if Blank(user) then "cli-anonymous" else user
  }

  predicate ScopeIs(scope: Option<string>, given: string) {
    if Blank(given) then scope.None? else scope == Some(given)
  }

  /** The status an update asks for, for a row that is not archived. */
  predicate Becomes(was: Status, asked: string, now: Status) {
    || (Blank(asked) && now == was)
    || (asked == "draft" && was == Draft && now == Draft)
    || (asked == "active" && was in {Draft, Active} && now == Active)
    || (asked == "archived" && was == Active && now == Archived)
  }

  /** An active rubric stands in the way of activating a draft: one with that scope, or any at all if none is given. */
  ghost predicate ActiveInTheWay(rubrics: map<Uuid, Rubric>, scope: string) {
    exists id :: id in rubrics && rubrics[id].status == Active && (Blank(scope) || rubrics[id].scope == Some(scope))
  }

  ghost predicate ActiveNamesake(rubrics: map<Uuid, Rubric>, id: Uuid, name: string, scope: string) {
    exists other :: other in rubrics && other != id && rubrics[other].status == Active
      && rubrics[other].name == name && rubrics[other].scope == Some(scope)
  }

  ghost predicate MayBecome(db: Db, op: Op, row: Rubric, now: Status)
    requires op.Update?
  {
    && Becomes(row.status, op.status, now)
    && (row.status == Draft && now == Active ==> !ActiveInTheWay(db.rubrics, op.scope))
    && (now == Archived ==> row.archiveReason.Some? && row.archiveReason.value != "")
    && (now == Active && !Blank(op.scope) ==> !ActiveNamesake(db.rubrics, op.id, op.name, op.scope))
  }

  /** The stored weights of a rubric leave room for one more. */
  predicate LeavesRoom(criteria: seq<Criterion>, rubric: Uuid, weight: real) {
    Number(TotalWeight(CriteriaOf(criteria, rubric))) + weight <= 1.0
  }

  predicate Editable(db: Db, id: Uuid) {
    id in db.rubrics && db.rubrics[id].status != Archived
  }

  /** A band of the rubric meets the closed interval from `min` to `max`, in the numbers given or as stored. */
  ghost predicate Meets(bands: seq<Band>, id: Uuid, min: real, max: real) {
    exists b :: b in bands && b.rubric == id
      && ((min <= Value(b.max, SCALE) && max >= Value(b.min, SCALE))
          || (b.min <= Round(max, SCALE) && Round(min, SCALE) <= b.max))
  }

  /** The checks a request passes, on the stored columns. */
  ghost predicate Accepts(db: Db, op: Op) {
    match op
    case Create(id, name, scope, _) =>
      !Blank(name) && |name| <= MAX_NAME_LEN && id !in db.rubrics && (Blank(scope) || |scope| <= MAX_SCOPE_LEN)
    case Update(id, name, scope, _, _) =>
      && Editable(db, id) && !Blank(name) && |name| <= MAX_NAME_LEN && (Blank(scope) || |scope| <= MAX_SCOPE_LEN)
      && (exists now: Status :: MayBecome(db, op, db.rubrics[id], now))
    case Archive(id, reason) => !Blank(reason) && id in db.rubrics && db.rubrics[id].status == Active
    case AddCriterion(id, _, _, itemExists, weight) =>
      itemExists && LeavesRoom(db.criteria, id, weight) && 0.0 <= weight <= 1.0 && Editable(db, id)
    case AddBand(id, _, letter, min, max) =>
      && !Blank(letter) && |letter| <= MAX_LETTER_LEN && Editable(db, id)
      && -9999.99995 < min < max < 9999.99995 && Round(min, SCALE) < Round(max, SCALE)
      && !Meets(db.bands, id, min, max)
  }

  /** What an accepted request leaves in the columns, and its event. */
  ghost predicate Did(db: Db, n: Db, r: Request) {
    match r.op
    case Create(id, name, scope, metadata) =>
      && Logs(db, n, r, RubricCreated, id, ForCreate(id, name, 1))
      && n.criteria == db.criteria && n.bands == db.bands
      && var row := n.rubrics[id];
        && row.name == name && row.version == 1 && ScopeIs(row.scope, scope) && row.status == Draft
        && row.archiveReason.None? && row.metadata == metadata
        && row.createdBy == Actor(r.user) && row.updatedBy == Actor(r.user)
    case Update(id, name, scope, status, metadata) =>
      && id in db.rubrics && Logs(db, n, r, RubricUpdated, id, ForUpdate(id))
      && n.criteria == db.criteria && n.bands == db.bands
      && var was, row := db.rubrics[id], n.rubrics[id];
        && row.name == name && row.version == was.version && ScopeIs(row.scope, scope)
        && Becomes(was.status, status, row.status) && row.archiveReason == was.archiveReason
        && row.metadata == metadata && row.createdBy == was.createdBy && row.updatedBy == Actor(r.user)
    case Archive(id, reason) =>
      && id in db.rubrics && Logs(db, n, r, RubricArchived, id, ForArchive(id, reason))
      && n.criteria == db.criteria && n.bands == db.bands
      && var was, row := db.rubrics[id], n.rubrics[id];
        && row.status == Archived && row.archiveReason == Some(reason) && row.updatedBy == Actor(r.user)
        && row.name == was.name && row.version == was.version && row.scope == was.scope
        && row.metadata == was.metadata && row.createdBy == was.createdBy
    case AddCriterion(id, criterion, item, _, weight) =>
      && Logs(db, n, r, CriterionAdded, criterion, ForCriterion(id, criterion, item))
      && n.rubrics == db.rubrics && n.bands == db.bands
      && |n.criteria| == |db.criteria| + 1 && n.criteria[..|db.criteria|] == db.criteria
      && var c := n.criteria[|db.criteria|];
        c.id == criterion && c.rubric == id && c.item == item && c.weight == Round(weight, SCALE)
    case AddBand(id, band, letter, min, max) =>
      && Logs(db, n, r, BandAdded, band, ForBand(id, band, letter))
      && n.rubrics == db.rubrics && n.criteria == db.criteria
      && |n.bands| == |db.bands| + 1 && n.bands[..|db.bands|] == db.bands
      && var b := n.bands[|db.bands|];
        && b.id == band && b.rubric == id && b.letter == letter
        && b.min == Round(min, SCALE) && b.max == Round(max, SCALE)
  }

  lemma NamedStatuses(s: string)
    ensures s in STATUSES <==> s in {"draft", "active", "archived"}
    ensures s in STATUSES ==> !Blank(s)
  {
    assert !IsSpace("draft"[0]) && !IsSpace("active"[0]) && !IsSpace("archived"[0]);
  }

  lemma StatusBecomes(row: Rubric, op: Op, now: Status)
    requires op.Update? && row.status != Archived
    ensures Becomes(row.status, op.status, now) <==>
      && (KeepsStatus(row, op.status) || ValidTransition(row.status, op.status))
      && now == UpdatedRow(row, op, "").status
  {
    NamedStatuses(op.status);
  }

  lemma UpdateAccepts(db: Db, op: Op)
    requires op.Update?
    ensures UpdateRefusal(db, op).None? <==> Accepts(db, op)
  {
    if Editable(db, op.id) {
      var row := db.rubrics[op.id];
      var next := UpdatedRow(row, op, "");
      forall now: Status ensures MayBecome(db, op, row, now) <==> now == next.status && MayBecome(db, op, row, now) {
        StatusBecomes(row, op, now);
      }
      StatusBecomes(row, op, next.status);
      NamedStatuses(op.status);
      NamesakeIsIndexed(db.rubrics, op.id, next, op);
      assert Accepts(db, op) <==>
        && !Blank(op.name) && |op.name| <= MAX_NAME_LEN && (Blank(op.scope) || |op.scope| <= MAX_SCOPE_LEN)
        && MayBecome(db, op, row, next.status);
    }
  }

  lemma NamesakeIsIndexed(rubrics: map<Uuid, Rubric>, id: Uuid, row: Rubric, op: Op)
    requires op.Update? && row.name == op.name && row.scope == ScopeArg(op.scope)
    ensures ViolatesActiveIndex(rubrics, id, row) <==>
      row.status == Active && !Blank(op.scope) && ActiveNamesake(rubrics, id, op.name, op.scope)
  {
  }

  lemma RefusesIff(db: Db, op: Op)
    ensures Refusal(db, op).None? <==> Accepts(db, op)
  {
    match op
    case Create(_, _, _, _) =>
    case Update(_, _, _, _, _) => UpdateAccepts(db, op);
    case Archive(_, _) =>
    case AddCriterion(_, _, _, _, _) =>
    case AddBand(_, _, _, _, _) => BandAccepts(db, op);
  }

  lemma FitsIff(x: real)
    ensures FitsColumn(x) <==> -9999.99995 < x < 9999.99995
  {
  }

  lemma BandAccepts(db: Db, op: Op)
    requires op.AddBand?
    ensures BandRefusal(db, op).None? <==> Accepts(db, op)
  {
    FitsIff(op.min);
    FitsIff(op.max);
    forall b: Band
      ensures Overlaps(b, op.min, op.max) <==> op.min <= Value(b.max, SCALE) && op.max >= Value(b.min, SCALE)
      ensures Touch(b, NewBand(op)) <==> b.min <= Round(op.max, SCALE) && Round(op.min, SCALE) <= b.max
    {
    }
    if Meets(db.bands, op.id, op.min, op.max) {
      var b :| b in db.bands && b.rubric == op.id && (Overlaps(b, op.min, op.max) || Touch(b, NewBand(op)));
      assert b in BandsOf(db.bands, op.id);
    }
  }

  lemma UpdateDid(db: Db, r: Request)
    requires r.op.Update? && Refusal(db, r.op).None?
    ensures Did(db, Apply(db, r), r)
  {
    StatusBecomes(db.rubrics[r.op.id], r.op, UpdatedRow(db.rubrics[r.op.id], r.op, "").status);
  }

  /** A request does what it asks, column by column, exactly when its checks pass, and nothing otherwise. */
  lemma RequestDoes(db: Db, r: Request)
    ensures Refusal(db, r.op).None? <==> Accepts(db, r.op)
    ensures if Accepts(db, r.op) then Did(db, Apply(db, r), r) else Apply(db, r) == db
  {
    RefusesIff(db, r.op);
    if Accepts(db, r.op) && r.op.Update? { UpdateDid(db, r); }
  }

  /** Which check a request fails, on the columns. */
  lemma RefusalSays(db: Db, op: Op)
    ensures op.Update? ==>
      && (Refusal(db, op) == Some(NotFound) <==> op.id !in db.rubrics)
      && (Refusal(db, op) == Some(Conflict) <==>
        && op.id in db.rubrics && db.rubrics[op.id].status == Draft && op.status == "active"
        && ActiveInTheWay(db.rubrics, op.scope))
      && (Refusal(db, op) == Some(ArchivedRubric) <==>
        && op.id in db.rubrics && db.rubrics[op.id].status == Archived
        && !Blank(op.name) && |op.name| <= MAX_NAME_LEN)
    ensures op.Archive? ==>
      && (Refusal(db, op) == Some(InvalidInput) <==> Blank(op.reason))
      && (Refusal(db, op) == Some(InvalidStatus) <==>
        !Blank(op.reason) && op.id in db.rubrics && db.rubrics[op.id].status != Active)
    ensures op.AddCriterion? ==>
      && (Refusal(db, op) == Some(WeightSum) <==> op.itemExists && !LeavesRoom(db.criteria, op.id, op.weight))
      && (Refusal(db, op) == Some(WeightOutOfBounds) <==>
        op.itemExists && LeavesRoom(db.criteria, op.id, op.weight) && !(0.0 <= op.weight <= 1.0))
    ensures op.AddBand? ==>
      (Refusal(db, op) == Some(Overlap) <==>
        && !Blank(op.letter)
        && exists b :: b in db.bands && b.rubric == op.id
            && op.min <= Value(b.max, SCALE) && op.max >= Value(b.min, SCALE))
  {
    if op.AddBand? {
      forall b: Band
        ensures Overlaps(b, op.min, op.max) <==> op.min <= Value(b.max, SCALE) && op.max >= Value(b.min, SCALE)
      {
      }
    }
  }

  class RubricTables {
    var rubrics: map<Uuid, Rubric>
    var criteria: seq<Criterion>
    var bands: seq<Band>
    var log: seq<RbEvent>

    ghost function Contents(): Db
      reads this
    {
      Db(rubrics, criteria, bands, log)
    }

    constructor ()
      ensures Contents() == Db(map[], [], [], [])
    {
      rubrics, criteria, bands, log := map[], [], [], [];
    }

    method HandleCreateRubric(at: int, user: string, id: Uuid, name: string, scope: string, metadata: Option<string>)
      returns (error: Option<Error>)
      modifies this
      ensures var op := Create(id, name, scope, metadata);
        && Contents() == Apply(old(Contents()), Request(at, user, op))
        && error == Refusal(old(Contents()), op)
      ensures error.None? <==> Accepts(old(Contents()), Create(id, name, scope, metadata))
      ensures error.None? ==>
        Did(old(Contents()), Contents(), Request(at, user, Create(id, name, scope, metadata)))
      ensures error.Some? ==> Contents() == old(Contents())
    {
      RequestDoes(Contents(), Request(at, user, Create(id, name, scope, metadata)));
      if Blank(name) { return Some(InvalidInput); }
      if |name| > MAX_NAME_LEN { return Some(InvalidInput); }
      if id in rubrics || !ScopeFits(scope) { return Some(Constraint); }
      var actor := ResolveActor(user);
      rubrics := rubrics[id := Rubric(name, 1, ScopeArg(scope), Draft, None, metadata, actor, actor)];
      log := log + [Event(at, RubricCreated, id, ResolveUser(true, actor), ForCreate(id, name, 1))];
      return None;
    }

    method HandleUpdateRubric(at: int, user: string, id: Uuid, name: string, scope: string, status: string,
        metadata: Option<string>)
      returns (error: Option<Error>)
      modifies this
      ensures var op := Update(id, name, scope, status, metadata);
        && Contents() == Apply(old(Contents()), Request(at, user, op))
        && error == Refusal(old(Contents()), op)
      ensures error.None? <==> Accepts(old(Contents()), Update(id, name, scope, status, metadata))
      ensures error.None? ==>
        Did(old(Contents()), Contents(), Request(at, user, Update(id, name, scope, status, metadata)))
      ensures error.Some? ==> Contents() == old(Contents())
    {
      RequestDoes(Contents(), Request(at, user, Update(id, name, scope, status, metadata)));
      ghost var op := Update(id, name, scope, status, metadata);
      if id !in rubrics { return Some(NotFound); }
      var current := rubrics[id];
      if current.status == Draft && status == "active" {
        if ActiveExists(rubrics, scope) { return Some(Conflict); }
      }
      if Blank(name) || |name| > MAX_NAME_LEN { return Some(InvalidInput); }
      if current.status == Archived { return Some(ArchivedRubric); }
      var effective := current.status;
      if !KeepsStatus(current, status) {
        if !ValidTransition(current.status, status) { return Some(InvalidStatus); }
        effective := STATUSES[status];
      }
      var actor := ResolveActor(user);
      var row := current.(
        name := name, scope := ScopeArg(scope), status := effective, metadata := metadata, updatedBy := actor);
      assert row == UpdatedRow(current, op, actor);
      if !ScopeFits(scope) || !ReasonOk(row) || ViolatesActiveIndex(rubrics, id, row) { return Some(Constraint); }
      rubrics := rubrics[id := row];
      log := log + [Event(at, RubricUpdated, id, ResolveUser(true, actor), ForUpdate(id))];
      return None;
    }

    method HandleArchiveRubric(at: int, user: string, id: Uuid, reason: string) returns (error: Option<Error>)
      modifies this
      ensures Contents() == Apply(old(Contents()), Request(at, user, Archive(id, reason)))
      ensures error == Refusal(old(Contents()), Archive(id, reason))
      ensures error.None? <==> Accepts(old(Contents()), Archive(id, reason))
      ensures error.None? ==>
        Did(old(Contents()), Contents(), Request(at, user, Archive(id, reason)))
      ensures error.Some? ==> Contents() == old(Contents())
    {
      RequestDoes(Contents(), Request(at, user, Archive(id, reason)));
      if Blank(reason) { return Some(InvalidInput); }
      if id !in rubrics { return Some(NotFound); }
      var current := rubrics[id];
      if current.status == Archived { return Some(InvalidStatus); }
      if !ValidTransition(current.status, "archived") { return Some(InvalidStatus); }
      var actor := ResolveActor(user);
      rubrics := rubrics[id := current.(status := Archived, archiveReason := Some(reason), updatedBy := actor)];
      log := log + [Event(at, RubricArchived, id, ResolveUser(true, actor), ForArchive(id, reason))];
      return None;
    }

    method HandleAddCriterion(at: int, user: string, id: Uuid, criterion: Uuid, item: Uuid, itemExists: bool,
        weight: real)
      returns (error: Option<Error>)
      modifies this
      ensures var op := AddCriterion(id, criterion, item, itemExists, weight);
        && Contents() == Apply(old(Contents()), Request(at, user, op))
        && error == Refusal(old(Contents()), op)
      ensures error.None? <==> Accepts(old(Contents()), AddCriterion(id, criterion, item, itemExists, weight))
      ensures error.None? ==>
        Did(old(Contents()), Contents(), Request(at, user, AddCriterion(id, criterion, item, itemExists, weight)))
      ensures error.Some? ==> Contents() == old(Contents())
    {
      RequestDoes(Contents(), Request(at, user, AddCriterion(id, criterion, item, itemExists, weight)));
      if !itemExists { return Some(NotFound); }
      var existing := CriteriaOf(criteria, id);
      var sumExisting := 0.0;
      for i := 0 to |existing|
        invariant sumExisting == Number(TotalWeight(existing[..i]))
      {
        assert existing[..i + 1][..i] == existing[..i];
        sumExisting := sumExisting + Number(existing[i].weight);
      }
      assert existing[..|existing|] == existing;
      if sumExisting + weight > 1.0 { return Some(WeightSum); }
      if weight < 0.0 || weight > 1.0 { return Some(WeightOutOfBounds); }
      if id !in rubrics { return Some(NotFound); }
      if rubrics[id].status == Archived { return Some(ArchivedRubric); }
      criteria := criteria + [Criterion(criterion, id, item, Stored(weight))];
      log := log + [Event(at, CriterionAdded, criterion, ResolveUser(true, ResolveActor(user)),
          ForCriterion(id, criterion, item))];
      return None;
    }

    method HandleAddBand(at: int, user: string, id: Uuid, band: Uuid, letter: string, min: real, max: real)
      returns (error: Option<Error>)
      modifies this
      ensures var op := AddBand(id, band, letter, min, max);
        && Contents() == Apply(old(Contents()), Request(at, user, op))
        && error == Refusal(old(Contents()), op)
      ensures error.None? <==> Accepts(old(Contents()), AddBand(id, band, letter, min, max))
      ensures error.None? ==>
        Did(old(Contents()), Contents(), Request(at, user, AddBand(id, band, letter, min, max)))
      ensures error.Some? ==> Contents() == old(Contents())
    {
      RequestDoes(Contents(), Request(at, user, AddBand(id, band, letter, min, max)));
      if Blank(letter) { return Some(InvalidInput); }
      var existing := BandsOf(bands, id);
      for i := 0 to |existing|
        invariant forall k :: 0 <= k < i ==> !Overlaps(existing[k], min, max)
      {
        if min <= Number(existing[i].max) && max >= Number(existing[i].min) {
          assert existing[i] in existing && Overlaps(existing[i], min, max);
          return Some(Overlap);
        }
      }
      if min >= max { return Some(InvalidInput); }
      if id !in rubrics { return Some(NotFound); }
      if rubrics[id].status == Archived { return Some(ArchivedRubric); }
      var row := Band(band, id, letter, Stored(min), Stored(max));
      if |letter| > MAX_LETTER_LEN || !FitsColumn(min) || !FitsColumn(max) || row.min >= row.max {
        return Some(Constraint);
      }
      if exists b :: b in existing && Touch(b, row) { return Some(Constraint); }
      bands := bands + [row];
      log := log + [Event(at, BandAdded, band, ResolveUser(true, ResolveActor(user)), ForBand(id, band, letter))];
      return None;
    }

    /** The scan over the bands of one rubric, in whatever order the query returns them. */
    method ApplyRubric(id: Uuid, score: real, scan: seq<Band>) returns (r: Result<Band, Error>)
      requires multiset(scan) == multiset(BandsOf(bands, id))
      ensures r.Ok? ==> id in rubrics && r.value in BandsOf(bands, id) && Contains(r.value, score)
      ensures r == Err(NotFound) <==> id !in rubrics
      ensures r == Err(InvalidInput) <==> id in rubrics && forall b :: b in BandsOf(bands, id) ==> !Contains(b, score)
      ensures r.Err? ==> r.error == NotFound || r.error == InvalidInput
    {
      if id !in rubrics { return Err(NotFound); }
      forall b ensures b in scan <==> b in BandsOf(bands, id) {
        assert b in multiset(scan) <==> b in multiset(BandsOf(bands, id));
      }
      for i := 0 to |scan|
        invariant forall k :: 0 <= k < i ==> !Contains(scan[k], score)
      {
        if score >= Number(scan[i].min) && score <= Number(scan[i].max) {
          assert scan[i] in scan;
          return Ok(scan[i]);
        }
      }
      return Err(InvalidInput);
    }
  }

  predicate Contains(b: Band, score: real) {
    Number(b.min) <= score <= Number(b.max)
  }

  // ----- the invariant -----

  ghost predicate BandsOk(bands: seq<Band>) {
    && (forall i :: 0 <= i < |bands| ==> bands[i].min < bands[i].max)
    && (forall i, j :: 0 <= i < j < |bands| && bands[i].rubric == bands[j].rubric ==> !Touch(bands[i], bands[j]))
  }

  ghost predicate WeightsOk(criteria: seq<Criterion>) {
    && (forall i :: 0 <= i < |criteria| ==> 0 <= criteria[i].weight <= SCALE)
    && (forall rubric :: 0 <= TotalWeight(CriteriaOf(criteria, rubric)) <= SCALE)
  }

  ghost predicate RowOk(row: Rubric) {
    if row.status == Archived then row.archiveReason.Some? && !Blank(row.archiveReason.value)
    else row.archiveReason.None?
  }

  ghost predicate RowsOk(rubrics: map<Uuid, Rubric>) {
    && (forall id :: id in rubrics ==> RowOk(rubrics[id]))
    && (forall a, b ::
      a in rubrics && b in rubrics && a != b && SameActive(rubrics[a], rubrics[b]) ==> rubrics[a].scope.None?)
  }

  lemma BandStep(db: Db, r: Request)
    requires BandsOk(db.bands)
    ensures BandsOk(Apply(db, r).bands)
  {
  }

  /** The stored weights of a rubric sum to zero at first, and a criterion adds its weight to its own rubric's sum. */
  lemma WeightsSnoc(criteria: seq<Criterion>, c: Criterion, rubric: Uuid)
    ensures TotalWeight(CriteriaOf(criteria + [c], rubric))
         == TotalWeight(CriteriaOf(criteria, rubric)) + if c.rubric == rubric then c.weight else 0
    ensures TotalWeight(CriteriaOf([], rubric)) == 0
  {
  }

  /** A weight that fits under what is left fits after rounding too: what is left is a multiple of the column's unit. */
  lemma StoredWeightFits(total: int, weight: real)
    requires 0 <= total <= SCALE && 0.0 <= weight && Number(total) + weight <= 1.0
    ensures 0 <= Stored(weight) <= SCALE - total
  {
    assert weight <= Number(SCALE - total);
    RoundBelow(weight, SCALE - total, SCALE);
    RoundMonotone(0.0, weight, SCALE);
  }

  lemma WeightStep(db: Db, r: Request)
    requires WeightsOk(db.criteria)
    ensures WeightsOk(Apply(db, r).criteria)
  {
    if r.op.AddCriterion? && CriterionRefusal(db, r.op).None? {
      var c := Criterion(r.op.criterion, r.op.id, r.op.item, Stored(r.op.weight));
      StoredWeightFits(TotalWeight(CriteriaOf(db.criteria, r.op.id)), r.op.weight);
      forall rubric ensures 0 <= TotalWeight(CriteriaOf(db.criteria + [c], rubric)) <= SCALE {
        WeightsSnoc(db.criteria, c, rubric);
      }
    }
  }

  lemma RowStep(db: Db, r: Request)
    requires RowsOk(db.rubrics)
    ensures RowsOk(Apply(db, r).rubrics)
  {
    var n := Apply(db, r).rubrics;
    forall id | id in n ensures RowOk(n[id]) {
      if id in db.rubrics { assert RowOk(db.rubrics[id]); }
    }
    forall a, b | a in n && b in n && a != b && SameActive(n[a], n[b]) ensures n[a].scope.None? {
      if n != db.rubrics { ActiveStep(db, r, a, b); }
    }
  }

  lemma ActiveStep(db: Db, r: Request, a: Uuid, b: Uuid)
    requires RowsOk(db.rubrics) && Refusal(db, r.op).None?
    requires a in Apply(db, r).rubrics && b in Apply(db, r).rubrics && a != b
    requires SameActive(Apply(db, r).rubrics[a], Apply(db, r).rubrics[b])
    ensures Apply(db, r).rubrics[a].scope.None?
  {
  }

  lemma {:induction false} RunKeepsInv(rs: seq<Request>)
    ensures BandsOk(Run(rs).bands) && WeightsOk(Run(rs).criteria) && RowsOk(Run(rs).rubrics)
  {
    if rs != [] {
      var db, r := Run(rs[..|rs| - 1]), rs[|rs| - 1];
      RunKeepsInv(rs[..|rs| - 1]);
      BandStep(db, r);
      WeightStep(db, r);
      RowStep(db, r);
    }
  }

  // ----- main results -----

  /** In every run the bands of a rubric are disjoint closed intervals, so at most one of them contains a score and the
      scan returns it whatever the order: two scans cannot disagree. */
  lemma {:induction false} ContainingBandIsUnique(rs: seq<Request>, id: Uuid, score: real, a: Band, b: Band)
    requires var bands := BandsOf(Run(rs).bands, id);
      a in bands && b in bands && Contains(a, score) && Contains(b, score)
    ensures a == b
  {
    RunKeepsInv(rs);
    DisjointContain(Run(rs).bands, a, b, score);
  }

  lemma DisjointContain(bands: seq<Band>, a: Band, b: Band, score: real)
    requires BandsOk(bands) && a in bands && b in bands && a.rubric == b.rubric && Contains(a, score)
        && Contains(b, score)
    ensures a == b
  {
    var i :| 0 <= i < |bands| && bands[i] == a;
    var j :| 0 <= j < |bands| && bands[j] == b;
    NumberOrder(a.min, b.max, score);
    NumberOrder(b.min, a.max, score);
    if i < j { assert Touch(bands[i], bands[j]); }
    if j < i { assert Touch(bands[j], bands[i]); }
  }

  lemma NumberOrder(lo: int, hi: int, score: real)
    requires Number(lo) <= score <= Number(hi)
    ensures lo <= hi
  {
  }

  /** In every run each stored weight is in [0,1] and the stored weights of a rubric sum to at most 1, although the
      handler checks the weight before it is rounded. */
  lemma {:induction false} WeightsStayBounded(rs: seq<Request>, id: Uuid)
    ensures var cs := CriteriaOf(Run(rs).criteria, id);
      && Number(TotalWeight(cs)) <= 1.0
      && (forall c :: c in cs ==> 0.0 <= Number(c.weight) <= 1.0)
  {
    RunKeepsInv(rs);
    CriteriaAreRows(Run(rs).criteria, id);
  }

  lemma {:induction false} CriteriaAreRows(criteria: seq<Criterion>, id: Uuid)
    ensures forall c :: c in CriteriaOf(criteria, id) ==> c in criteria
  {
    if criteria != [] {
      CriteriaAreRows(criteria[..|criteria| - 1], id);
      assert criteria == criteria[..|criteria| - 1] + [criteria[|criteria| - 1]];
    }
  }

  /** The rubric `id`, its criteria and its bands are the same in both. */
  ghost predicate SameRubric(s: Db, n: Db, id: Uuid) {
    && id in s.rubrics && id in n.rubrics && n.rubrics[id] == s.rubrics[id]
    && CriteriaOf(n.criteria, id) == CriteriaOf(s.criteria, id)
    && BandsOf(n.bands, id) == BandsOf(s.bands, id)
  }

  lemma ArchivedStep(db: Db, r: Request, id: Uuid)
    requires id in db.rubrics && db.rubrics[id].status == Archived
    ensures SameRubric(db, Apply(db, r), id)
  {
    var n := Apply(db, r);
    if n.criteria != db.criteria {
      assert n.criteria[..|db.criteria|] == db.criteria;
    }
    if n.bands != db.bands {
      assert n.bands[..|db.bands|] == db.bands;
    }
  }

  lemma SameThenSame(s: Db, m: Db, n: Db, id: Uuid)
    requires SameRubric(s, m, id) && SameRubric(m, n, id)
    ensures SameRubric(s, n, id)
  {
  }

  /** Once archived, a rubric, its criteria and its bands never change. */
  lemma {:induction false} ArchivedIsFrozen(rs: seq<Request>, more: seq<Request>, id: Uuid)
    requires id in Run(rs).rubrics && Run(rs).rubrics[id].status == Archived
    ensures SameRubric(Run(rs), Run(rs + more), id)
  {
    if more == [] {
      assert rs + more == rs;
    } else {
      var k := |more| - 1;
      var m := Run(rs + more[..k]);
      ArchivedIsFrozen(rs, more[..k], id);
      ArchivedStep(m, more[k], id);
      SameThenSame(Run(rs), m, Apply(m, more[k]), id);
      assert (rs + more)[..|rs + more| - 1] == rs + more[..k];
    }
  }

  /** ... and it carries a non-blank reason, as nothing else does. */
  lemma {:induction false} ReasonIffArchived(rs: seq<Request>, id: Uuid)
    requires id in Run(rs).rubrics
    ensures var row := Run(rs).rubrics[id];
      && (row.archiveReason.Some? <==> row.status == Archived)
      && (row.archiveReason.Some? ==> !Blank(row.archiveReason.value))
  {
    RunKeepsInv(rs);
    assert RowOk(Run(rs).rubrics[id]);
  }

  /** UpdateRubric's table allows active -> archived, but no such request is ever accepted: the row has no reason
      yet. */
  lemma {:induction false} UpdateNeverArchives(rs: seq<Request>, op: Op)
    requires op.Update? && op.id in Run(rs).rubrics && Run(rs).rubrics[op.id].status == Active
        && op.status == "archived"
    ensures Refusal(Run(rs), op).Some?
  {
    RunKeepsInv(rs);
    assert RowOk(Run(rs).rubrics[op.id]);
    assert !IsSpace(op.status[0]);
  }

  /** Two active rubrics share name and scope only when that scope is NULL. */
  lemma {:induction false} ActiveIsUniquePerScope(rs: seq<Request>, a: Uuid, b: Uuid)
    requires a in Run(rs).rubrics && b in Run(rs).rubrics && a != b
    requires SameActive(Run(rs).rubrics[a], Run(rs).rubrics[b])
    ensures Run(rs).rubrics[a].scope.None?
  {
    RunKeepsInv(rs);
  }

  /** One active rubric per (name, scope), a missing scope counting as one. */
  ghost predicate UniqueActive(rubrics: map<Uuid, Rubric>) {
    forall a, b :: a in rubrics && b in rubrics && a != b ==> !SameActive(rubrics[a], rubrics[b])
  }

  predicate UnscopedNamesake(row: Rubric, name: string) {
    row.status == Active && row.scope.None? && row.name == name
  }

  /** An update that leaves its row active, without a scope, under the name of another active rubric without a scope. */
  predicate JoinsUnscoped(rubrics: map<Uuid, Rubric>, op: Op) {
    && op.Update? && op.id in rubrics && Blank(op.scope)
    && (if KeepsStatus(rubrics[op.id], op.status) then rubrics[op.id].status == Active else op.status == "active")
    && (exists other :: other in rubrics && other != op.id && UnscopedNamesake(rubrics[other], op.name))
  }

  /** What an accepted request does to the rows, as far as uniqueness looks at them. */
  lemma AcceptedRows(db: Db, r: Request)
    requires Refusal(db, r.op).None?
    ensures var n := Apply(db, r).rubrics;
      && (forall id :: id in n && n[id].status == Active && (id !in db.rubrics || n[id] != db.rubrics[id]) ==>
           && r.op.Update? && id == r.op.id && id in db.rubrics
           && n[id].name == r.op.name && n[id].scope == ScopeArg(r.op.scope))
      && (forall id :: id in db.rubrics ==> id in n)
      && (r.op.Update? ==>
        && r.op.id in db.rubrics && !ViolatesActiveIndex(db.rubrics, r.op.id, n[r.op.id])
        && (forall id :: id in db.rubrics && id != r.op.id ==> n[id] == db.rubrics[id]))
  {
    if r.op.Update? {
      var row := UpdatedRow(db.rubrics[r.op.id], r.op, ResolveActor(r.user));
      assert row == UpdatedRow(db.rubrics[r.op.id], r.op, "").(updatedBy := row.updatedBy);
      assert forall other :: other in db.rubrics ==>
        (SameActive(db.rubrics[other], row)
         <==> SameActive(db.rubrics[other], UpdatedRow(db.rubrics[r.op.id], r.op, "")));
    }
  }

  lemma JoiningCollides(db: Db, r: Request)
    requires Refusal(db, r.op).None? && JoinsUnscoped(db.rubrics, r.op)
    ensures !UniqueActive(Apply(db, r).rubrics)
  {
    var n := Apply(db, r).rubrics;
    AcceptedRows(db, r);
    var other :| other in db.rubrics && other != r.op.id && UnscopedNamesake(db.rubrics[other], r.op.name);
    assert n[r.op.id] == UpdatedRow(db.rubrics[r.op.id], r.op, ResolveActor(r.user));
    assert SameActive(n[r.op.id], n[other]);
  }

  /** An accepted request keeps the active rubrics unique exactly when it is not such an update. */
  lemma UniquenessKeptIff(db: Db, r: Request)
    requires UniqueActive(db.rubrics) && Refusal(db, r.op).None?
    ensures UniqueActive(Apply(db, r).rubrics) <==> !JoinsUnscoped(db.rubrics, r.op)
  {
    var n := Apply(db, r).rubrics;
    AcceptedRows(db, r);
    if JoinsUnscoped(db.rubrics, r.op) {
      JoiningCollides(db, r);
    } else {
      forall a, b | a in n && b in n && a != b ensures !SameActive(n[a], n[b]) {
        if SameActive(n[a], n[b]) { NewPairJoins(db, r, a, b); }
      }
    }
  }

  lemma NewPairJoins(db: Db, r: Request, a: Uuid, b: Uuid)
    requires UniqueActive(db.rubrics) && Refusal(db, r.op).None?
    requires a in Apply(db, r).rubrics && b in Apply(db, r).rubrics && a != b
    requires SameActive(Apply(db, r).rubrics[a], Apply(db, r).rubrics[b])
    ensures JoinsUnscoped(db.rubrics, r.op)
  {
    var n := Apply(db, r).rubrics;
    AcceptedRows(db, r);
    assert r.op.Update? && (r.op.id == a || r.op.id == b);
    var other := if r.op.id == a then b else a;
    assert n[other] == db.rubrics[other] && SameActive(db.rubrics[other], n[r.op.id]);
    assert n[r.op.id] == UpdatedRow(db.rubrics[r.op.id], r.op, ResolveActor(r.user));
  }

  /** Request `k` of the run is accepted and joins an active rubric without a scope. */
  ghost predicate JoinsAt(rs: seq<Request>, k: nat)
    requires k < |rs|
  {
    Refusal(Run(rs[..k]), rs[k].op).None? && JoinsUnscoped(Run(rs[..k]).rubrics, rs[k].op)
  }

  /** A run keeps at most one active rubric per name and scope all the way exactly when it accepts no such update. */
  lemma {:induction false} RunStaysUniqueIff(rs: seq<Request>)
    ensures (forall k :: 0 <= k <= |rs| ==> UniqueActive(Run(rs[..k]).rubrics))
       <==> !(exists k :: 0 <= k < |rs| && JoinsAt(rs, k))
  {
    forall k | 0 <= k < |rs| && UniqueActive(Run(rs[..k]).rubrics)
      ensures UniqueActive(Run(rs[..k + 1]).rubrics) <==> !JoinsAt(rs, k)
    {
      assert rs[..k + 1][..k] == rs[..k];
      var db := Run(rs[..k]);
      if Refusal(db, rs[k].op).None? { UniquenessKeptIff(db, rs[k]); }
    }
    if forall k :: 0 <= k < |rs| ==> !JoinsAt(rs, k) {
      for k := 0 to |rs|
        invariant forall j :: 0 <= j <= k ==> UniqueActive(Run(rs[..j]).rubrics)
      {
        assert !JoinsAt(rs, k);
      }
    } else {
      var k :| 0 <= k < |rs| && JoinsAt(rs, k);
      assert UniqueActive(Run(rs[..k]).rubrics) ==> !UniqueActive(Run(rs[..k + 1]).rubrics);
    }
  }

  /** The rubrics of the colliding run, all by the default user. */
  function Sample(scope: Option<string>, status: Status): Rubric {
    Rubric("n", 1, scope, status, None, None, DEFAULT_USER, DEFAULT_USER)
  }

  lemma Step(rs: seq<Request>, rubrics: map<Uuid, Rubric>, op: Op) returns (more: seq<Request>)
    requires Run(rs).rubrics == rubrics && AcceptedOn(rubrics, op)
    ensures Run(more).rubrics == RubricsAfter(rubrics, op, DEFAULT_USER)
  {
    more := rs + [Request(0, "", op)];
    assert more[..|rs|] == rs;
  }

  /** A create or an update that these rubrics do not refuse. */
  ghost predicate AcceptedOn(rubrics: map<Uuid, Rubric>, op: Op) {
    (op.Create? || op.Update?) && forall db: Db :: db.rubrics == rubrics ==> Refusal(db, op).None?
  }

  lemma FirstUnscoped() returns (rs: seq<Request>)
    ensures Run(rs).rubrics == map[1 := Sample(None, Active)]
  {
    assert !IsSpace("n"[0]) && !IsSpace("active"[0]);
    rs := Step([], map[], Create(1, "n", "", None));
    rs := Step(rs, map[1 := Sample(None, Draft)], Update(1, "n", "", "active", None));
  }

  lemma SecondDraft() returns (rs: seq<Request>)
    ensures Run(rs).rubrics == map[1 := Sample(None, Active), 2 := Sample(Some("b"), Draft)]
  {
    assert !IsSpace("n"[0]) && !IsSpace("b"[0]);
    rs := FirstUnscoped();
    rs := Step(rs, map[1 := Sample(None, Active)], Create(2, "n", "b", None));
  }

  lemma SecondScoped() returns (rs: seq<Request>)
    ensures Run(rs).rubrics == map[1 := Sample(None, Active), 2 := Sample(Some("b"), Active)]
  {
    assert !IsSpace("n"[0]) && !IsSpace("b"[0]) && !IsSpace("active"[0]);
    rs := SecondDraft();
    rs := Step(rs, map[1 := Sample(None, Active), 2 := Sample(Some("b"), Draft)], Update(2, "n", "b", "active", None));
  }

  /** A run from the empty tables in which two active rubrics end up with the same name and no scope. */
  lemma UnscopedRubricsCollide()
    ensures exists rs :: !UniqueActive(Run(rs).rubrics)
  {
    assert !IsSpace("n"[0]);
    var rs := SecondScoped();
    rs := Step(rs, map[1 := Sample(None, Active), 2 := Sample(Some("b"), Active)], Update(2, "n", "", "", None));
    assert SameActive(Run(rs).rubrics[1], Run(rs).rubrics[2]);
  }

  /** The handler's overlap test uses the numbers before rounding. A band that passes it still violates the exclusion
      constraint exactly when a rounded end lands on the neighbour's end. */
  lemma RoundingOnlyTouchesEnds(b: Band, op: Op)
    requires op.AddBand? && op.min < op.max && b.min < b.max && !Overlaps(b, op.min, op.max)
    ensures Touch(b, NewBand(op)) <==> Stored(op.min) == b.max || Stored(op.max) == b.min
  {
    RoundMonotone(op.min, op.max, SCALE);
    RoundExact(b.max, SCALE);
    RoundExact(b.min, SCALE);
    if op.min > Number(b.max) {
      RoundMonotone(Number(b.max), op.min, SCALE);
    } else {
      RoundMonotone(op.max, Number(b.min), SCALE);
    }
  }

  /** Such a request: 10.00004 lies above a band ending at 10, and is stored as 10. */
  lemma RoundedBandCanTouch(db: Db, op: Op)
    requires db.bands == [Band(1, 7, "B", 0, 100000)] && 7 in db.rubrics && db.rubrics[7].status != Archived
    requires op == AddBand(7, 2, "A", 10.00004, 20.0)
    ensures !Overlaps(db.bands[0], op.min, op.max) && Refusal(db, op) == Some(Constraint)
  {
    assert !IsSpace(op.letter[0]);
    assert BandsOf(db.bands[..0], 7) == [];
    assert BandsOf(db.bands, 7) == db.bands;
    assert Stored(op.min) == 100000 && Stored(op.max) == 200000;
    assert db.bands[0] in BandsOf(db.bands, 7) && Touch(db.bands[0], NewBand(op));
  }
}
