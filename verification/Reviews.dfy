/**
 Score review requests: SUBMITTED -> UNDER_REVIEW -> APPROVED | REJECTED. Every change locks the row first
 (lockAndCheckStatus) and appends one audit event in the same transaction; runs interleave under row locks.
 */
module Reviews {
  import opened Common
  import opened Audit
  import opened RowLocks

  datatype Status = Submitted | UnderReview | Approved | Rejected

  const TRANSITIONS: map<Status, set<Status>> :=
    map[Submitted := {UnderReview}, UnderReview := {Approved, Rejected}, Approved := {}, Rejected := {}]

  predicate ValidTransition(current: Status, next: Status) {
    current in TRANSITIONS && next in TRANSITIONS[current]
  }

  datatype Review = Review(
    scoreId: Uuid,
    status: Status,
    reviewer: Option<string>,
    rejectionReason: Option<string>,
    comment: Option<string>,
    createdBy: string,
    updatedBy: string)

  datatype Action = RequestCreated | ReviewerAssigned | RequestApproved | RequestRejected

  /** The JSON details: the score, and what the action adds. An empty comment is left out. */
  datatype Details = Details(scoreId: Uuid, reviewer: Option<string>, reason: Option<string>, comment: Option<string>)

  type RvEvent = Event<Action, Details>

  datatype Request =
    | Insert(scoreId: Uuid, comment: string)
    | Assign(reviewer: string)
    | Approve(comment: string)
    | Reject(reason: string, comment: string)

  datatype Op = Op(id: Uuid, at: int, user: string, request: Request)

  /** uuid.Nil */
  const NIL: Uuid := 0

  function CommentArg(comment: string): Option<string> {
    if Blank(comment) then None else Some(comment)
  }

  /** COALESCE($2, comment) */
  function Coalesce(comment: string, stored: Option<string>): Option<string> {
    if Blank(comment) then stored else Some(comment)
  }

  function Given(comment: string): Option<string> {
    if comment == "" then None else Some(comment)
  }

  function Program(op: Op, row: Option<Review>): Option<seq<Stmt<Review, RvEvent>>> {
    var actor := ResolveActor(op.user);
    match op.request
    case Insert(scoreId, comment) =>
      if scoreId == NIL || row.Some? then None
      else Some([
        Write(Review(scoreId, Submitted, None, None, CommentArg(comment), actor, actor)),
        Log(Event(op.at, RequestCreated, op.id, ResolveUser(true, actor), Details(scoreId, None, None, None)))])
    case Assign(reviewer) =>
      if Blank(reviewer) || row.None? || row.value.status != Submitted
          || !ValidTransition(row.value.status, UnderReview) then None
      else Some([
        Write(row.value.(status := UnderReview, reviewer := Some(reviewer), updatedBy := actor)),
        Log(Event(op.at, ReviewerAssigned, op.id, ResolveUser(true, actor),
                  Details(row.value.scoreId, Some(reviewer), None, None)))])
    case Approve(comment) =>
      if row.None? || row.value.status != UnderReview || !ValidTransition(row.value.status, Approved) then None
      else Some([
        Write(row.value.(status := Approved, comment := Coalesce(comment, row.value.comment), updatedBy := actor)),
        Log(Event(op.at, RequestApproved, op.id, ResolveUser(true, actor),
                  Details(row.value.scoreId, None, None, Given(comment))))])
    case Reject(reason, comment) =>
      if Blank(reason) || row.None? || row.value.status != UnderReview
          || !ValidTransition(row.value.status, Rejected) then None
      else Some([
        Write(row.value.(status := Rejected, rejectionReason := Some(reason),
                         comment := Coalesce(comment, row.value.comment), updatedBy := actor)),
        Log(Event(op.at, RequestRejected, op.id, ResolveUser(true, actor),
                  Details(row.value.scoreId, None, Some(reason), Given(comment))))])
  }

  function Machine(): Protocol<Review, RvEvent, Op> {
    Protocol((op: Op) => op.id, Program)
  }

  type Db = Table<Review, RvEvent>

  // ----- what the audit log says -----

  /** The part of a request that its audit events determine. */
  datatype View = View(
    scoreId: Uuid, status: Status, reviewer: Option<string>, rejectionReason: Option<string>,
    createdBy: string, updatedBy: string)

  function ViewOf(r: Review): View {
    View(r.scoreId, r.status, r.reviewer, r.rejectionReason, r.createdBy, r.updatedBy)
  }

  /** One event applied to the view; None for an event that could not have come next. */
  function ReplayStep(v: Option<View>, e: RvEvent): Option<View> {
    match e.action
    case RequestCreated =>
      if v.Some? then None else Some(View(e.details.scoreId, Submitted, None, None, e.userId, e.userId))
    case ReviewerAssigned =>
      if v.None? || v.value.status != Submitted then None
      else Some(v.value.(status := UnderReview, reviewer := e.details.reviewer, updatedBy := e.userId))
    case RequestApproved =>
      if v.None? || v.value.status != UnderReview then None
      else Some(v.value.(status := Approved, updatedBy := e.userId))
    case RequestRejected =>
      if v.None? || v.value.status != UnderReview then None
      else Some(v.value.(status := Rejected, rejectionReason := e.details.reason, updatedBy := e.userId))
  }

  function Replay(evs: seq<RvEvent>): Option<View> {
    if evs == [] then None else ReplayStep(Replay(evs[..|evs| - 1]), evs[|evs| - 1])
  }

  /** The row's history, oldest event first. */
  ghost predicate Told(r: Review, evs: seq<RvEvent>) {
    && evs != []
    && Replay(evs) == Some(ViewOf(r))
    && evs[|evs| - 1].userId == r.updatedBy && evs[0].userId == r.createdBy
    && (r.rejectionReason.Some? <==> r.status == Rejected)
    && (r.rejectionReason.Some? ==> !Blank(r.rejectionReason.value))
    && (r.reviewer.Some? <==> r.status != Submitted)
    && (r.reviewer.Some? ==> !Blank(r.reviewer.value))
    && |evs| == (match r.status case Submitted => 1 case UnderReview => 2 case _ => 3)
  }

  ghost predicate Agrees(db: Db, id: Uuid) {
    var evs := EventsOf(db.log, id);
    if id !in db.rows then evs == [] else Told(db.rows[id], evs)
  }

  /** An accepted operation writes its row once and appends one event about it. */
  lemma AtomicStep(db: Db, op: Op)
    requires Program(op, Lookup(db.rows, op.id)).Some?
    ensures
      var stmts := Program(op, Lookup(db.rows, op.id)).value;
      && |stmts| == 2 && stmts[0].Write? && stmts[1].Log? && stmts[1].ev.resourceId == op.id
      && Atomic(Machine(), db, op) == Table(db.rows[op.id := stmts[0].row], db.log + [stmts[1].ev])
  {
    var stmts := Program(op, Lookup(db.rows, op.id)).value;
    StmtEffects(stmts[0].row, stmts[0].row, stmts[1].ev);
    assert stmts == [Write(stmts[0].row), Log(stmts[1].ev)];
  }

  lemma ReplaySnoc(evs: seq<RvEvent>, e: RvEvent)
    ensures Replay(evs + [e]) == ReplayStep(Replay(evs), e)
  {
  }

  lemma OtherStepAgrees(db: Db, k: Uuid, row: Review, e: RvEvent, id: Uuid)
    requires Agrees(db, id) && k != id && e.resourceId == k
    ensures Agrees(Table(db.rows[k := row], db.log + [e]), id)
  {
  }

  lemma OwnStepAgrees(db: Db, op: Op)
    requires Agrees(db, op.id) && Program(op, Lookup(db.rows, op.id)).Some?
    ensures
      var stmts := Program(op, Lookup(db.rows, op.id)).value;
      Agrees(Table(db.rows[op.id := stmts[0].row], db.log + [stmts[1].ev]), op.id)
  {
    var stmts := Program(op, Lookup(db.rows, op.id)).value;
    EventsOfSnoc(db.log, stmts[1].ev, op.id);
    StepTold(op, Lookup(db.rows, op.id), EventsOf(db.log, op.id));
  }

  lemma StepTold(op: Op, row: Option<Review>, evs: seq<RvEvent>)
    requires Program(op, row).Some? && (if row.None? then evs == [] else Told(row.value, evs))
    ensures var stmts := Program(op, row).value;
      |stmts| == 2 && stmts[0].Write? && stmts[1].Log? && Told(stmts[0].row, evs + [stmts[1].ev])
  {
    ReplaySnoc(evs, Program(op, row).value[1].ev);
  }

  lemma AtomicKeepsAgreement(db: Db, op: Op, id: Uuid)
    requires Agrees(db, id)
    ensures Agrees(Atomic(Machine(), db, op), id)
  {
    var p := Program(op, Lookup(db.rows, op.id));
    if p.Some? {
      AtomicStep(db, op);
      if op.id == id {
        OwnStepAgrees(db, op);
      } else {
        OtherStepAgrees(db, op.id, p.value[0].row, p.value[1].ev, id);
      }
    } else {
      assert Atomic(Machine(), db, op) == db;
    }
  }

  lemma {:induction false} SerialKeepsAgreement(db: Db, ops: seq<Op>, id: Uuid)
    requires Agrees(db, id)
    ensures Agrees(Serial(Machine(), db, ops), id)
  {
    if ops != [] {
      SerialKeepsAgreement(db, ops[..|ops| - 1], id);
      AtomicKeepsAgreement(Serial(Machine(), db, ops[..|ops| - 1]), ops[|ops| - 1], id);
    }
  }

  predicate Terminal(s: Status) {
    s == Approved || s == Rejected
  }

  lemma {:induction false} SerialKeepsTerminal(db: Db, ops: seq<Op>, id: Uuid)
    requires id in db.rows && Terminal(db.rows[id].status)
    ensures id in Serial(Machine(), db, ops).rows
    ensures Serial(Machine(), db, ops).rows[id] == db.rows[id]
  {
    if ops != [] {
      SerialKeepsTerminal(db, ops[..|ops| - 1], id);
      var m := Serial(Machine(), db, ops[..|ops| - 1]);
      if Program(ops[|ops| - 1], Lookup(m.rows, ops[|ops| - 1].id)).Some? {
        AtomicStep(m, ops[|ops| - 1]);
      }
    }
  }

  // ----- all interleaved runs -----

  function Reached(ls: seq<Label<Op>>): Db {
    Run(Machine(), Empty(), ls).table
  }

  /** In every interleaving, a request's events replay to its status, reviewer, rejection reason and authors. */
  lemma AuditReplaysToRequest(ls: seq<Label<Op>>, id: Uuid)
    ensures Agrees(Reached(ls), id)
  {
    SerializableFromEmpty(Machine(), ls);
    SerialKeepsAgreement(Table(map[], []), Run(Machine(), Empty(), ls).history, id);
  }

  /** An approved or rejected request never changes again, whatever runs next. */
  lemma DecidedIsFrozen(ls: seq<Label<Op>>, more: seq<Label<Op>>, id: Uuid)
    requires id in Reached(ls).rows && Terminal(Reached(ls).rows[id].status)
    ensures id in Reached(ls + more).rows
    ensures Reached(ls + more).rows[id] == Reached(ls).rows[id]
  {
    SerializableFromEmpty(Machine(), ls);
    RunConcat(Machine(), Empty(), ls, more);
    var ops := Serializable(Machine(), Run(Machine(), Empty(), ls), more);
    SerialKeepsTerminal(Reached(ls), ops, id);
  }

  // ----- what each request does, on the fields -----

  /** Only the row `id` differs; one event about it was appended, by the user the row names as its last author. */
  ghost predicate Changes(db: Db, n: Db, op: Op, action: Action, details: Details) {
    && n.rows.Keys == db.rows.Keys + {op.id}
    && (forall other :: other in db.rows && other != op.id ==> n.rows[other] == db.rows[other])
    && n.rows[op.id].updatedBy == (if Blank(op.user) then "cli-anonymous" else op.user)
    && |n.log| == |db.log| + 1 && n.log[..|db.log|] == db.log
    && var e := n.log[|db.log|];
      && e.resourceId == op.id && e.at == op.at && e.userId == n.rows[op.id].updatedBy
      && e.action == action && e.details == details
  }

  /** What a decision leaves of the row it found. */
  ghost predicate Keeps(before: Review, after: Review) {
    after.scoreId == before.scoreId && after.createdBy == before.createdBy
  }

  predicate CommentIs(stored: Option<string>, comment: string, after: Option<string>) {
    after == if Blank(comment) then stored else Some(comment)
  }

  /** The request was accepted: what it found, what it left in the row, and the one event it appended. */
  ghost predicate Did(db: Db, n: Db, op: Op) {
    match op.request
    case Insert(scoreId, comment) =>
      && op.id !in db.rows
      && Changes(db, n, op, RequestCreated, Details(scoreId, None, None, None))
      && var r := n.rows[op.id];
        && r.scoreId == scoreId && r.status == Submitted && r.reviewer.None? && r.rejectionReason.None?
        && r.createdBy == r.updatedBy && CommentIs(None, comment, r.comment)
    case Assign(reviewer) =>
      && op.id in db.rows && db.rows[op.id].status == Submitted
      && Changes(db, n, op, ReviewerAssigned, Details(db.rows[op.id].scoreId, Some(reviewer), None, None))
      && var b, r := db.rows[op.id], n.rows[op.id];
        && Keeps(b, r) && r.status == UnderReview && r.reviewer == Some(reviewer)
        && r.rejectionReason == b.rejectionReason && r.comment == b.comment
    case Approve(comment) =>
      && op.id in db.rows && db.rows[op.id].status == UnderReview
      && Changes(db, n, op, RequestApproved,
                 Details(db.rows[op.id].scoreId, None, None, if comment == "" then None else Some(comment)))
      && var b, r := db.rows[op.id], n.rows[op.id];
        && Keeps(b, r) && r.status == Approved && r.reviewer == b.reviewer
        && r.rejectionReason == b.rejectionReason && CommentIs(b.comment, comment, r.comment)
    case Reject(reason, comment) =>
      && op.id in db.rows && db.rows[op.id].status == UnderReview
      && Changes(db, n, op, RequestRejected,
                 Details(db.rows[op.id].scoreId, None, Some(reason), if comment == "" then None else Some(comment)))
      && var b, r := db.rows[op.id], n.rows[op.id];
        && Keeps(b, r) && r.status == Rejected && r.reviewer == b.reviewer
        && r.rejectionReason == Some(reason) && CommentIs(b.comment, comment, r.comment)
  }

  /** The guards: a score, a name or a reason where one is needed, and the status the request starts from. */
  predicate Accepts(db: Db, op: Op) {
    match op.request
    case Insert(scoreId, _) => scoreId != NIL && op.id !in db.rows
    case Assign(reviewer) => !Blank(reviewer) && op.id in db.rows && db.rows[op.id].status == Submitted
    case Approve(_) => op.id in db.rows && db.rows[op.id].status == UnderReview
    case Reject(reason, _) => !Blank(reason) && op.id in db.rows && db.rows[op.id].status == UnderReview
  }

  lemma ProgramAccepts(db: Db, op: Op)
    ensures Program(op, Lookup(db.rows, op.id)).Some? <==> Accepts(db, op)
  {
  }

  /** A request executed at once does what it says if the guards let it through, and nothing otherwise. */
  lemma RequestDoes(db: Db, op: Op)
    ensures var n := Atomic(Machine(), db, op);
      if Accepts(db, op) then Did(db, n, op) else n == db
  {
    ProgramAccepts(db, op);
    if Accepts(db, op) {
      AtomicStep(db, op);
      AcceptedDid(db, op);
    }
  }

  lemma AcceptedDid(db: Db, op: Op)
    requires Accepts(db, op)
    ensures var p := Program(op, Lookup(db.rows, op.id));
      && p.Some? && |p.value| == 2 && p.value[0].Write? && p.value[1].Log?
      && Did(db, Table(db.rows[op.id := p.value[0].row], db.log + [p.value[1].ev]), op)
  {
    assert !IsSpace(DEFAULT_USER[0]);
  }

  /** In every interleaving a commit does to the stored row, and to the log, exactly what the request it was begun with
      asks for, on the row as it is then; the approved request has no reason. */
  lemma CommitDoesItsRequest(ls: seq<Label<Op>>, t: TxId)
    requires ReadyToCommit(Run(Machine(), Empty(), ls), t)
    ensures var s, n := Run(Machine(), Empty(), ls), Reached(ls + [Commit(t)]);
      && Begun(ls, s.txs[t].op) && Accepts(s.table, s.txs[t].op) && Did(s.table, n, s.txs[t].op)
      && (s.txs[t].op.request.Approve? ==> n.rows[s.txs[t].op.id].rejectionReason.None?)
  {
    var p := Machine();
    var s := Run(p, Empty(), ls);
    SerializableFromEmpty(p, ls);
    OperationsWereBegun(p, ls);
    CommitTakesEffect(p, s, t);
    RowLocks.RunSnoc(p, Empty(), ls, Commit(t));
    ProgramAccepts(s.table, s.txs[t].op);
    RequestDoes(s.table, s.txs[t].op);
    AuditReplaysToRequest(ls, s.txs[t].op.id);
  }
}
