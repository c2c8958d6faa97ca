/**
 The workflow life cycle: PENDING -> RUNNING -> COMPLETED | FAILED, the five operations that drive it
 (create, start, complete, fail, and the worker's callback) and the audit events they append in the
 same transaction. Runs interleave these transactions under row locks (module RowLocks).
 */
module Workflows {
  import opened Common
  import opened Audit
  import opened RowLocks

  datatype State = Pending | Running | Completed | Failed

  const VALID_TRANSITIONS: map<State, seq<State>> :=
    map[Pending := [Running, Failed], Running := [Completed, Failed]]

  predicate IsValidTransition(from: State, to: State) {
    from in VALID_TRANSITIONS && to in VALID_TRANSITIONS[from]
  }

  predicate Terminal(s: State) {
    s == Completed || s == Failed
  }

  type Json = string

  datatype Workflow = Workflow(documentId: string, state: State, result: Option<Json>)

  datatype Action =
    | WorkflowCreated
    | TransitionedToRunning
    | WorkflowCompleted
    | FailedDispatch
    | FailedCallback
    | CallbackRejectedTerminal

  datatype Details =
    | NoDetails
    | Document(documentId: string)
    | FromTo(from: State, to: State)
    | Reason(reason: string)
    | Rejected(current: State, requestedCompleted: bool)

  type WfEvent = Event<Action, Details>

  datatype Request =
    | Create(documentId: string, user: string)
    | Start
    | Complete(result: Json)
    | Fail(reason: string)
    | Callback(completed: bool, resultJson: Json)

  /** `at` is the clock reading stored in the audit event. */
  datatype Op = Op(id: Uuid, at: int, request: Request)

  /** An omitted callback result is stored as an empty JSON object. */
  function Normalized(resultJson: Json): Json {
    if |resultJson| == 0 then "{}" else resultJson
  }

  /** The statements an operation sends after reading `row` under the row lock. */
  function Program(authEnabled: bool, op: Op, row: Option<Workflow>): Option<seq<Stmt<Workflow, WfEvent>>> {
    match op.request
    case Create(doc, user) =>
      if row.Some? then None  // primary key already used
      else Some([
        Write(Workflow(doc, Pending, None)),
        Log(Event(op.at, WorkflowCreated, op.id, ResolveUser(authEnabled, user), Document(doc)))])
    case Start =>
      if row.None? || !IsValidTransition(row.value.state, Running) then None
      else Some([
        Write(row.value.(state := Running)),
        Log(Event(op.at, TransitionedToRunning, op.id, DEFAULT_USER, FromTo(Pending, Running)))])
    case Complete(result) =>
      if row.None? || !IsValidTransition(row.value.state, Completed) then None
      else Some([
        Write(row.value.(state := Completed)),
        Write(row.value.(state := Completed, result := Some(result))),
        Log(Event(op.at, WorkflowCompleted, op.id, DEFAULT_USER, NoDetails))])
    case Fail(reason) =>
      if row.None? || !IsValidTransition(row.value.state, Failed) then None
      else Some([
        Write(row.value.(state := Failed)),
        Log(if row.value.state == Pending
            then Event(op.at, FailedDispatch, op.id, DEFAULT_USER, NoDetails)
            else Event(op.at, FailedCallback, op.id, DEFAULT_USER, Reason(reason)))])
    case Callback(completed, resultJson) =>
      if row.None? then None
      else if row.value.state != Running then Some([
        Log(Event(op.at, CallbackRejectedTerminal, op.id, DEFAULT_USER, Rejected(row.value.state, completed)))])
      else
        var state := if completed then Completed else Failed;
        var action := if completed then WorkflowCompleted else FailedCallback;
        Some([
          Write(row.value.(state := state)),
          Write(row.value.(state := state, result := Some(Normalized(resultJson)))),
          Log(Event(op.at, action, op.id, DEFAULT_USER, NoDetails))])
  }

  function Machine(authEnabled: bool): Protocol<Workflow, WfEvent, Op> {
    Protocol((op: Op) => op.id, (op: Op, row: Option<Workflow>) => Program(authEnabled, op, row))
  }

  type Db = Table<Workflow, WfEvent>

  // ----- reading the audit log -----

  /** The state after an event; a rejection changes nothing. */
  function ReplayStep(s: Option<State>, a: Action): Option<State> {
    match a
    case WorkflowCreated => Some(Pending)
    case TransitionedToRunning => Some(Running)
    case WorkflowCompleted => Some(Completed)
    case FailedDispatch => Some(Failed)
    case FailedCallback => Some(Failed)
    case CallbackRejectedTerminal => s
  }

  function Replay(evs: seq<WfEvent>): Option<State> {
    if evs == [] then None else ReplayStep(Replay(evs[..|evs| - 1]), evs[|evs| - 1].action)
  }

  /** Which event may follow a history that replays to `s`. */
  predicate MayFollow(s: Option<State>, a: Action) {
    match a
    case WorkflowCreated => s.None?
    case TransitionedToRunning => s.Some? && IsValidTransition(s.value, Running)
    case WorkflowCompleted => s.Some? && IsValidTransition(s.value, Completed)
    case FailedDispatch => s == Some(Pending)
    case FailedCallback => s == Some(Running)
    case CallbackRejectedTerminal => s.Some? && s != Some(Running)
  }

  /** The events of one workflow form a path of the transition table that starts at creation. */
  ghost predicate LegalPath(evs: seq<WfEvent>) {
    forall i :: 0 <= i < |evs| ==> MayFollow(Replay(evs[..i]), evs[i].action)
  }

  predicate Finishing(a: Action) {
    a.WorkflowCompleted? || a.FailedDispatch? || a.FailedCallback?
  }

  /** How many events move the workflow to a terminal state. */
  function Finishes(evs: seq<WfEvent>): nat {
    if evs == [] then 0
    else
      var a := evs[|evs| - 1].action;
      Finishes(evs[..|evs| - 1]) + (if Finishing(a) then 1 else 0)
  }

  function StateOf(db: Db, id: Uuid): Option<State> {
    if id in db.rows then Some(db.rows[id].state) else None
  }

  /** What the row shows of its history. */
  ghost predicate RowTells(db: Db, id: Uuid, evs: seq<WfEvent>) {
    id in db.rows ==>
      && (!Terminal(db.rows[id].state) ==> db.rows[id].result.None?)
      && (db.rows[id].state == Completed ==> db.rows[id].result.Some?)
      && evs != [] && evs[0].details == Document(db.rows[id].documentId)
      && (evs[|evs| - 1].action.FailedDispatch? ==> db.rows[id].result.None?)
  }

  /** The audit log tells the story of the row: a legal path that replays to its state and names its document. */
  ghost predicate Agrees(db: Db, id: Uuid) {
    var evs := EventsOf(db.log, id);
    && LegalPath(evs)
    && Replay(evs) == StateOf(db, id)
    && Finishes(evs) == (if id in db.rows && Terminal(db.rows[id].state) then 1 else 0)
    && RowTells(db, id, evs)
  }

  // ----- one operation -----

  /** `n` is `db` after an operation on `id` that appended `e`. */
  ghost predicate Effect(db: Db, n: Db, id: Uuid, e: WfEvent) {
    && e.resourceId == id
    && n.log == db.log + [e]
    && n.rows.Keys == db.rows.Keys + {id}
    && (forall other :: other in db.rows && other != id ==> n.rows[other] == db.rows[other])
    && MayFollow(StateOf(db, id), e.action)
    && ReplayStep(StateOf(db, id), e.action) == StateOf(n, id)
    && (e.action.CallbackRejectedTerminal? ==> n.rows == db.rows)
    && (id in db.rows ==>
      && n.rows[id].documentId == db.rows[id].documentId
      && (n.rows[id].state == Completed && db.rows[id].state != Completed ==> n.rows[id].result.Some?)
      && (!Terminal(n.rows[id].state) || e.action.FailedDispatch? ==> n.rows[id].result == db.rows[id].result))
    && (id !in db.rows ==> n.rows[id].result.None? && e.details == Document(n.rows[id].documentId))
  }

  /** A committed operation either changes nothing or appends exactly one event, about its own workflow, that may
      follow the row's state, and leaves the row in the state that event replays to. */
  lemma AtomicEffect(authEnabled: bool, db: Db, op: Op)
    returns (e: WfEvent)
    ensures var n := Atomic(Machine(authEnabled), db, op); n == db || Effect(db, n, op.id, e)
  {
    var p := Program(authEnabled, op, Lookup(db.rows, op.id));
    if p.Some? {
      e := ProgramEffect(authEnabled, op, Lookup(db.rows, op.id));
    } else {
      e := Event(0, WorkflowCreated, 0, "", NoDetails);
    }
  }

  /** Every accepted program ends with its only audit statement. */
  lemma ProgramEffect(authEnabled: bool, op: Op, row: Option<Workflow>)
    returns (e: WfEvent)
    requires Program(authEnabled, op, row).Some?
    ensures var stmts := Program(authEnabled, op, row).value;
      && stmts[|stmts| - 1] == Log(e) && Logged(stmts) == [e]
      && Written(stmts) == if |stmts| == 1 then None else Some(stmts[|stmts| - 2].row)
  {
    var stmts := Program(authEnabled, op, row).value;
    e := stmts[|stmts| - 1].ev;
    var w := if |stmts| == 1 then Workflow("", Pending, None) else stmts[|stmts| - 2].row;
    StmtEffects(if |stmts| == 1 then w else stmts[0].row, w, e);
    assert stmts == [Log(e)] || stmts == [Write(w), Log(e)] || stmts == [Write(stmts[0].row), Write(w), Log(e)];
  }

  lemma ReplaySnoc(evs: seq<WfEvent>, e: WfEvent)
    requires LegalPath(evs) && MayFollow(Replay(evs), e.action)
    ensures LegalPath(evs + [e])
    ensures Replay(evs + [e]) == ReplayStep(Replay(evs), e.action)
  {
    var all := evs + [e];
    assert all[..|evs|] == evs;
    forall i | 0 <= i < |all| ensures MayFollow(Replay(all[..i]), all[i].action) {
      assert all[..i] == evs[..i];
      if i == |evs| {
        assert evs[..i] == evs;
      } else {
        assert MayFollow(Replay(evs[..i]), evs[i].action);
      }
    }
  }

  lemma FinishesSnoc(evs: seq<WfEvent>, e: WfEvent)
    ensures Finishes(evs + [e]) == Finishes(evs) + if Finishing(e.action) then 1 else 0
  {
  }

  /** An event that may follow ends the workflow exactly when it is a finishing one, and only a live workflow ends. */
  lemma FinishingEnds(s: Option<State>, a: Action)
    requires MayFollow(s, a)
    ensures ReplayStep(s, a).Some?
    ensures var t := ReplayStep(s, a).value;
      Terminal(t) <==> Finishing(a) || (s.Some? && Terminal(s.value))
    ensures Finishing(a) ==> s.Some? && !Terminal(s.value)
  {
  }

  lemma OwnRowTells(db: Db, n: Db, id: Uuid, e: WfEvent, evs: seq<WfEvent>)
    requires RowTells(db, id, evs) && Effect(db, n, id, e) && (id !in db.rows ==> evs == [])
    ensures RowTells(n, id, evs + [e])
  {
  }

  lemma HistoryHasState(evs: seq<WfEvent>)
    requires LegalPath(evs) && evs != []
    ensures Replay(evs).Some?
  {
    FinishingEnds(Replay(evs[..|evs| - 1]), evs[|evs| - 1].action);
  }

  lemma {:induction false} OwnEffectAgrees(db: Db, n: Db, id: Uuid, e: WfEvent)
    requires Agrees(db, id) && Effect(db, n, id, e)
    ensures Agrees(n, id)
  {
    var evs := EventsOf(db.log, id);
    EventsOfSnoc(db.log, e, id);
    if evs != [] { HistoryHasState(evs); }
    ReplaySnoc(evs, e);
    FinishesSnoc(evs, e);
    FinishingEnds(Replay(evs), e.action);
    OwnRowTells(db, n, id, e, evs);
  }

  lemma OtherEffectAgrees(db: Db, n: Db, changed: Uuid, e: WfEvent, id: Uuid)
    requires Agrees(db, id) && Effect(db, n, changed, e) && changed != id
    ensures Agrees(n, id)
  {
  }

  lemma AtomicKeepsAgreement(authEnabled: bool, db: Db, op: Op, id: Uuid)
    requires Agrees(db, id)
    ensures Agrees(Atomic(Machine(authEnabled), db, op), id)
  {
    var n := Atomic(Machine(authEnabled), db, op);
    var e := AtomicEffect(authEnabled, db, op);
    EffectAgrees(db, n, op.id, e, id);
  }

  lemma {:induction false} EffectAgrees(db: Db, n: Db, changed: Uuid, e: WfEvent, id: Uuid)
    requires Agrees(db, id) && (n == db || Effect(db, n, changed, e))
    ensures Agrees(n, id)
  {
    if n != db {
      if changed == id { OwnEffectAgrees(db, n, id, e); } else { OtherEffectAgrees(db, n, changed, e, id); }
    }
  }

  lemma {:induction false} SerialKeepsAgreement(authEnabled: bool, db: Db, ops: seq<Op>, id: Uuid)
    requires Agrees(db, id)
    ensures Agrees(Serial(Machine(authEnabled), db, ops), id)
  {
    if ops != [] {
      SerialKeepsAgreement(authEnabled, db, ops[..|ops| - 1], id);
      AtomicKeepsAgreement(authEnabled, Serial(Machine(authEnabled), db, ops[..|ops| - 1]), ops[|ops| - 1], id);
    }
  }

  lemma {:induction false} SerialKeepsTerminal(authEnabled: bool, db: Db, ops: seq<Op>, id: Uuid)
    requires id in db.rows && Terminal(db.rows[id].state)
    ensures id in Serial(Machine(authEnabled), db, ops).rows
    ensures Serial(Machine(authEnabled), db, ops).rows[id] == db.rows[id]
  {
    if ops != [] {
      SerialKeepsTerminal(authEnabled, db, ops[..|ops| - 1], id);
      var m := Serial(Machine(authEnabled), db, ops[..|ops| - 1]);
      var e := AtomicEffect(authEnabled, m, ops[|ops| - 1]);
    }
  }

  // ----- all interleaved runs -----

  function Reached(authEnabled: bool, ls: seq<Label<Op>>): Db {
    Run(Machine(authEnabled), Empty(), ls).table
  }

  /** In every interleaving, replaying a workflow's committed events gives its stored state, those events
      are a legal path, and the result is unset until the workflow ends. */
  lemma AuditReplaysToStore(authEnabled: bool, ls: seq<Label<Op>>, id: Uuid)
    ensures Agrees(Reached(authEnabled, ls), id)
  {
    var p := Machine(authEnabled);
    SerializableFromEmpty(p, ls);
    SerialKeepsAgreement(authEnabled, Table(map[], []), Run(p, Empty(), ls).history, id);
  }

  /** A terminal workflow keeps its row, state and result, in every continuation. */
  lemma TerminalIsFrozen(authEnabled: bool, ls: seq<Label<Op>>, more: seq<Label<Op>>, id: Uuid)
    requires id in Reached(authEnabled, ls).rows && Terminal(Reached(authEnabled, ls).rows[id].state)
    ensures id in Reached(authEnabled, ls + more).rows
    ensures Reached(authEnabled, ls + more).rows[id] == Reached(authEnabled, ls).rows[id]
  {
    var p := Machine(authEnabled);
    var s := Run(p, Empty(), ls);
    SerializableFromEmpty(p, ls);
    RunConcat(p, Empty(), ls, more);
    var ops := Serializable(p, s, more);
    SerialKeepsTerminal(authEnabled, s.table, ops, id);
  }

  /** `id` has ended after the operations `ops`, executed one after the other. */
  ghost predicate EndedAfter(authEnabled: bool, ops: seq<Op>, id: Uuid) {
    id in AfterOps(authEnabled, ops).rows && Terminal(AfterOps(authEnabled, ops).rows[id].state)
  }

  function AfterOps(authEnabled: bool, ops: seq<Op>): Db {
    Serial(Machine(authEnabled), Table(map[], []), ops)
  }

  /** Operation `k` is the one that ends `id`: not before it, ever since it, and the row stays what it made it. */
  ghost predicate EndsAt(authEnabled: bool, ops: seq<Op>, id: Uuid, k: nat)
    requires k < |ops|
  {
    && ops[k].id == id
    && !EndedAfter(authEnabled, ops[..k], id) && EndedAfter(authEnabled, ops[..k + 1], id)
    && (forall j :: k < j <= |ops| ==>
      EndedAfter(authEnabled, ops[..j], id)
      && AfterOps(authEnabled, ops[..j]).rows[id] == AfterOps(authEnabled, ops[..k + 1]).rows[id])
  }

  lemma EndStep(authEnabled: bool, init: seq<Op>, last: Op, id: Uuid)
    ensures EndedAfter(authEnabled, init, id) ==>
      && EndedAfter(authEnabled, init + [last], id)
      && AfterOps(authEnabled, init + [last]).rows[id] == AfterOps(authEnabled, init).rows[id]
    ensures !EndedAfter(authEnabled, init, id) && EndedAfter(authEnabled, init + [last], id) ==> last.id == id
  {
    assert (init + [last])[..|init|] == init;
    var e := AtomicEffect(authEnabled, AfterOps(authEnabled, init), last);
  }

  lemma EndsAtSnoc(authEnabled: bool, init: seq<Op>, last: Op, id: Uuid, k: nat)
    requires k < |init| && EndsAt(authEnabled, init, id, k) && EndedAfter(authEnabled, init, id)
    ensures EndsAt(authEnabled, init + [last], id, k)
  {
    var ops := init + [last];
    EndStep(authEnabled, init, last, id);
    assert ops[..k] == init[..k] && ops[..k + 1] == init[..k + 1] && init[..|init|] == init;
    forall j | k < j <= |ops|
      ensures EndedAfter(authEnabled, ops[..j], id)
      ensures AfterOps(authEnabled, ops[..j]).rows[id] == AfterOps(authEnabled, ops[..k + 1]).rows[id]
    {
      if j <= |init| { assert ops[..j] == init[..j]; } else { assert ops[..j] == ops; }
    }
  }

  lemma {:induction false} EndingOperation(authEnabled: bool, ops: seq<Op>, id: Uuid) returns (k: nat)
    requires EndedAfter(authEnabled, ops, id)
    ensures k < |ops| && EndsAt(authEnabled, ops, id, k)
  {
    var init, last := ops[..|ops| - 1], ops[|ops| - 1];
    assert init + [last] == ops;
    if EndedAfter(authEnabled, init, id) {
      k := EndingOperation(authEnabled, init, id);
      EndsAtSnoc(authEnabled, init, last, id, k);
    } else {
      k := |init|;
      EndStep(authEnabled, init, last, id);
      assert ops[..k] == init && ops[..k + 1] == ops;
    }
  }

  /** However many transactions try to finish a workflow, when it has ended exactly one committed operation has ended
      it, and it is the only one whose event says so. */
  lemma OneFinisher(authEnabled: bool, ls: seq<Label<Op>>, id: Uuid) returns (k: nat)
    requires id in Reached(authEnabled, ls).rows && Terminal(Reached(authEnabled, ls).rows[id].state)
    ensures var history := Run(Machine(authEnabled), Empty(), ls).history;
      k < |history| && EndsAt(authEnabled, history, id, k)
    ensures Finishes(EventsOf(Reached(authEnabled, ls).log, id)) == 1
  {
    SerializableFromEmpty(Machine(authEnabled), ls);
    AuditReplaysToStore(authEnabled, ls, id);
    k := EndingOperation(authEnabled, Run(Machine(authEnabled), Empty(), ls).history, id);
  }

  /** The audit log only grows. */
  lemma AuditIsAppendOnly(authEnabled: bool, ls: seq<Label<Op>>, more: seq<Label<Op>>)
    ensures Reached(authEnabled, ls).log <= Reached(authEnabled, ls + more).log
  {
    var p := Machine(authEnabled);
    var s := Run(p, Empty(), ls);
    SerializableFromEmpty(p, ls);
    RunConcat(p, Empty(), ls, more);
    var ops := Serializable(p, s, more);
    SerialLogGrows(authEnabled, s.table, ops);
  }

  lemma {:induction false} SerialLogGrows(authEnabled: bool, db: Db, ops: seq<Op>)
    ensures db.log <= Serial(Machine(authEnabled), db, ops).log
  {
    if ops != [] {
      SerialLogGrows(authEnabled, db, ops[..|ops| - 1]);
      var e := AtomicEffect(authEnabled, Serial(Machine(authEnabled), db, ops[..|ops| - 1]), ops[|ops| - 1]);
    }
  }

  // ----- what each request does, on the fields -----

  /** Only the row `id` differs, and one event about it was appended. */
  ghost predicate Changes(db: Db, n: Db, id: Uuid, at: int, user: string, action: Action, details: Details) {
    && n.rows.Keys == db.rows.Keys + {id}
    && (forall other :: other in db.rows && other != id ==> n.rows[other] == db.rows[other])
    && |n.log| == |db.log| + 1 && n.log[..|db.log|] == db.log
    && var e := n.log[|db.log|];
      e.resourceId == id && e.at == at && e.userId == user && e.action == action && e.details == details
  }

  /** The request was accepted: what it found, what it left in the row, and the one event it appended. */
  ghost predicate Did(authEnabled: bool, db: Db, n: Db, op: Op) {
    match op.request
    case Create(documentId, user) =>
      && Changes(db, n, op.id, op.at, if authEnabled && user != "" then user else "cli-anonymous",
                 WorkflowCreated, Document(documentId))
      && n.rows[op.id].documentId == documentId && n.rows[op.id].state == Pending && n.rows[op.id].result.None?
    case Start =>
      && op.id in db.rows && db.rows[op.id].state == Pending
      && Changes(db, n, op.id, op.at, "cli-anonymous", TransitionedToRunning, FromTo(Pending, Running))
      && n.rows[op.id].state == Running
      && n.rows[op.id].documentId == db.rows[op.id].documentId && n.rows[op.id].result == db.rows[op.id].result
    case Complete(result) =>
      && op.id in db.rows && db.rows[op.id].state == Running
      && Changes(db, n, op.id, op.at, "cli-anonymous", WorkflowCompleted, NoDetails)
      && n.rows[op.id].state == Completed && n.rows[op.id].result == Some(result)
      && n.rows[op.id].documentId == db.rows[op.id].documentId
    case Fail(reason) =>
      && op.id in db.rows
      && ((db.rows[op.id].state == Pending
           && Changes(db, n, op.id, op.at, "cli-anonymous", FailedDispatch, NoDetails))
          || (db.rows[op.id].state == Running
              && Changes(db, n, op.id, op.at, "cli-anonymous", FailedCallback, Reason(reason))))
      && n.rows[op.id].state == Failed
      && n.rows[op.id].documentId == db.rows[op.id].documentId && n.rows[op.id].result == db.rows[op.id].result
    case Callback(completed, resultJson) =>
      && op.id in db.rows
      && if db.rows[op.id].state == Running then
           && Changes(db, n, op.id, op.at, "cli-anonymous",
                      if completed then WorkflowCompleted else FailedCallback, NoDetails)
           && n.rows[op.id].state == (if completed then Completed else Failed)
           && n.rows[op.id].result == Some(if resultJson == "" then "{}" else resultJson)
           && n.rows[op.id].documentId == db.rows[op.id].documentId
         else
           && Changes(db, n, op.id, op.at, "cli-anonymous", CallbackRejectedTerminal,
                      Rejected(db.rows[op.id].state, completed))
           && n.rows == db.rows
  }

  /** When the row lets the request through. */
  predicate Accepts(db: Db, op: Op) {
    match op.request
    case Create(_, _) => op.id !in db.rows
    case Start => op.id in db.rows && db.rows[op.id].state == Pending
    case Complete(_) => op.id in db.rows && db.rows[op.id].state == Running
    case Fail(_) => op.id in db.rows && (db.rows[op.id].state == Pending || db.rows[op.id].state == Running)
    case Callback(_, _) => op.id in db.rows
  }

  lemma ProgramAccepts(authEnabled: bool, db: Db, op: Op)
    ensures Program(authEnabled, op, Lookup(db.rows, op.id)).Some? <==> Accepts(db, op)
  {
  }

  lemma WritesAndLogs(authEnabled: bool, db: Db, op: Op, row: Option<Workflow>, e: WfEvent)
    requires var p := Program(authEnabled, op, Lookup(db.rows, op.id));
      p.Some? && Written(p.value) == row && Logged(p.value) == [e]
    ensures Atomic(Machine(authEnabled), db, op)
         == Table(if row.Some? then db.rows[op.id := row.value] else db.rows, db.log + [e])
  {
  }

  lemma AcceptedDid(authEnabled: bool, db: Db, op: Op)
    requires Accepts(db, op)
    ensures Did(authEnabled, db, Atomic(Machine(authEnabled), db, op), op)
  {
    ProgramAccepts(authEnabled, db, op);
    var p := Program(authEnabled, op, Lookup(db.rows, op.id)).value;
    var e := ProgramEffect(authEnabled, op, Lookup(db.rows, op.id));
    WritesAndLogs(authEnabled, db, op, Written(p), e);
  }

  /** A request executed at once does what it says if the row lets it through, and nothing otherwise. */
  lemma RequestDoes(authEnabled: bool, db: Db, op: Op)
    ensures var n := Atomic(Machine(authEnabled), db, op);
      if Accepts(db, op) then Did(authEnabled, db, n, op) else n == db
  {
    ProgramAccepts(authEnabled, db, op);
    if Accepts(db, op) { AcceptedDid(authEnabled, db, op); }
  }

  /** In every interleaving a commit does to the stored row, and to the log, exactly what the request it was begun with
      asks for, on the row as it is then. */
  lemma CommitDoesItsRequest(authEnabled: bool, ls: seq<Label<Op>>, t: TxId)
    requires ReadyToCommit(Run(Machine(authEnabled), Empty(), ls), t)
    ensures var s := Run(Machine(authEnabled), Empty(), ls);
      && Begun(ls, s.txs[t].op) && Accepts(s.table, s.txs[t].op)
      && Did(authEnabled, s.table, Reached(authEnabled, ls + [Commit(t)]), s.txs[t].op)
  {
    var p := Machine(authEnabled);
    var s := Run(p, Empty(), ls);
    SerializableFromEmpty(p, ls);
    OperationsWereBegun(p, ls);
    CommitTakesEffect(p, s, t);
    RowLocks.RunSnoc(p, Empty(), ls, Commit(t));
    ProgramAccepts(authEnabled, s.table, s.txs[t].op);
    RequestDoes(authEnabled, s.table, s.txs[t].op);
  }
}
