/**
 The in-memory workflow store: transactions buffer their writes and `Commit` applies the buffers in place.
 The state machine, the create coordinator and the callback handler run on it, with injected failures.
 Each of them is proved equal to one atomic step of module Workflows, or to no step at all.
 */
module FakeStores {
  import opened Common
  import opened Audit
  import opened RowLocks
  import opened Workflows

  // ----- what Commit must do to the store -----

  function Inserted(rows: map<Uuid, Workflow>, pending: seq<(Uuid, Workflow)>): map<Uuid, Workflow> {
    if pending == [] then rows
    else Inserted(rows, pending[..|pending| - 1])[pending[|pending| - 1].0 := pending[|pending| - 1].1]
  }

  function WithStates(rows: map<Uuid, Workflow>, updates: map<Uuid, State>): map<Uuid, Workflow> {
    map id | id in rows :: if id in updates then rows[id].(state := updates[id]) else rows[id]
  }

  function WithResults(rows: map<Uuid, Workflow>, results: map<Uuid, Json>): map<Uuid, Workflow> {
    map id | id in rows :: if id in results then rows[id].(result := Some(results[id])) else rows[id]
  }

  class FakeStore {
    var workflows: map<Uuid, Workflow>
    var auditLogs: seq<WfEvent>
    var nextTxFailOnAudit: bool
    var nextTxFailOnWorkflow: bool
    var nextTxFailOnGetWorkflow: bool

    constructor ()
      ensures Contents() == Table(map[], [])
      ensures Faults() == NO_FAULTS
    {
      workflows, auditLogs := map[], [];
      nextTxFailOnAudit, nextTxFailOnWorkflow, nextTxFailOnGetWorkflow := false, false, false;
    }

    function Contents(): Db
      reads this
    {
      Table(workflows, auditLogs)
    }

    function Faults(): InjectedFaults
      reads this
    {
      InjectedFaults(nextTxFailOnGetWorkflow, nextTxFailOnWorkflow, false, nextTxFailOnAudit)
    }

    method BeginTx() returns (tx: FakeTx)
      modifies this
      ensures fresh(tx) && tx.store == this && tx.Pristine()
      ensures tx.Faults() == old(Faults())
      ensures Contents() == old(Contents()) && Faults() == NO_FAULTS
    {
      tx := new FakeTx(this, nextTxFailOnAudit, nextTxFailOnWorkflow, nextTxFailOnGetWorkflow);
      nextTxFailOnAudit, nextTxFailOnWorkflow, nextTxFailOnGetWorkflow := false, false, false;
    }
  }

  /** The failure points a transaction can be told to hit. */
  datatype InjectedFaults = InjectedFaults(onGet: bool, onInsert: bool, onUpdate: bool, onAudit: bool)

  const NO_FAULTS := InjectedFaults(false, false, false, false)

  class FakeTx {
    const store: FakeStore
    var pendingUpdates: map<Uuid, State>
    var pendingResultUpdates: map<Uuid, Json>
    var pendingWorkflows: seq<(Uuid, Workflow)>
    var pendingAuditLogs: seq<WfEvent>
    var failOnAuditInsert: bool
    var failOnWorkflowInsert: bool
    var failOnUpdateState: bool
    var failOnGetWorkflow: bool
    var committed: bool

    constructor (store: FakeStore, failAudit: bool, failWorkflow: bool, failGet: bool)
      ensures this.store == store && Pristine()
      ensures Faults() == InjectedFaults(failGet, failWorkflow, false, failAudit)
    {
      this.store := store;
      pendingUpdates, pendingResultUpdates, pendingWorkflows, pendingAuditLogs := map[], map[], [], [];
      failOnAuditInsert, failOnWorkflowInsert, failOnGetWorkflow, failOnUpdateState :=
          failAudit, failWorkflow, failGet, false;
      committed := false;
    }

    function Faults(): InjectedFaults
      reads this
    {
      InjectedFaults(failOnGetWorkflow, failOnWorkflowInsert, failOnUpdateState, failOnAuditInsert)
    }

    predicate Pristine()
      reads this
    {
      !committed && pendingUpdates == map[] && pendingResultUpdates == map[]
      && pendingWorkflows == [] && pendingAuditLogs == []
    }

    /** The store after this transaction's buffers are applied to `db`. */
    function Flushed(db: Db): Db
      reads this
    {
      Table(
        WithResults(WithStates(Inserted(db.rows, pendingWorkflows), pendingUpdates), pendingResultUpdates),
        db.log + pendingAuditLogs)
    }

    method InsertWorkflow(id: Uuid, w: Workflow) returns (ok: bool)
      modifies this`pendingWorkflows
      ensures ok == !failOnWorkflowInsert
      ensures pendingWorkflows == if ok then old(pendingWorkflows) + [(id, w)] else old(pendingWorkflows)
    {
      if failOnWorkflowInsert { return false; }
      pendingWorkflows := pendingWorkflows + [(id, w)];
      return true;
    }

    method InsertAuditLog(e: WfEvent) returns (ok: bool)
      modifies this`pendingAuditLogs
      ensures ok == !failOnAuditInsert
      ensures pendingAuditLogs == if ok then old(pendingAuditLogs) + [e] else old(pendingAuditLogs)
    {
      if failOnAuditInsert { return false; }
      pendingAuditLogs := pendingAuditLogs + [e];
      return true;
    }

    method UpdateWorkflowState(id: Uuid, newState: State) returns (ok: bool)
      modifies this`pendingUpdates
      ensures ok == !failOnUpdateState
      ensures pendingUpdates == if ok then old(pendingUpdates)[id := newState] else old(pendingUpdates)
    {
      if failOnUpdateState { return false; }
      pendingUpdates := pendingUpdates[id := newState];
      return true;
    }

    method UpdateWorkflowResult(id: Uuid, resultJson: Json)
      modifies this`pendingResultUpdates
      ensures pendingResultUpdates == old(pendingResultUpdates)[id := resultJson]
    {
      pendingResultUpdates := pendingResultUpdates[id := resultJson];
    }

    /** Reads the committed row, not this transaction's own pending writes. */
    method GetWorkflow(id: Uuid) returns (r: Result<Workflow, Outcome>)
      ensures r == if failOnGetWorkflow then Err(GetFailed)
                   else if id !in store.workflows then Err(NotFound)
                   else Ok(store.workflows[id])
    {
      if failOnGetWorkflow { return Err(GetFailed); }
      if id !in store.workflows { return Err(NotFound); }
      return Ok(store.workflows[id]);
    }

    /** Applies the buffers in place; a second commit changes nothing. */
    method Commit()
      modifies this`committed, store`workflows, store`auditLogs
      ensures committed
      ensures store.Contents() == if old(committed) then old(store.Contents()) else Flushed(old(store.Contents()))
    {
      if committed { return; }
      committed := true;
      FlushWorkflows();
      store.auditLogs := store.auditLogs + pendingAuditLogs;
      FlushStates();
      FlushResults();
    }

    method FlushWorkflows()
      modifies store`workflows
      ensures store.workflows == Inserted(old(store.workflows), pendingWorkflows)
    {
      for i := 0 to |pendingWorkflows|
        invariant store.workflows == Inserted(old(store.workflows), pendingWorkflows[..i])
      {
        assert pendingWorkflows[..i + 1][..i] == pendingWorkflows[..i];
        store.workflows := store.workflows[pendingWorkflows[i].0 := pendingWorkflows[i].1];
      }
      assert pendingWorkflows[..|pendingWorkflows|] == pendingWorkflows;
    }

    method FlushStates()
      modifies store`workflows
      ensures store.workflows == WithStates(old(store.workflows), pendingUpdates)
    {
      var todo := pendingUpdates.Keys;
      while todo != {}
        invariant todo <= pendingUpdates.Keys
        invariant store.workflows.Keys == old(store.workflows).Keys
        invariant forall id :: id in store.workflows ==>
          store.workflows[id] == (if id in pendingUpdates && id !in todo then
              old(store.workflows)[id].(state := pendingUpdates[id])
            else old(store.workflows)[id])
      {
        var id :| id in todo;
        if id in store.workflows {
          store.workflows := store.workflows[id := store.workflows[id].(state := pendingUpdates[id])];
        }
        todo := todo - {id};
      }
    }

    method FlushResults()
      modifies store`workflows
      ensures store.workflows == WithResults(old(store.workflows), pendingResultUpdates)
    {
      var todo := pendingResultUpdates.Keys;
      while todo != {}
        invariant todo <= pendingResultUpdates.Keys
        invariant store.workflows.Keys == old(store.workflows).Keys
        invariant forall id :: id in store.workflows ==>
          store.workflows[id] == (if id in pendingResultUpdates && id !in todo then
              old(store.workflows)[id].(result := Some(pendingResultUpdates[id]))
            else old(store.workflows)[id])
      {
        var id :| id in todo;
        if id in store.workflows {
          store.workflows := store.workflows[id := store.workflows[id].(result := Some(pendingResultUpdates[id]))];
        }
        todo := todo - {id};
      }
    }

    /** Drops the buffers; after a commit it does nothing. The store is never touched. */
    method Rollback()
      modifies this`pendingUpdates, this`pendingResultUpdates, this`pendingWorkflows, this`pendingAuditLogs
      ensures !committed ==> Pristine()
      ensures committed ==> unchanged(this)
    {
      if committed { return; }
      pendingWorkflows, pendingAuditLogs := [], [];
      pendingUpdates, pendingResultUpdates := map[], map[];
    }
  }

  /** A rolled-back transaction has nothing left to commit. */
  method RollbackThenCommit(tx: FakeTx)
    requires !tx.committed
    modifies tx, tx.store
    ensures tx.store.Contents() == old(tx.store.Contents())
  {
    tx.Rollback();
    tx.Commit();
  }

  /** A double commit, or a rollback after the commit, adds nothing to the first commit. */
  method CommitAgain(tx: FakeTx)
    requires !tx.committed
    modifies tx, tx.store
    ensures tx.store.Contents() == old(tx.Flushed(tx.store.Contents()))
  {
    tx.Commit();
    tx.Rollback();
    tx.Commit();
  }

  // ----- the operations -----

  datatype Outcome =
    | Done | NotFound | GetFailed | InsertFailed | UpdateFailed | AuditFailed | InvalidTransition | Conflict

  /** What an operation on the in-memory store answers and leaves behind, for every choice of injected faults. */
  function Expected(authEnabled: bool, db: Db, op: Op, f: InjectedFaults): (Outcome, Db) {
    var after := Atomic(Machine(authEnabled), db, op);
    if op.request.Create? then
      if f.onInsert then (InsertFailed, db)
      else if f.onAudit then (AuditFailed, db)
      else (Done, Table(
        db.rows[op.id := Workflow(op.request.documentId, Pending, None)],
        db.log + [Event(op.at, WorkflowCreated, op.id, ResolveUser(authEnabled, op.request.user),
            Document(op.request.documentId))]))
    else if f.onGet then (GetFailed, db)
    else if op.id !in db.rows then (NotFound, db)
    else if op.request.Callback? && db.rows[op.id].state != Running then
      (Conflict, if f.onAudit then db else after)
    else if Program(authEnabled, op, Some(db.rows[op.id])).None? then (InvalidTransition, db)
    else if f.onUpdate then (UpdateFailed, db)
    else if f.onAudit then (AuditFailed, db)
    else (Done, after)
  }

  /** What an answer says, on the request's arguments and the stored fields: `Done` exactly when nothing failed and the
      row let the request through; a conflict exactly for a callback on a workflow that is not RUNNING; any other
      answer leaves the store alone. */
  ghost predicate Answers(authEnabled: bool, db: Db, n: Db, op: Op, f: InjectedFaults, r: Outcome) {
    && (r == Done <==>
      && !f.onAudit
      && (op.request.Create? ==> !f.onInsert)
      && (!op.request.Create? ==> !f.onGet && !f.onUpdate && Accepts(db, op))
      && (op.request.Callback? ==> db.rows[op.id].state == Running))
    && (r == Done ==> Did(authEnabled, db, n, op))
    && (r == Conflict <==>
      op.request.Callback? && !f.onGet && op.id in db.rows && db.rows[op.id].state != Running)
    && (r == Conflict && !f.onAudit ==> Did(authEnabled, db, n, op))
    && (r != Done && (r != Conflict || f.onAudit) ==> n == db)
    && (r == NotFound ==> op.id !in db.rows)
    && (r == InvalidTransition ==> op.id in db.rows && !Accepts(db, op))
    && (r == GetFailed ==> f.onGet) && (r == InsertFailed ==> f.onInsert)
    && (r == UpdateFailed ==> f.onUpdate) && (r == AuditFailed ==> f.onAudit)
  }

  lemma ExpectedAnswers(authEnabled: bool, db: Db, op: Op, f: InjectedFaults)
    ensures var (r, n) := Expected(authEnabled, db, op, f); Answers(authEnabled, db, n, op, f, r)
  {
    ProgramAccepts(authEnabled, db, op);
    if !op.request.Create? && Accepts(db, op) { AcceptedDid(authEnabled, db, op); }
  }

  /** The state machine, the create coordinator and the callback handler: each operation begins a transaction
      and runs in it. The `...In` form takes any fresh transaction, so that every failure point is covered. */
  class StateMachine {
    const store: FakeStore
    const authEnabled: bool

    constructor (store: FakeStore, authEnabled: bool)
      ensures this.store == store && this.authEnabled == authEnabled
    {
      this.store, this.authEnabled := store, authEnabled;
    }

    method ExecuteWorkflowCreate(id: Uuid, documentId: string, user: string, at: int) returns (r: Outcome)
      modifies store
      ensures (r, store.Contents()) == Expected(authEnabled, old(store.Contents()),
          Op(id, at, Create(documentId, user)), old(store.Faults()))
      ensures Answers(authEnabled, old(store.Contents()), store.Contents(),
          Op(id, at, Create(documentId, user)), old(store.Faults()), r)
    {
      ExpectedAnswers(authEnabled, store.Contents(), Op(id, at, Create(documentId, user)), store.Faults());
      var tx := store.BeginTx();
      r := ExecuteWorkflowCreateIn(tx, id, documentId, user, at);
    }

    method ExecuteWorkflowCreateIn(tx: FakeTx, id: Uuid, documentId: string, user: string, at: int) returns (r: Outcome)
      requires tx.store == store && tx.Pristine()
      modifies tx, store
      ensures (r, store.Contents()) == Expected(authEnabled, old(store.Contents()),
          Op(id, at, Create(documentId, user)), old(tx.Faults()))
    {
      var w := Workflow(documentId, Pending, None);
      var ok := tx.InsertWorkflow(id, w);
      if !ok { tx.Rollback(); return InsertFailed; }
      var e := Event(at, WorkflowCreated, id, ResolveUser(authEnabled, user), Document(documentId));
      ok := tx.InsertAuditLog(e);
      if !ok { tx.Rollback(); return AuditFailed; }
      assert tx.pendingWorkflows == [(id, w)] && tx.pendingAuditLogs == [e];
      assert [(id, w)][..0] == [];
      assert Inserted(store.workflows, [(id, w)]) == store.workflows[id := w];
      EmptyUpdates(Inserted(store.workflows, tx.pendingWorkflows));
      tx.Commit();
      tx.Rollback();
      return Done;
    }

    method Start(id: Uuid, at: int) returns (r: Outcome)
      modifies store
      ensures (r, store.Contents()) == Expected(authEnabled, old(store.Contents()), Op(id, at, Request.Start),
          old(store.Faults()))
      ensures Answers(authEnabled, old(store.Contents()), store.Contents(),
          Op(id, at, Request.Start), old(store.Faults()), r)
    {
      ExpectedAnswers(authEnabled, store.Contents(), Op(id, at, Request.Start), store.Faults());
      var tx := store.BeginTx();
      r := StartIn(tx, id, at);
    }

    method StartIn(tx: FakeTx, id: Uuid, at: int) returns (r: Outcome)
      requires tx.store == store && tx.Pristine()
      modifies tx, store
      ensures (r, store.Contents()) == Expected(authEnabled, old(store.Contents()), Op(id, at, Request.Start),
          old(tx.Faults()))
    {
      var wf := tx.GetWorkflow(id);
      if wf.Err? { tx.Rollback(); return wf.error; }
      if !IsValidTransition(wf.value.state, Running) { tx.Rollback(); return InvalidTransition; }
      var ok := tx.UpdateWorkflowState(id, Running);
      if !ok { tx.Rollback(); return UpdateFailed; }
      var e := Event(at, TransitionedToRunning, id, DEFAULT_USER, FromTo(Pending, Running));
      ok := tx.InsertAuditLog(e);
      if !ok { tx.Rollback(); return AuditFailed; }
      assert tx.pendingUpdates == map[id := Running] && tx.pendingResultUpdates == map[] && tx.pendingAuditLogs == [e];
      FlushMatches(authEnabled, store.Contents(), Op(id, at, Request.Start), e, Running, None);
      tx.Commit();
      tx.Rollback();
      return Done;
    }

    method Complete(id: Uuid, resultJson: Json, at: int) returns (r: Outcome)
      modifies store
      ensures (r, store.Contents()) == Expected(authEnabled, old(store.Contents()),
          Op(id, at, Request.Complete(resultJson)), old(store.Faults()))
      ensures Answers(authEnabled, old(store.Contents()), store.Contents(),
          Op(id, at, Request.Complete(resultJson)), old(store.Faults()), r)
    {
      ExpectedAnswers(authEnabled, store.Contents(), Op(id, at, Request.Complete(resultJson)), store.Faults());
      var tx := store.BeginTx();
      r := CompleteIn(tx, id, resultJson, at);
    }

    method CompleteIn(tx: FakeTx, id: Uuid, resultJson: Json, at: int) returns (r: Outcome)
      requires tx.store == store && tx.Pristine()
      modifies tx, store
      ensures (r, store.Contents()) == Expected(authEnabled, old(store.Contents()),
          Op(id, at, Request.Complete(resultJson)), old(tx.Faults()))
    {
      var wf := tx.GetWorkflow(id);
      if wf.Err? { tx.Rollback(); return wf.error; }
      if !IsValidTransition(wf.value.state, Completed) { tx.Rollback(); return InvalidTransition; }
      var ok := tx.UpdateWorkflowState(id, Completed);
      if !ok { tx.Rollback(); return UpdateFailed; }
      tx.UpdateWorkflowResult(id, resultJson);
      var e := Event(at, WorkflowCompleted, id, DEFAULT_USER, NoDetails);
      ok := tx.InsertAuditLog(e);
      if !ok { tx.Rollback(); return AuditFailed; }
      assert tx.pendingUpdates == map[id := Completed] && tx.pendingResultUpdates == map[id := resultJson]
          && tx.pendingAuditLogs == [e];
      FlushMatches(authEnabled, store.Contents(), Op(id, at, Request.Complete(resultJson)), e, Completed,
          Some(resultJson));
      tx.Commit();
      tx.Rollback();
      return Done;
    }

    method Fail(id: Uuid, reason: string, at: int) returns (r: Outcome)
      modifies store
      ensures (r, store.Contents()) == Expected(authEnabled, old(store.Contents()), Op(id, at, Request.Fail(reason)),
          old(store.Faults()))
      ensures Answers(authEnabled, old(store.Contents()), store.Contents(),
          Op(id, at, Request.Fail(reason)), old(store.Faults()), r)
    {
      ExpectedAnswers(authEnabled, store.Contents(), Op(id, at, Request.Fail(reason)), store.Faults());
      var tx := store.BeginTx();
      r := FailIn(tx, id, reason, at);
    }

    method FailIn(tx: FakeTx, id: Uuid, reason: string, at: int) returns (r: Outcome)
      requires tx.store == store && tx.Pristine()
      modifies tx, store
      ensures (r, store.Contents()) == Expected(authEnabled, old(store.Contents()), Op(id, at, Request.Fail(reason)),
          old(tx.Faults()))
    {
      var wf := tx.GetWorkflow(id);
      if wf.Err? { tx.Rollback(); return wf.error; }
      if !IsValidTransition(wf.value.state, Failed) { tx.Rollback(); return InvalidTransition; }
      var ok := tx.UpdateWorkflowState(id, Failed);
      if !ok { tx.Rollback(); return UpdateFailed; }
      var e := if wf.value.state == Pending then Event(at, FailedDispatch, id, DEFAULT_USER, NoDetails)
               else Event(at, FailedCallback, id, DEFAULT_USER, Reason(reason));
      assert Program(authEnabled, Op(id, at, Request.Fail(reason)), Some(wf.value))
          == Some([Write(wf.value.(state := Failed)), Log(e)]);
      ok := tx.InsertAuditLog(e);
      if !ok { tx.Rollback(); return AuditFailed; }
      assert tx.pendingUpdates == map[id := Failed] && tx.pendingResultUpdates == map[] && tx.pendingAuditLogs == [e];
      FlushMatches(authEnabled, store.Contents(), Op(id, at, Request.Fail(reason)), e, Failed, None);
      tx.Commit();
      tx.Rollback();
      return Done;
    }

    method HandleCallback(id: Uuid, completed: bool, resultJson: Json, at: int) returns (r: Outcome)
      modifies store
      ensures (r, store.Contents()) == Expected(authEnabled, old(store.Contents()),
          Op(id, at, Callback(completed, resultJson)), old(store.Faults()))
      ensures Answers(authEnabled, old(store.Contents()), store.Contents(),
          Op(id, at, Callback(completed, resultJson)), old(store.Faults()), r)
    {
      ExpectedAnswers(authEnabled, store.Contents(), Op(id, at, Callback(completed, resultJson)), store.Faults());
      var tx := store.BeginTx();
      r := HandleCallbackIn(tx, id, completed, resultJson, at);
    }

    method HandleCallbackIn(tx: FakeTx, id: Uuid, completed: bool, resultJson: Json, at: int) returns (r: Outcome)
      requires tx.store == store && tx.Pristine()
      modifies tx, store
      ensures (r, store.Contents()) == Expected(authEnabled, old(store.Contents()),
          Op(id, at, Callback(completed, resultJson)), old(tx.Faults()))
      ensures Answers(authEnabled, old(store.Contents()), store.Contents(),
          Op(id, at, Callback(completed, resultJson)), old(tx.Faults()), r)
    {
      ExpectedAnswers(authEnabled, store.Contents(), Op(id, at, Callback(completed, resultJson)), tx.Faults());
      var json := if |resultJson| == 0 then "{}" else resultJson;
      var wf := tx.GetWorkflow(id);
      if wf.Err? { tx.Rollback(); return wf.error; }
      if wf.value.state != Running {
        RecordRejectedTerminal(tx, id, wf.value.state, completed, resultJson, at);
        return Conflict;
      }
      r := FinishIn(tx, id, wf.value, completed, resultJson, json, at);
    }

    /** recordRejectedTerminal: the rejection is the transaction's only write; a failure to write it is only logged. */
    method RecordRejectedTerminal(tx: FakeTx, id: Uuid, current: State, completed: bool, ghost resultJson: Json,
        at: int)
      requires tx.store == store && tx.Pristine()
      requires id in store.workflows && store.workflows[id].state == current && current != Running
      modifies tx, store
      ensures store.Contents() == if old(tx.failOnAuditInsert) then old(store.Contents())
              else Atomic(Machine(authEnabled), old(store.Contents()), Op(id, at, Callback(completed, resultJson)))
    {
      var rejected := Event(at, CallbackRejectedTerminal, id, DEFAULT_USER, Rejected(current, completed));
      var recorded := tx.InsertAuditLog(rejected);
      assert tx.pendingAuditLogs == if recorded then [rejected] else [];
      RejectionMatches(authEnabled, store.Contents(), Op(id, at, Callback(completed, resultJson)), rejected);
      tx.Commit();
      tx.Rollback();
    }

    /** The rest of the callback for a RUNNING workflow: state, result and event together. */
    method FinishIn(tx: FakeTx, id: Uuid, wf: Workflow, completed: bool, ghost resultJson: Json, json: Json, at: int)
      returns (r: Outcome)
      requires tx.store == store && tx.Pristine()
      requires id in store.workflows && store.workflows[id] == wf && wf.state == Running
      requires json == Normalized(resultJson)
      modifies tx, store
      ensures r == if old(tx.failOnUpdateState) then UpdateFailed
              else if old(tx.failOnAuditInsert) then AuditFailed
              else Done
      ensures store.Contents() == if r != Done then old(store.Contents())
              else Atomic(Machine(authEnabled), old(store.Contents()), Op(id, at, Callback(completed, resultJson)))
    {
      var state := if completed then Completed else Failed;
      var action := if completed then WorkflowCompleted else FailedCallback;
      var ok := tx.UpdateWorkflowState(id, state);
      if !ok { tx.Rollback(); return UpdateFailed; }
      tx.UpdateWorkflowResult(id, json);
      var e := Event(at, action, id, DEFAULT_USER, NoDetails);
      ok := tx.InsertAuditLog(e);
      if !ok { tx.Rollback(); return AuditFailed; }
      assert tx.pendingUpdates == map[id := state] && tx.pendingResultUpdates == map[id := json]
          && tx.pendingAuditLogs == [e];
      FlushMatches(authEnabled, store.Contents(), Op(id, at, Callback(completed, resultJson)), e, state, Some(json));
      tx.Commit();
      tx.Rollback();
      return Done;
    }
  }

  /** One buffered state change, an optional result and one event, flushed together, make the atomic step. */
  lemma FlushMatches(authEnabled: bool, db: Db, op: Op, e: WfEvent, state: State, result: Option<Json>)
    requires op.id in db.rows
    requires
      var w := db.rows[op.id];
      var p := Program(authEnabled, op, Some(w));
      p == Some(if result.Some? then [Write(w.(state := state)), Write(w.(state := state, result := result)), Log(e)]
                else [Write(w.(state := state)), Log(e)])
    ensures
      var results := if result.Some? then map[op.id := result.value] else map[];
      Atomic(Machine(authEnabled), db, op)
        == Table(WithResults(WithStates(Inserted(db.rows, []), map[op.id := state]), results), db.log + [e])
  {
    var w := db.rows[op.id];
    StmtEffects(w.(state := state), w.(state := state, result := result), e);
  }

  lemma EmptyUpdates(rows: map<Uuid, Workflow>)
    ensures WithStates(rows, map[]) == rows && WithResults(rows, map[]) == rows
  {
  }

  lemma RejectionMatches(authEnabled: bool, db: Db, op: Op, e: WfEvent)
    requires op.id in db.rows && Program(authEnabled, op, Some(db.rows[op.id])) == Some([Log(e)])
    ensures Atomic(Machine(authEnabled), db, op)
      == Table(WithResults(WithStates(Inserted(db.rows, []), map[]), map[]), db.log + [e])
    ensures db == Table(WithResults(WithStates(Inserted(db.rows, []), map[]), map[]), db.log + [])
  {
    StmtEffects(db.rows[op.id], db.rows[op.id], e);
    assert WithStates(db.rows, map[]) == db.rows && WithResults(db.rows, map[]) == db.rows;
  }

  /** Creating overwrites a stored row where the database would refuse the duplicate key, so the in-memory
      create is the atomic create exactly when the id is new. */
  lemma CreateIsAtomicIffFresh(authEnabled: bool, db: Db, op: Op)
    requires op.request.Create?
    ensures Expected(authEnabled, db, op, NO_FAULTS).1 == Atomic(Machine(authEnabled), db, op)
      <==> op.id !in db.rows
  {
    var p := Program(authEnabled, op, Lookup(db.rows, op.id));
    if p.Some? {
      StmtEffects(p.value[0].row, p.value[0].row, p.value[1].ev);
      assert p.value == [Write(p.value[0].row), Log(p.value[1].ev)];
    } else {
      assert |Expected(authEnabled, db, op, NO_FAULTS).1.log| == |db.log| + 1;
    }
  }

  /** All or nothing: whatever fails, an operation with a fresh create key leaves either the old store or the
      atomic step's, and only a success (or an audited rejection) moves it. */
  lemma AllOrNothing(authEnabled: bool, db: Db, op: Op, f: InjectedFaults)
    requires op.request.Create? ==> op.id !in db.rows
    ensures var (r, n) := Expected(authEnabled, db, op, f);
      && (n == db || n == Atomic(Machine(authEnabled), db, op))
      && (r == Done ==> n != db && n == Atomic(Machine(authEnabled), db, op))
      && (r != Done && r != Conflict ==> n == db)
      && db.log <= n.log && |n.log| <= |db.log| + 1
  {
    if op.request.Create? {
      CreateIsAtomicIffFresh(authEnabled, db, op);
    }
    var e := AtomicEffect(authEnabled, db, op);
    var p := Program(authEnabled, op, Lookup(db.rows, op.id));
    if p.Some? {
      var last := ProgramEffect(authEnabled, op, Lookup(db.rows, op.id));
    }
  }

  /** One operation on the in-memory store, with any faults, keeps audit log and rows in agreement. */
  lemma ExpectedKeepsAgreement(authEnabled: bool, db: Db, op: Op, f: InjectedFaults, id: Uuid)
    requires Agrees(db, id)
    requires op.request.Create? ==> op.id !in db.rows
    ensures Agrees(Expected(authEnabled, db, op, f).1, id)
  {
    AllOrNothing(authEnabled, db, op, f);
    AtomicKeepsAgreement(authEnabled, db, op, id);
  }

  // ----- runs -----

  /** One operation and the failures injected into its transaction. */
  datatype Attempt = Attempt(op: Op, faults: InjectedFaults)

  function RunAttempts(authEnabled: bool, attempts: seq<Attempt>): Db {
    if attempts == [] then Table(map[], [])
    else
      var last := attempts[|attempts| - 1];
      Expected(authEnabled, RunAttempts(authEnabled, attempts[..|attempts| - 1]), last.op, last.faults).1
  }

  /** A create whose id is already stored, with no failure to stop it. */
  predicate Overwrites(db: Db, a: Attempt) {
    a.op.request.Create? && a.op.id in db.rows && !a.faults.onInsert && !a.faults.onAudit
  }

  /** The events of `id` could not have happened in this order. */
  ghost predicate Broken(db: Db, id: Uuid) {
    !LegalPath(EventsOf(db.log, id))
  }

  lemma ExpectedAppends(authEnabled: bool, db: Db, a: Attempt) returns (e: WfEvent)
    ensures var n := Expected(authEnabled, db, a.op, a.faults).1;
      n.log == db.log || n.log == db.log + [e]
    ensures Overwrites(db, a) ==>
      && e.resourceId == a.op.id && e.action == WorkflowCreated
      && Expected(authEnabled, db, a.op, a.faults).1.log == db.log + [e]
  {
    e := AtomicEffect(authEnabled, db, a.op);
    if a.op.request.Create? {
      e := Event(a.op.at, WorkflowCreated, a.op.id, ResolveUser(authEnabled, a.op.request.user),
          Document(a.op.request.documentId));
    }
  }

  lemma LegalPrefix(evs: seq<WfEvent>, e: WfEvent)
    requires LegalPath(evs + [e])
    ensures LegalPath(evs) && MayFollow(Replay(evs), e.action)
  {
    var all := evs + [e];
    forall i | 0 <= i < |evs| ensures MayFollow(Replay(evs[..i]), evs[i].action) {
      assert MayFollow(Replay(all[..i]), all[i].action);
      assert all[..i] == evs[..i];
    }
    assert MayFollow(Replay(all[..|evs|]), all[|evs|].action);
    assert all[..|evs|] == evs;
  }

  lemma BrokenStays(authEnabled: bool, db: Db, a: Attempt, id: Uuid)
    requires Broken(db, id)
    ensures Broken(Expected(authEnabled, db, a.op, a.faults).1, id)
  {
    var e := ExpectedAppends(authEnabled, db, a);
    EventsOfSnoc(db.log, e, id);
    if LegalPath(EventsOf(db.log, id) + [e]) { LegalPrefix(EventsOf(db.log, id), e); }
  }

  lemma OverwriteBreaks(authEnabled: bool, db: Db, a: Attempt)
    requires Agrees(db, a.op.id) && Overwrites(db, a)
    ensures Broken(Expected(authEnabled, db, a.op, a.faults).1, a.op.id)
  {
    var e := ExpectedAppends(authEnabled, db, a);
    EventsOfSnoc(db.log, e, a.op.id);
    if LegalPath(EventsOf(db.log, a.op.id) + [e]) { LegalPrefix(EventsOf(db.log, a.op.id), e); }
  }

  lemma NoOverwriteAgrees(authEnabled: bool, db: Db, a: Attempt, id: Uuid)
    requires Agrees(db, id) && !Overwrites(db, a)
    ensures Agrees(Expected(authEnabled, db, a.op, a.faults).1, id)
  {
    if a.op.request.Create? && a.op.id in db.rows {
      assert Expected(authEnabled, db, a.op, a.faults).1 == db;
    } else {
      ExpectedKeepsAgreement(authEnabled, db, a.op, a.faults, id);
    }
  }

  ghost predicate SomeOverwrite(authEnabled: bool, attempts: seq<Attempt>) {
    exists k :: 0 <= k < |attempts| && Overwrites(RunAttempts(authEnabled, attempts[..k]), attempts[k])
  }

  lemma SomeOverwriteSnoc(authEnabled: bool, init: seq<Attempt>, last: Attempt)
    ensures SomeOverwrite(authEnabled, init + [last])
      <==> SomeOverwrite(authEnabled, init) || Overwrites(RunAttempts(authEnabled, init), last)
  {
    var all := init + [last];
    assert all[..|init|] == init && all[|init|] == last;
    forall k | 0 <= k < |init| ensures all[..k] == init[..k] && all[k] == init[k] {}
    if SomeOverwrite(authEnabled, init) {
      var k :| 0 <= k < |init| && Overwrites(RunAttempts(authEnabled, init[..k]), init[k]);
      assert Overwrites(RunAttempts(authEnabled, all[..k]), all[k]);
    }
    if Overwrites(RunAttempts(authEnabled, init), last) {
      assert Overwrites(RunAttempts(authEnabled, all[..|init|]), all[|init|]);
    }
  }

  ghost predicate AllAgree(db: Db) {
    forall id :: Agrees(db, id)
  }

  ghost predicate SomeBroken(db: Db) {
    exists id :: Broken(db, id)
  }

  lemma AttemptStep(authEnabled: bool, db: Db, a: Attempt)
    requires AllAgree(db) || SomeBroken(db)
    ensures var n := Expected(authEnabled, db, a.op, a.faults).1;
      && (SomeBroken(db) || Overwrites(db, a) ==> SomeBroken(n))
      && (AllAgree(db) && !Overwrites(db, a) ==> AllAgree(n))
  {
    var n := Expected(authEnabled, db, a.op, a.faults).1;
    if SomeBroken(db) {
      var id :| Broken(db, id);
      BrokenStays(authEnabled, db, a, id);
    } else if Overwrites(db, a) {
      OverwriteBreaks(authEnabled, db, a);
    }
    if AllAgree(db) && !Overwrites(db, a) {
      forall id ensures Agrees(n, id) {
        NoOverwriteAgrees(authEnabled, db, a, id);
      }
    }
  }

  lemma {:induction false} AgreesOrBroken(authEnabled: bool, attempts: seq<Attempt>)
    ensures var db := RunAttempts(authEnabled, attempts);
      if SomeOverwrite(authEnabled, attempts) then SomeBroken(db) else AllAgree(db)
  {
    if attempts != [] {
      var init, last := attempts[..|attempts| - 1], attempts[|attempts| - 1];
      assert attempts == init + [last];
      AgreesOrBroken(authEnabled, init);
      SomeOverwriteSnoc(authEnabled, init, last);
      AttemptStep(authEnabled, RunAttempts(authEnabled, init), last);
    }
  }

  /** Over every serial run, with failures injected at will, audit log and rows agree on every workflow at the end
      exactly when no create went through on an id that was already stored. */
  lemma RunAgreesIffNoOverwrite(authEnabled: bool, attempts: seq<Attempt>)
    ensures (forall id :: Agrees(RunAttempts(authEnabled, attempts), id)) <==> !SomeOverwrite(authEnabled, attempts)
  {
    AgreesOrBroken(authEnabled, attempts);
    if SomeOverwrite(authEnabled, attempts) {
      var id :| Broken(RunAttempts(authEnabled, attempts), id);
      assert !Agrees(RunAttempts(authEnabled, attempts), id);
    }
  }
}
