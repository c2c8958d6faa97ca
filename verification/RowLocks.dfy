/**
 Transactions that lock one row (SELECT ... FOR UPDATE, or the unique-index
 entry of a row they insert), then send statements one at a time, then commit.
 The statements of different transactions interleave freely.

 Main result: whatever the interleaving, the committed table is the one obtained
 by executing the committed operations one after the other, in commit order.
 */
module RowLocks {
  import opened Common

  type TxId = nat

  /** What one statement does inside its transaction. */
  datatype Stmt<Row, Ev> = Write(row: Row) | Log(ev: Ev)

  /** One entity table together with the audit log its transactions append to. */
  datatype Table<Row, Ev> = Table(rows: map<Uuid, Row>, log: seq<Ev>)

  /**
   A family of operations. `program(op, row)` lists the statements the operation sends once it has
   read `row` under the lock; None means that it stops there and rolls back (row missing, transition
   refused, primary key already used).
   */
  datatype Protocol<!Row, !Ev, !Op> = Protocol(
    key: Op -> Uuid,
    program: (Op, Option<Row>) -> Option<seq<Stmt<Row, Ev>>>)

  /** The row version a statement list leaves behind; None when it never writes the row. */
  function Written<Row, Ev>(stmts: seq<Stmt<Row, Ev>>): (r: Option<Row>)
  {
    if stmts == [] then None
    else
      match stmts[|stmts| - 1]
      case Write(row) => Some(row)
      case Log(_) => Written(stmts[..|stmts| - 1])
  }

  /** The audit events a statement list appends, in order. */
  function Logged<Row, Ev>(stmts: seq<Stmt<Row, Ev>>): (evs: seq<Ev>)
  {
    if stmts == [] then []
    else
      var init := Logged(stmts[..|stmts| - 1]);
      match stmts[|stmts| - 1]
      case Write(_) => init
      case Log(ev) => init + [ev]
  }

  lemma StmtEffects<Row, Ev>(a: Row, b: Row, e: Ev)
    ensures Written<Row, Ev>([Log(e)]).None? && Logged<Row, Ev>([Log(e)]) == [e]
    ensures Written([Write(a), Log(e)]) == Some(a) && Logged([Write(a), Log(e)]) == [e]
    ensures Written([Write(a), Write(b), Log(e)]) == Some(b) && Logged([Write(a), Write(b), Log(e)]) == [e]
  {
    var one: seq<Stmt<Row, Ev>> := [Log(e)];
    var two: seq<Stmt<Row, Ev>> := [Write(a), Log(e)];
    var three: seq<Stmt<Row, Ev>> := [Write(a), Write(b), Log(e)];
    assert one[..0] == [] && two[..1] == [Write(a)] && two[..1][..0] == [];
    assert three[..2] == [Write(a), Write(b)] && three[..2][..1] == [Write(a)] && three[..2][..1][..0] == [];
  }

  function Install<Row, Ev>(table: Table<Row, Ev>, k: Uuid, row: Option<Row>, evs: seq<Ev>): Table<Row, Ev>
  {
    Table(if row.Some? then table.rows[k := row.value] else table.rows, table.log + evs)
  }

  /** The whole operation executed at once, with nobody else around. */
  function Atomic<Row, Ev, Op>(p: Protocol<Row, Ev, Op>, table: Table<Row, Ev>, op: Op): Table<Row, Ev>
  {
    match p.program(op, Lookup(table.rows, p.key(op)))
    case None => table
    case Some(stmts) => Install(table, p.key(op), Written(stmts), Logged(stmts))
  }

  /** The operations executed one after the other. */
  function Serial<Row, Ev, Op>(p: Protocol<Row, Ev, Op>, table: Table<Row, Ev>, ops: seq<Op>): Table<Row, Ev>
  {
    if ops == [] then table
    else Atomic(p, Serial(p, table, ops[..|ops| - 1]), ops[|ops| - 1])
  }

  // ----- the interleaved system -----

  datatype Tx<Row, Ev, Op> =
    | Waiting(op: Op)  // BEGIN sent, row not read yet
    | Holding(op: Op, stmts: seq<Stmt<Row, Ev>>, pc: nat, row: Option<Row>, evs: seq<Ev>)
      // row locked; `row` and `evs` are its uncommitted effects after `pc` statements

  datatype Sys<Row, Ev, Op> = Sys(
    table: Table<Row, Ev>,
    locks: map<Uuid, TxId>,
    txs: map<TxId, Tx<Row, Ev, Op>>,
    history: seq<Op>)  // operations in commit order

  datatype Label<Op> =
    | Begin(t: TxId, op: Op)
    | Get(t: TxId)
    | Exec(t: TxId)
    | Commit(t: TxId)
    | Abort(t: TxId)

  /** One step of one transaction; a blocked or impossible step changes nothing. */
  function Next<Row, Ev, Op>(p: Protocol<Row, Ev, Op>, s: Sys<Row, Ev, Op>, l: Label<Op>): Sys<Row, Ev, Op>
  {
    match l
    case Begin(t, op) =>
      if t in s.txs then s else s.(txs := s.txs[t := Waiting(op)])
    case Get(t) =>
      if t !in s.txs || !s.txs[t].Waiting? then s
      else
        var op := s.txs[t].op;
        var k := p.key(op);
        if k in s.locks then s
        else
          (match p.program(op, Lookup(s.table.rows, k))
           case None => s.(txs := s.txs - {t})
           case Some(stmts) => s.(locks := s.locks[k := t], txs := s.txs[t := Holding(op, stmts, 0, None, [])]))
    case Exec(t) =>
      if t !in s.txs || !s.txs[t].Holding? || s.txs[t].pc >= |s.txs[t].stmts| then s
      else
        var x := s.txs[t];
        (match x.stmts[x.pc]
         case Write(row) => s.(txs := s.txs[t := x.(pc := x.pc + 1, row := Some(row))])
         case Log(ev) => s.(txs := s.txs[t := x.(pc := x.pc + 1, evs := x.evs + [ev])]))
    case Commit(t) =>
      if t !in s.txs || !s.txs[t].Holding? || s.txs[t].pc != |s.txs[t].stmts| then s
      else
        var x := s.txs[t];
        var k := p.key(x.op);
        Sys(Install(s.table, k, x.row, x.evs), s.locks - {k}, s.txs - {t}, s.history + [x.op])
    case Abort(t) =>
      if t !in s.txs then s
      else
        var x := s.txs[t];
        s.(locks := if x.Holding? then s.locks - {p.key(x.op)} else s.locks, txs := s.txs - {t})
  }

  function Run<Row, Ev, Op>(p: Protocol<Row, Ev, Op>, s: Sys<Row, Ev, Op>, ls: seq<Label<Op>>): Sys<Row, Ev, Op>
  {
    if ls == [] then s else Next(p, Run(p, s, ls[..|ls| - 1]), ls[|ls| - 1])
  }

  /** No transaction open, nothing committed. */
  function Empty<Row, Ev, Op>(): Sys<Row, Ev, Op> {
    Sys(Table(map[], []), map[], map[], [])
  }

  // ----- the invariant -----

  ghost predicate TxOk<Row, Ev, Op>(p: Protocol<Row, Ev, Op>, s: Sys<Row, Ev, Op>, t: TxId)
    requires t in s.txs
  {
    var x := s.txs[t];
    x.Holding? ==>
      && p.key(x.op) in s.locks && s.locks[p.key(x.op)] == t
      && p.program(x.op, Lookup(s.table.rows, p.key(x.op))) == Some(x.stmts)
      && x.pc <= |x.stmts|
      && x.row == Written(x.stmts[..x.pc])
      && x.evs == Logged(x.stmts[..x.pc])
  }

  ghost predicate LockOk<Row, Ev, Op>(p: Protocol<Row, Ev, Op>, s: Sys<Row, Ev, Op>, k: Uuid)
    requires k in s.locks
  {
    && s.locks[k] in s.txs
    && s.txs[s.locks[k]].Holding?
    && p.key(s.txs[s.locks[k]].op) == k
  }

  ghost predicate Inv<Row, Ev, Op>(p: Protocol<Row, Ev, Op>, s: Sys<Row, Ev, Op>)
  {
    && (forall t :: t in s.txs ==> TxOk(p, s, t))
    && (forall k :: k in s.locks ==> LockOk(p, s, k))
  }

  lemma NextKeepsOwnTx<Row, Ev, Op>(p: Protocol<Row, Ev, Op>, s: Sys<Row, Ev, Op>, l: Label<Op>)
    requires l.t in s.txs ==> TxOk(p, s, l.t)
    requires l.t in Next(p, s, l).txs
    ensures TxOk(p, Next(p, s, l), l.t)
  {
    if l.Exec? && s.txs[l.t].Holding? && s.txs[l.t].pc < |s.txs[l.t].stmts| {
      var x := s.txs[l.t];
      assert x.stmts[..x.pc + 1][..x.pc] == x.stmts[..x.pc];
    }
  }

  lemma NextKeepsOtherTx<Row, Ev, Op>(p: Protocol<Row, Ev, Op>, s: Sys<Row, Ev, Op>, l: Label<Op>, t: TxId)
    requires t in s.txs && TxOk(p, s, t) && t != l.t && (l.t in s.txs ==> TxOk(p, s, l.t))
    ensures t in Next(p, s, l).txs && TxOk(p, Next(p, s, l), t)
  {
  }

  lemma NextKeepsTxs<Row, Ev, Op>(p: Protocol<Row, Ev, Op>, s: Sys<Row, Ev, Op>, l: Label<Op>, t: TxId)
    requires Inv(p, s) && t in Next(p, s, l).txs
    ensures TxOk(p, Next(p, s, l), t)
  {
    if t in s.txs { assert TxOk(p, s, t); }
    if l.t in s.txs { assert TxOk(p, s, l.t); }
    if t == l.t { NextKeepsOwnTx(p, s, l); } else { NextKeepsOtherTx(p, s, l, t); }
  }

  lemma NextKeepsLocks<Row, Ev, Op>(p: Protocol<Row, Ev, Op>, s: Sys<Row, Ev, Op>, l: Label<Op>, k: Uuid)
    requires Inv(p, s) && k in Next(p, s, l).locks
    ensures LockOk(p, Next(p, s, l), k)
  {
    if k in s.locks {
      assert LockOk(p, s, k);
    }
    if l.t in s.txs {
      assert TxOk(p, s, l.t);
    }
  }

  lemma NextKeepsInv<Row, Ev, Op>(p: Protocol<Row, Ev, Op>, s: Sys<Row, Ev, Op>, l: Label<Op>)
    requires Inv(p, s)
    ensures Inv(p, Next(p, s, l))
  {
    forall t | t in Next(p, s, l).txs ensures TxOk(p, Next(p, s, l), t) {
      NextKeepsTxs(p, s, l, t);
    }
    forall k | k in Next(p, s, l).locks ensures LockOk(p, Next(p, s, l), k) {
      NextKeepsLocks(p, s, l, k);
    }
  }

  /** A commit has exactly the effect of the whole operation executed at that instant. */
  lemma CommitIsAtomic<Row, Ev, Op>(p: Protocol<Row, Ev, Op>, s: Sys<Row, Ev, Op>, t: TxId)
    requires Inv(p, s)
    ensures var n := Next(p, s, Commit(t));
      || (n.table == s.table && n.history == s.history)
      || (exists op :: n.history == s.history + [op] && n.table == Atomic(p, s.table, op))
  {
    var n := Next(p, s, Commit(t));
    if n.history != s.history {
      assert TxOk(p, s, t);
      var x := s.txs[t];
      assert x.stmts[..x.pc] == x.stmts;
      assert n.history == s.history + [x.op] && n.table == Atomic(p, s.table, x.op);
    }
  }

  lemma SerialStep<Row, Ev, Op>(p: Protocol<Row, Ev, Op>, table: Table<Row, Ev>, ops: seq<Op>, op: Op)
    ensures Serial(p, table, ops + [op]) == Atomic(p, Serial(p, table, ops), op)
  {
  }

  lemma QuietKeepsTable<Row, Ev, Op>(p: Protocol<Row, Ev, Op>, s: Sys<Row, Ev, Op>, l: Label<Op>)
    requires !l.Commit?
    ensures Next(p, s, l).table == s.table && Next(p, s, l).history == s.history
  {
  }

  /** `m` is what the operations `ops`, executed one after the other, make of `s`. */
  ghost predicate SerialFrom<Row, Ev, Op>(p: Protocol<Row, Ev, Op>, s: Sys<Row, Ev, Op>, m: Sys<Row, Ev, Op>,
      ops: seq<Op>)
  {
    m.history == s.history + ops && m.table == Serial(p, s.table, ops)
  }

  lemma SerialFromStep<Row, Ev, Op>(p: Protocol<Row, Ev, Op>, s: Sys<Row, Ev, Op>, m: Sys<Row, Ev, Op>, ops: seq<Op>,
      l: Label<Op>)
    returns (more: seq<Op>)
    requires Inv(p, m) && SerialFrom(p, s, m, ops)
    ensures SerialFrom(p, s, Next(p, m, l), more)
  {
    more := ops;
    if !l.Commit? {
      QuietKeepsTable(p, m, l);
    } else {
      CommitIsAtomic(p, m, l.t);
      if Next(p, m, l).history != m.history {
        var op :| Next(p, m, l).history == m.history + [op] && Next(p, m, l).table == Atomic(p, m.table, op);
        more := ops + [op];
        SerialStep(p, s.table, ops, op);
      }
    }
  }

  /** Serializability: from any state satisfying the invariant, a run only appends committed operations
      to the history, and its table is theirs executed serially, in that order. */
  lemma {:induction false} Serializable<Row, Ev, Op>(p: Protocol<Row, Ev, Op>, s: Sys<Row, Ev, Op>, ls: seq<Label<Op>>)
    returns (more: seq<Op>)
    requires Inv(p, s)
    ensures Inv(p, Run(p, s, ls))
    ensures Run(p, s, ls).history == s.history + more
    ensures Run(p, s, ls).table == Serial(p, s.table, more)
  {
    if ls == [] {
      more := [];
    } else {
      var m, l := Run(p, s, ls[..|ls| - 1]), ls[|ls| - 1];
      var prior := Serializable(p, s, ls[..|ls| - 1]);
      NextKeepsInv(p, m, l);
      more := SerialFromStep(p, s, m, prior, l);
    }
  }

  lemma {:induction false} RunConcat<Row, Ev, Op>(p: Protocol<Row, Ev, Op>, s: Sys<Row, Ev, Op>, ls: seq<Label<Op>>,
      ms: seq<Label<Op>>)
    ensures Run(p, s, ls + ms) == Run(p, Run(p, s, ls), ms)
  {
    if ms == [] {
      assert ls + ms == ls;
    } else {
      assert (ls + ms)[..|ls + ms| - 1] == ls + ms[..|ms| - 1];
      RunConcat(p, s, ls, ms[..|ms| - 1]);
    }
  }

  /** Runs from the empty system: the committed table is the serial execution of the history. */
  lemma SerializableFromEmpty<Row, Ev, Op>(p: Protocol<Row, Ev, Op>, ls: seq<Label<Op>>)
    ensures Inv(p, Run(p, Empty(), ls))
    ensures Run(p, Empty(), ls).table == Serial(p, Table(map[], []), Run(p, Empty(), ls).history)
  {
    var more := Serializable(p, Empty(), ls);
    assert Run(p, Empty(), ls).history == more;
  }

  /** No deadlock: while a transaction is open, some transaction can take a step other than giving up. */
  lemma NoDeadlock<Row, Ev, Op>(p: Protocol<Row, Ev, Op>, s: Sys<Row, Ev, Op>)
    returns (l: Label<Op>)
    requires Inv(p, s) && s.txs != map[]
    ensures (l.Get? || l.Exec? || l.Commit?) && Next(p, s, l) != s
  {
    if k :| k in s.locks {
      assert LockOk(p, s, k);
      var t := s.locks[k];
      assert TxOk(p, s, t);
      l := if s.txs[t].pc < |s.txs[t].stmts| then Exec(t) else Commit(t);
      if l.Exec? {
        assert Next(p, s, l).txs[t] != s.txs[t];
      } else {
        assert t !in Next(p, s, l).txs;
      }
    } else {
      var t :| t in s.txs;
      assert TxOk(p, s, t);
      l := Get(t);
      assert s.txs[t].Waiting?;
      assert t !in Next(p, s, l).txs || Next(p, s, l).txs[t].Holding?;
    }
  }

  // ----- operations come from their callers and do take effect -----

  predicate ReadyToCommit<Row, Ev, Op>(s: Sys<Row, Ev, Op>, t: TxId) {
    t in s.txs && s.txs[t].Holding? && s.txs[t].pc == |s.txs[t].stmts|
  }

  /** A transaction that has sent all its statements commits its operation, and is over. */
  lemma CommitTakesEffect<Row, Ev, Op>(p: Protocol<Row, Ev, Op>, s: Sys<Row, Ev, Op>, t: TxId)
    requires Inv(p, s) && ReadyToCommit(s, t)
    ensures var op, n := s.txs[t].op, Next(p, s, Commit(t));
      && p.program(op, Lookup(s.table.rows, p.key(op))).Some?
      && n.table == Atomic(p, s.table, op) && n.history == s.history + [op] && t !in n.txs
  {
    assert TxOk(p, s, t);
    assert s.txs[t].stmts[..s.txs[t].pc] == s.txs[t].stmts;
  }

  ghost predicate Begun<Op>(ls: seq<Label<Op>>, op: Op) {
    exists i :: 0 <= i < |ls| && ls[i].Begin? && ls[i].op == op
  }

  lemma BegunSnoc<Op>(ls: seq<Label<Op>>, l: Label<Op>, op: Op)
    requires Begun(ls, op) || l == Begin(l.t, op)
    ensures Begun(ls + [l], op)
  {
    var all := ls + [l];
    if Begun(ls, op) {
      var i :| 0 <= i < |ls| && ls[i].Begin? && ls[i].op == op;
      assert all[i] == ls[i];
    } else {
      assert all[|ls|] == l;
    }
  }

  ghost predicate AllBegun<Row, Ev, Op>(ls: seq<Label<Op>>, s: Sys<Row, Ev, Op>) {
    && (forall t :: t in s.txs ==> Begun(ls, s.txs[t].op))
    && (forall k :: 0 <= k < |s.history| ==> Begun(ls, s.history[k]))
  }

  lemma NextTakesNoOther<Row, Ev, Op>(p: Protocol<Row, Ev, Op>, s: Sys<Row, Ev, Op>, l: Label<Op>)
    ensures var n := Next(p, s, l);
      && (forall t :: t in n.txs ==> (t in s.txs && n.txs[t].op == s.txs[t].op) || (l == Begin(t, n.txs[t].op)))
      && (n.history == s.history || (l.t in s.txs && n.history == s.history + [s.txs[l.t].op]))
  {
  }

  /** Every operation that is open or committed was begun by some caller, with just these arguments. */
  lemma {:induction false} OperationsWereBegun<Row, Ev, Op>(p: Protocol<Row, Ev, Op>, ls: seq<Label<Op>>)
    ensures AllBegun(ls, Run(p, Empty<Row, Ev, Op>(), ls))
  {
    if ls != [] {
      var init, l := ls[..|ls| - 1], ls[|ls| - 1];
      var s, n := Run(p, Empty<Row, Ev, Op>(), init), Run(p, Empty<Row, Ev, Op>(), ls);
      OperationsWereBegun(p, init);
      NextTakesNoOther(p, s, l);
      assert ls == init + [l];
      forall t | t in n.txs ensures Begun(ls, n.txs[t].op) { BegunSnoc(init, l, n.txs[t].op); }
      forall k | 0 <= k < |n.history| ensures Begun(ls, n.history[k]) { BegunSnoc(init, l, n.history[k]); }
    }
  }

  lemma RunSnoc<Row, Ev, Op>(p: Protocol<Row, Ev, Op>, s: Sys<Row, Ev, Op>, ls: seq<Label<Op>>, l: Label<Op>)
    ensures Run(p, s, ls + [l]) == Next(p, Run(p, s, ls), l)
  {
    assert (ls + [l])[..|ls|] == ls;
  }

  lemma RunOne<Row, Ev, Op>(p: Protocol<Row, Ev, Op>, s: Sys<Row, Ev, Op>, l: Label<Op>)
    ensures Run(p, s, [l]) == Next(p, s, l)
  {
    assert [l][..0] == [];
  }

  /** The rest of a transaction that holds its lock: one statement after the other. */
  lemma ExecsToEnd<Row, Ev, Op>(p: Protocol<Row, Ev, Op>, s: Sys<Row, Ev, Op>, t: TxId) returns (ls: seq<Label<Op>>)
    requires Inv(p, s) && t in s.txs && s.txs[t].Holding? && s.txs[t].pc <= |s.txs[t].stmts|
    ensures var n := Run(p, s, ls);
      && Inv(p, n) && n.table == s.table && n.history == s.history
      && t in n.txs && n.txs[t].Holding? && n.txs[t].op == s.txs[t].op && n.txs[t].pc == |n.txs[t].stmts|
    decreases |s.txs[t].stmts| - s.txs[t].pc
  {
    ls := [];
    if s.txs[t].pc < |s.txs[t].stmts| {
      var m := Next(p, s, Exec(t));
      NextKeepsInv(p, s, Exec(t));
      var rest := ExecsToEnd(p, m, t);
      ls := [Exec(t)] + rest;
      RunConcat(p, s, [Exec(t)], rest);
      RunOne(p, s, Exec(t));
    }
  }

  /** An operation that nobody disturbs and that the row does not refuse commits. */
  lemma LoneOperationCommits<Row, Ev, Op>(p: Protocol<Row, Ev, Op>, s: Sys<Row, Ev, Op>, t: TxId, op: Op)
    returns (ls: seq<Label<Op>>)
    requires Inv(p, s) && t !in s.txs && p.key(op) !in s.locks && p.program(op, Lookup(s.table.rows, p.key(op))).Some?
    ensures Run(p, s, ls).table == Atomic(p, s.table, op) && Run(p, s, ls).history == s.history + [op]
  {
    var begun := Next(p, s, Begin(t, op));
    var got := Next(p, begun, Get(t));
    NextKeepsInv(p, s, Begin(t, op));
    NextKeepsInv(p, begun, Get(t));
    var first := [Begin(t, op)] + [Get(t)];
    RunOne(p, s, Begin(t, op));
    RunSnoc(p, s, [Begin(t, op)], Get(t));
    var rest := ExecsToEnd(p, got, t);
    RunConcat(p, s, first, rest);
    var m := Run(p, s, first + rest);
    CommitTakesEffect(p, m, t);
    RunSnoc(p, s, first + rest, Commit(t));
    ls := first + rest + [Commit(t)];
  }
}
