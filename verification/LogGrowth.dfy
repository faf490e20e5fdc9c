/** No command takes anything back from a session's call log. */
module LogGrowth {
  import opened Wrappers
  import opened LogicalState
  import opened Upstream
  import opened Session

  ghost predicate Grows(w: World, x: World) { w.s.log <= x.s.log }

  lemma EmitGrows(w: World, x: World, c: Call)
    requires Grows(w, x)
    ensures Grows(w, Emit(x, c)) && Grows(w, TakeSlot(x)) && Grows(w, DropSlot(x))
  {
    hide Replay, Commits;
  }

  lemma PinGrows(w: World, x: World, e: Env)
    requires Grows(w, x)
    ensures Grows(w, EnsurePinned(x, e).0)
  {
    hide Replay, Commits;
  }

  lemma ReleaseGrows(w: World, x: World, discard: bool)
    requires Grows(w, x)
    ensures Grows(w, ReleasePinned(x, discard))
  {
    hide Replay, Commits;
  }

  lemma BeginGrows(w: World, e: Env)
    ensures Grows(w, BeginTransaction(w, e).0) && Grows(w, EnsureImplicit(w, e).0)
  {
    hide Replay, Commits, EnsurePinned, ReleasePinned, Grows;
    Same(w);
    PinGrows(w, w, e);
    var (x, p) := EnsurePinned(w, e);
    if !p.Denied? {
      var tx := Tx(x.s.begun, x.s.pinned.value);
      EmitGrows(w, x, BeginTx(tx, e.begin));
      var y := Emit(x, BeginTx(tx, e.begin));
      ReleaseGrows(w, y, false);
      var state := Applied(y.s.state, Statements.Begin).0;
      var z := y.(s := y.s.(begun := y.s.begun + 1, state := state));
      SameLog(w, y, z);
      EmitGrows(w, z, RollbackTx(tx, e.rollback));
      ReleaseGrows(w, Emit(z, RollbackTx(tx, e.rollback)), false);
      SameLog(w, z, z.(s := z.s.(tx := Some(tx))));
    }
  }

  lemma Same(w: World)
    ensures Grows(w, w)
  {
  }

  lemma SameLog(w: World, x: World, y: World)
    requires Grows(w, x) && x.s.log == y.s.log
    ensures Grows(w, y)
  {
  }

  lemma FinishGrows(w: World, x: World)
    requires Grows(w, x)
    ensures Grows(w, FinishTransaction(x))
  {
    hide Replay, Commits, ReleasePinned, Grows;
    SameLog(w, x, x.(s := x.s.(tx := None)));
    var c := CloseStmts(StatementsOf(x.s.prepared, true));
    EmitGrows(w, x.(s := x.s.(tx := None)), c);
    var y := Emit(x.(s := x.s.(tx := None)), c);
    var z := y.(s := y.s.(prepared := Invalidated(y.s.prepared)));
    SameLog(w, y, z);
    ReleaseGrows(w, z, false);
  }

  /** The commands that end a transaction. */
  lemma EndGrows(w: World, e: Env)
    ensures Grows(w, CommitCommand(w, e).w) && Grows(w, RollbackCommand(w, e).w) && Grows(w, AutocommitOnCommand(w, e).w)
  {
    hide Replay, Commits, FinishTransaction, Grows;
    Same(w);
    SameLog(w, w, ApplyKind(w, Statements.AutocommitOn));
    if w.s.tx.Some? {
      var c, r := CommitTx(w.s.tx.value, e.commit), RollbackTx(w.s.tx.value, e.rollback);
      EmitGrows(w, w, c);
      EmitGrows(w, w, r);
      var x, y := Emit(w, c), Emit(w, r);
      Ended(w, x);
      Ended(w, y);
    }
  }

  lemma Ended(w: World, x: World)
    requires Grows(w, x)
    ensures Grows(w, FinishTransaction(x)) && Grows(w, Poison(FinishTransaction(x)))
    ensures Grows(w, FinishTransaction(Bump(x))) && Grows(w, ApplyKind(FinishTransaction(Bump(x)), Statements.AutocommitOn))
    ensures Grows(w, FinishTransaction(Bump(ApplyKind(x, Statements.Commit)))) && Grows(w, FinishTransaction(ApplyKind(x, Statements.Rollback)))
  {
    hide Replay, Commits, FinishTransaction, Grows;
    SameLog(w, x, Bump(x));
    SameLog(w, x, Bump(ApplyKind(x, Statements.Commit)));
    SameLog(w, x, ApplyKind(x, Statements.Rollback));
    FinishGrows(w, x);
    FinishGrows(w, Bump(x));
    FinishGrows(w, Bump(ApplyKind(x, Statements.Commit)));
    FinishGrows(w, ApplyKind(x, Statements.Rollback));
    SameLog(w, FinishTransaction(x), Poison(FinishTransaction(x)));
    SameLog(w, FinishTransaction(Bump(x)), ApplyKind(FinishTransaction(Bump(x)), Statements.AutocommitOn));
  }

  lemma BorrowGrows(w: World, x: World, conn: ConnId, sql: string, read: bool)
    requires Grows(w, x)
    ensures Grows(w, Borrow(x, conn, sql, read))
  {
    hide Replay, Commits, Grows, TakeSlot, DropSlot;
    EmitGrows(w, x, Acquire);
    EmitGrows(w, TakeSlot(x), Checkout(conn));
    var y := Emit(TakeSlot(x), Checkout(conn));
    EmitGrows(w, y, Run(conn, None, sql));
    var z := Emit(y, Run(conn, None, sql));
    EmitGrows(w, z, CloseConn(conn, false));
    EmitGrows(w, DropSlot(z), CloseConn(conn, false));
    EmitGrows(w, Emit(z, CloseConn(conn, false)), Release);
  }

  lemma RunGrows(w: World, x: World, sql: string, read: bool, e: Env)
    requires Grows(w, x)
    ensures Grows(w, RunText(x, sql, read, e).w)
  {
    hide Replay, Commits, Grows, TakeSlot, DropSlot, Borrow, Report;
    EmitGrows(w, x, Acquire);
    EmitGrows(w, TakeSlot(x), Release);
    if x.s.tx.Some? {
      var c := Run(x.s.tx.value.conn, x.s.tx, sql);
      EmitGrows(w, x, c);
      ReportGrows(w, Emit(x, c), read, e);
    } else if e.checkout.Some? {
      BorrowGrows(w, x, e.checkout.value, sql, read);
      ReportGrows(w, Borrow(x, e.checkout.value, sql, read), read, e);
    }
  }

  lemma QueryGrows(w: World, st: Statements.Statement, e: Env)
    ensures Grows(w, QueryCommand(w, st, e).w)
  {
    hide Replay, Commits, Grows, RunText, BeginTransaction, EnsureImplicit, CommitCommand, RollbackCommand, AutocommitOnCommand, ApplyKind;
    Same(w);
    BeginGrows(w, e);
    EndGrows(w, e);
    KindGrows(w, st.kind);
    KindGrows(w, Statements.Savepoint);
    RunGrows(w, w, st.sql, false, e);
    RunGrows(w, ApplyKind(w, Statements.Savepoint), st.sql, false, e);
    RunGrows(w, EnsureImplicit(w, e).0, st.sql, st.kind.Read?, e);
    DbGrows(w, e);
  }

  lemma KindGrows(w: World, kind: Statements.Kind)
    ensures Grows(w, ApplyKind(w, kind))
  {
  }

  lemma DbGrows(w: World, e: Env)
    ensures forall name: string :: Grows(w, SelectDb(w, name, e).w)
  {
  }

  lemma PrepareGrows(w: World, st: Statements.Statement, e: Env)
    ensures Grows(w, PrepareCommand(w, st, e).w)
  {
    hide Replay, Commits, Grows, EnsurePinned, ReleasePinned, CurrentStmt;
    Same(w);
    PinGrows(w, w, e);
    var (x, p) := EnsurePinned(w, e);
    if !p.Denied? {
      var stmt := CurrentStmt(x.s);
      EmitGrows(w, x, PrepareStmt(stmt, e.prepare));
      var y := Emit(x, PrepareStmt(stmt, e.prepare));
      ReleaseGrows(w, y, true);
      SameLog(w, y, y.(s := y.s.(stmts := y.s.stmts + 1)));
      RegisterGrows(w, y.(s := y.s.(stmts := y.s.stmts + 1)), stmt, st, e);
    }
  }

  lemma RegisterGrows(w: World, y: World, stmt: Stmt, st: Statements.Statement, e: Env)
    requires Grows(w, y)
    ensures Grows(w, Register(y, stmt, st, e).w)
  {
    hide Replay, Commits;
  }

  lemma ReadyGrows(w: World, x: World, id: uint32, e: Env)
    requires Grows(w, x) && id in x.s.prepared && x.s.pinned.Some?
    ensures Grows(w, StatementForExecution(x, id, e).0)
  {
    hide Replay, Commits, CurrentStmt;
  }

  lemma ReportGrows(w: World, x: World, rows: bool, e: Env)
    requires Grows(w, x)
    ensures Grows(w, Report(x, rows, e).w)
  {
  }

  lemma ExecuteGrows(w: World, id: uint32, arguments: Option<seq<BinaryValues.Value>>, e: Env)
    ensures Grows(w, ExecuteCommand(w, id, arguments, e).w)
  {
    hide Replay, Commits, EnsureImplicit, StatementForExecution, ExecutionOf, Grows, Report, ReturnsRows;
    Same(w);
    BeginGrows(w, e);
    var (x, ok) := EnsureImplicit(w, e);
    if id in x.s.prepared && x.s.pinned.Some? && arguments.Some? {
      ReadyGrows(w, x, id, e);
      var (y, ready) := StatementForExecution(x, id, e);
      if ready {
        EmitGrows(w, y, ExecutionOf(y.s, id, arguments.value));
        ReportGrows(w, Emit(y, ExecutionOf(y.s, id, arguments.value)), ReturnsRows(y.s.prepared[id].query), e);
      }
    }
  }

  lemma ForgetGrows(w: World, id: uint32)
    ensures Grows(w, CloseCommand(w, id).w)
  {
    hide Replay, Commits, ReleasePinned;
    if id in w.s.prepared {
      ReleaseGrows(w, Forget(w, id), false);
    }
  }

  lemma DispatchGrows(w: World, command: Command, e: Env)
    ensures Grows(w, Dispatch(w, command, e).w)
  {
    hide Replay, Commits, Grows, QueryCommand, PrepareCommand, ExecuteCommand, CloseCommand;
    Same(w);
    match command
    case Query(st) => QueryGrows(w, st, e);
    case Prepare(st) => PrepareGrows(w, st, e);
    case Execute(id, arguments) => ExecuteGrows(w, id, arguments, e);
    case CloseStmt(id) => ForgetGrows(w, id);
    case InitDb(_) => DbGrows(w, e);
    case _ =>
  }

  lemma CloseGrows(w: World, e: Env)
    ensures Grows(w, Close(w, e))
  {
    hide Replay, Commits, ReleasePinned;
    var x := if w.s.tx.Some?
             then var y := Emit(w, RollbackTx(w.s.tx.value, e.rollback)); y.(s := y.s.(tx := None))
             else w;
    var y := Emit(x, CloseStmts(StatementsOf(x.s.prepared, false)));
    ReleaseGrows(w, ForgetAll(y), true);
  }
}
