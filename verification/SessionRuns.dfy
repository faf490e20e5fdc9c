/** Theorems over whole runs of a session: any commands, any upstream answers. */
module SessionRuns {
  import opened Wrappers
  import opened Statements
  import opened LogicalState
  import opened Upstream
  import opened Session
  import opened SessionInvariant

  lemma DispatchKeeps(w: World, command: Command, e: Env)
    requires Inv(w.s) && Exclusive(w.s, e) && (command.Prepare? ==> IdFree(w.s))
    ensures Kept(w, Dispatch(w, command, e))
    ensures !command.Prepare? ==> Dispatch(w, command, e).w.s.nextId == w.s.nextId
  {
    hide Replay, Commits, Tracked, QueryCommand, PrepareCommand, ExecuteCommand, CloseCommand;
    hide SelectDb;
    match command
    case InitDb(name) => SelectDbKeeps(w, name, e);
    case Query(stmt) => QueryKeeps(w, stmt, e);
    case Prepare(stmt) => PrepareKeeps(w, stmt, e);
    case Execute(id, arguments) => ExecuteKeeps(w, id, arguments, e);
    case CloseStmt(id) => CloseCommandKeeps(w, id);
    case _ =>
  }

  // ---------------------------------------------------------------- runs

  /** The pool never hands this session a connection it already holds. */
  ghost predicate ExclusiveRun(w: World, turns: seq<Turn>) {
    turns == [] ||
    (var before := turns[..|turns| - 1];
     && ExclusiveRun(w, before)
     && (RunTurns(w, before).1 ==> Exclusive(RunTurns(w, before).0.s, turns[|turns| - 1].e)))
  }

  function Prepares(turns: seq<Turn>): nat {
    if turns == [] then 0
    else Prepares(turns[..|turns| - 1]) + if turns[|turns| - 1].command.Prepare? then 1 else 0
  }

  /** Handle ids run from 1 to `nextId`, and `nextId` counts at most the prepares. */
  ghost predicate IdsBelow(s: Session, prepares: nat) {
    s.nextId <= prepares && forall id | id in s.prepared :: 1 <= id <= s.nextId
  }

  const PrepareLimit: nat := 0x1_0000_0000

  /**
   * Every run with fewer than 2^32 prepares: while the session is open the invariant holds at
   * each command boundary; once it has ended nothing is left. The shared counters hold, beyond
   * what the others put there, exactly this session's slot, its pin, and its successful commits.
   */
  lemma {:induction false} RunKeeps(b: Baseline, c: Counters, turns: seq<Turn>)
    requires b.charset == "utf8mb4"
    requires Prepares(turns) < PrepareLimit && ExclusiveRun(World(NewSession(b), c), turns)
    ensures var w := World(NewSession(b), c);
            var (x, alive) := RunTurns(w, turns);
            && (if alive then Inv(x.s) && IdsBelow(x.s, Prepares(turns)) else Closed(x.s))
            && Others(x) == (c.slots, c.pinned, c.commitGeneration)
  {
    var w := World(NewSession(b), c);
    if turns != [] {
      var before := turns[..|turns| - 1];
      RunKeeps(b, c, before);
      var (x, alive) := RunTurns(w, before);
      if alive {
        TurnKeeps(x, turns[|turns| - 1], Prepares(before));
      }
    }
  }

  /** One turn of `RunKeeps`. */
  lemma TurnKeeps(x: World, t: Turn, prepares: nat)
    requires Inv(x.s) && Exclusive(x.s, t.e) && IdsBelow(x.s, prepares)
    requires t.command.Prepare? ==> prepares + 1 < PrepareLimit
    ensures var o := Dispatch(x, t.command, t.e);
            && (o.alive ==> Inv(o.w.s) && IdsBelow(o.w.s, prepares + if t.command.Prepare? then 1 else 0) && Others(o.w) == Others(x))
            && (!o.alive ==> Closed(Close(o.w, t.e).s) && Others(Close(o.w, t.e)) == Others(x))
  {
    hide Replay, Commits, Tracked, Dispatch, Close;
    DispatchKeeps(x, t.command, t.e);
    var o := Dispatch(x, t.command, t.e);
    if !o.alive { CloseKeeps(o.w, t.e); }
  }

  // ---------------------------------------------------------------- what it means at every command boundary

  /** The two views agree at every command boundary of every run. */
  lemma ViewsAgreeAtEveryBoundary(b: Baseline, c: Counters, turns: seq<Turn>)
    requires b.charset == "utf8mb4"
    requires Prepares(turns) < PrepareLimit && ExclusiveRun(World(NewSession(b), c), turns)
    ensures var (x, alive) := RunTurns(World(NewSession(b), c), turns);
            alive ==>
              && (x.s.pinned.Some? <==> x.s.tx.Some? || x.s.prepared != map[])
              && x.s.prepared.Keys == x.s.state.prepared
              && (x.s.slot <==> x.s.pinned.Some?)
              && (!x.s.state.poisoned ==> (x.s.tx.Some? <==> x.s.state.inTransaction))
              && (ReuseOf(x.s.state).0.Multiplexable? ==> x.s.pinned.None?)
              && !ReuseOf(x.s.state).0.Replayable?
  {
    hide Replay, Commits, Tracked, RunTurns;
    RunKeeps(b, c, turns);
    var s := RunTurns(World(NewSession(b), c), turns).0.s;
    assert s.prepared.Keys == {} ==> s.prepared == map[];
  }

  /** Between commands a session owns one slot if it is pinned and none otherwise; an ended session owns none. */
  lemma SlotsAndGaugeBalance(b: Baseline, c: Counters, turns: seq<Turn>)
    requires b.charset == "utf8mb4"
    requires Prepares(turns) < PrepareLimit && ExclusiveRun(World(NewSession(b), c), turns)
    ensures var (x, alive) := RunTurns(World(NewSession(b), c), turns);
            && x.c.slots == c.slots + Bit(x.s.pinned.Some?)
            && x.c.pinned == c.pinned + Bit(x.s.pinned.Some?)
            && (!alive ==> x.c.slots == c.slots && x.c.pinned == c.pinned)
  {
    hide Replay, Commits, Tracked, RunTurns;
    RunKeeps(b, c, turns);
  }

  /**
   * Every upstream transaction of every run: exactly one Commit or Rollback call by the end of
   * the session (none yet for the one still open), every call that concerns it on the connection
   * it was begun on, which nothing closed in between; and the commit generation counts exactly
   * the upstream commits that succeeded.
   */
  lemma TransactionsOverARun(b: Baseline, c: Counters, turns: seq<Turn>)
    requires b.charset == "utf8mb4"
    requires Prepares(turns) < PrepareLimit && ExclusiveRun(World(NewSession(b), c), turns)
    ensures var (x, alive) := RunTurns(World(NewSession(b), c), turns);
            && Replay(x.s.log).Some?
            && (forall id: nat | id < Replay(x.s.log).value.begun ::
                  Endings(x.s.log, id) == if alive && x.s.tx.Some? && x.s.tx.value.id == id then 0 else 1)
            && (forall i, j, tx | 0 <= i < j < |x.s.log| && x.s.log[i] == BeginTx(tx, true) && Concerns(x.s.log[j], tx.id) ::
                  && ConnOf(x.s.log[j]) == Some(tx.conn)
                  && forall m | i < m < j :: x.s.log[m] != CloseConn(tx.conn, true) && x.s.log[m] != CloseConn(tx.conn, false))
            && x.c.commitGeneration == c.commitGeneration + Commits(x.s.log)
  {
    hide Replay, Commits, Endings, RunTurns;
    RunKeeps(b, c, turns);
    var (x, alive) := RunTurns(World(NewSession(b), c), turns);
    forall id: nat | id < Replay(x.s.log).value.begun
      ensures Endings(x.s.log, id) == if alive && x.s.tx.Some? && x.s.tx.value.id == id then 0 else 1
    {
      EachTransactionEndsOnce(x.s.log, id);
    }
    forall i, j, tx | 0 <= i < j < |x.s.log| && x.s.log[i] == BeginTx(tx, true) && Concerns(x.s.log[j], tx.id)
      ensures ConnOf(x.s.log[j]) == Some(tx.conn)
      ensures forall m | i < m < j :: x.s.log[m] != CloseConn(tx.conn, true) && x.s.log[m] != CloseConn(tx.conn, false)
    {
      TransactionStaysOnItsConnection(x.s.log, i, j, tx);
    }
  }

  /**
   * At every boundary, every handle's statement belongs to the pinned connection and, when it is
   * bound, to the open transaction; so a bound handle without a transaction never meets execute.
   */
  lemma HandlesBelongToTheCurrentTransaction(b: Baseline, c: Counters, turns: seq<Turn>, id: uint32)
    requires b.charset == "utf8mb4"
    requires Prepares(turns) < PrepareLimit && ExclusiveRun(World(NewSession(b), c), turns)
    ensures var (x, alive) := RunTurns(World(NewSession(b), c), turns);
            alive && id in x.s.prepared ==>
              var h := x.s.prepared[id];
              && !(h.transactionBound && x.s.tx.None?)
              && (h.statement.Some? ==> x.s.pinned == Some(h.statement.value.conn))
              && (h.transactionBound ==> h.statement.Some? && h.statement.value.tx == Some(x.s.tx.value.id))
              && (h.statement.Some? && !h.transactionBound ==> h.statement.value.tx.None?)
  {
    hide Replay, Commits, RunTurns;
    RunKeeps(b, c, turns);
    var (x, alive) := RunTurns(World(NewSession(b), c), turns);
    if alive && id in x.s.prepared {
      assert HandleSound(x.s.tx, x.s.pinned, x.s.stmts, Replay(x.s.log).value.live, x.s.prepared[id]);
    }
  }

  /**
   * Every prepared statement that any run executes was prepared earlier on the connection it runs on,
   * which is still held, was not closed since, and runs in its own transaction if it is bound to one,
   * and otherwise through the transaction open on that connection if there is one.
   */
  lemma ExecutionsOverARun(b: Baseline, c: Counters, turns: seq<Turn>, j: nat)
    requires b.charset == "utf8mb4"
    requires Prepares(turns) < PrepareLimit && ExclusiveRun(World(NewSession(b), c), turns)
    requires var log := RunTurns(World(NewSession(b), c), turns).0.s.log; j < |log| && log[j].RunPrepared?
    ensures RunsInPlace(RunTurns(World(NewSession(b), c), turns).0.s.log, j)
  {
    hide Replay, Commits, RunTurns, RunsInPlace;
    RunKeeps(b, c, turns);
    var (x, alive) := RunTurns(World(NewSession(b), c), turns);
    assert Replay(x.s.log).Some?;
    ExecutionsInPlace(x.s.log, j);
  }

  // ---------------------------------------------------------------- single commands

  /** The call an execute command makes once its transaction and its statement are there. */
  function ExecutionBy(w: World, id: uint32, arguments: seq<BinaryValues.Value>, e: Env): Option<Call> {
    var (x, ok) := EnsureImplicit(w, e);
    if !ok || id !in x.s.prepared || x.s.pinned.None? then None else
    var (y, ready) := StatementForExecution(x, id, e);
    if !ready then None else Some(ExecutionOf(y.s, id, arguments))
  }

  predicate InTransaction(c: Call)
    requires c.RunPrepared?
  {
    c.stmt.tx.Some? || c.via.Some?
  }

  /**
   * An execution runs on the pinned connection, and a definition is executed inside a transaction
   * exactly when its handle was prepared as one and a transaction is open or autocommit is off.
   */
  lemma DefinitionReachesTransactionIff(w: World, id: uint32, arguments: seq<BinaryValues.Value>, e: Env)
    requires Inv(w.s) && Exclusive(w.s, e) && id in w.s.prepared
    ensures var o, call := ExecuteCommand(w, id, Some(arguments), e), ExecutionBy(w, id, arguments, e);
            call.Some? ==>
              && |o.w.s.log| > |w.s.log| && o.w.s.log[|o.w.s.log| - 1] == call.value && call.value.RunPrepared?
              && o.w.s.pinned == Some(call.value.stmt.conn)
              && (call.value.query.kind.DDL? && InTransaction(call.value)
                  <==> w.s.prepared[id].query.kind.DDL? && (w.s.tx.Some? || !w.s.state.autocommit))
  {
    hide Replay, Commits, EnsureImplicit, StatementForExecution, Tracked;
    var (x, ok) := EnsureImplicit(w, e);
    ImplicitKeeps(w, e, x, ok);
    ImplicitOpens(w, e, x, ok);
    if ok {
      var (y, ready) := StatementForExecution(x, id, e);
      ReadyKeeps(x, id, e, y, ready);
      ReadyExtends(x, id, e, y, ready);
      if ready {
        SoundHandle(y.s, id);
      }
    }
  }

  lemma ImplicitOpens(w: World, e: Env, x: World, ok: bool)
    requires Inv(w.s) && Exclusive(w.s, e) && EnsureImplicit(w, e) == (x, ok)
    ensures ok ==> (x.s.tx.Some? <==> w.s.tx.Some? || !w.s.state.autocommit)
    ensures |x.s.log| >= |w.s.log|
  {
    hide Replay, Commits, Tracked;
    if !w.s.state.autocommit && w.s.tx.None? {
      BeginKeeps(w, e, x, ok);
    }
  }

  lemma ReadyExtends(w: World, id: uint32, e: Env, x: World, ok: bool)
    requires id in w.s.prepared && w.s.pinned.Some? && StatementForExecution(w, id, e) == (x, ok)
    ensures |x.s.log| >= |w.s.log| && id in x.s.prepared && x.s.prepared[id].query == w.s.prepared[id].query
  {
    hide Replay, Commits;
  }

  lemma SoundHandle(s: Session, id: uint32)
    requires Inv(s) && id in s.prepared
    ensures HandleSound(s.tx, s.pinned, s.stmts, Replay(s.log).value.live, s.prepared[id])
  {
    hide Replay, HandleSound;
  }

  /** A success reply that ends an open transaction by commit follows a successful upstream commit and the bump. */
  lemma CommitReplyFollowsCommit(w: World, st: Statement, e: Env)
    requires Inv(w.s) && w.s.tx.Some? && (st.kind.Commit? || st.kind.AutocommitOn?)
    ensures var o := QueryCommand(w, st, e);
            && (o.reply.Ack? <==> e.commit && e.hook && e.write)
            && (o.reply.Ack? ==>
                  && |o.w.s.log| > |w.s.log| && o.w.s.log[..|w.s.log|] == w.s.log
                  && o.w.s.log[|w.s.log|] == CommitTx(w.s.tx.value, true)
                  && o.w.c.commitGeneration == w.c.commitGeneration + 1
                  && o.w.s.tx.None? && !o.reply.inTransaction)
  {
    hide Replay, Commits, Tracked;
  }

  /** After ROLLBACK on an open transaction the two views agree exactly when the upstream rollback did not break. */
  lemma RollbackAgreesIff(w: World, e: Env)
    requires Inv(w.s) && w.s.tx.Some?
    ensures var s := RollbackCommand(w, e).w.s;
            && s.tx.None?
            && ((s.tx.Some? <==> s.state.inTransaction) <==> !e.rollback.Broken?)
            && (e.rollback.Broken? ==> s.state.poisoned)
  {
    hide Replay, Commits, Tracked;
  }

  /** BEGIN, then a ROLLBACK that breaks upstream: the session goes on, without a transaction, yet marked as in one. */
  lemma BrokenRollbackLeavesTheFlag(b: Baseline, c: Counters, e: Env, f: Env)
    requires e.admitted && e.checkout.Some? && e.begin && e.write && f.rollback.Broken? && f.write
    ensures var w := World(NewSession(b), c);
            var turns := [Turn(Query(Statement(Begin, "BEGIN")), e), Turn(Query(Statement(Rollback, "ROLLBACK")), f)];
            var (x, alive) := RunTurns(w, turns);
            alive && x.s.tx.None? && x.s.state.inTransaction && x.s.state.poisoned
  {
    hide Replay, Commits;
    var w := World(NewSession(b), c);
    var one := Turn(Query(Statement(Begin, "BEGIN")), e);
    var two := Turn(Query(Statement(Rollback, "ROLLBACK")), f);
    assert [one, two][..1] == [one] && [one][..0] == [];
    assert RunTurns(w, [one]) == (Dispatch(w, one.command, e).w, true);
    assert RunTurns(w, [one]).0.s.tx.Some?;
  }

  /** A successful upstream prepare keeps the handle tables in step exactly when the next id is not live. */
  lemma PrepareKeepsTablesIff(w: World, st: Statement, e: Env)
    requires Inv(w.s) && Exclusive(w.s, e)
    requires st.kind.Read? || st.kind.Write? || (st.kind.DDL? && w.s.tx.None?)
    requires e.prepare && (w.s.pinned.Some? || (e.admitted && e.checkout.Some?))
    ensures var s := PrepareCommand(w, st, e).w.s;
            (s.prepared.Keys == s.state.prepared <==> IdFree(w.s))
  {
    hide Replay, Commits, Tracked;
    var s := PrepareCommand(w, st, e).w.s;
    var id := NextId(w.s.nextId);
    if IdFree(w.s) {
      assert s.prepared.Keys == w.s.prepared.Keys + {id};
    } else {
      assert id !in s.prepared && id in s.state.prepared;
    }
  }

  /** The diagnostics that `Apply` clears even when it refuses. */
  predicate HasDiagnostics(s: Session) {
    s.state.warnings != 0 || s.state.lastInsertId != 0
  }

  /** No upstream call, no counter moved, nothing but diagnostics cleared, and those only by a SAVEPOINT. */
  ghost predicate Untouched(w: World, o: Outcome, savepoint: bool) {
    && o.w.c == w.c && o.w.s.log == w.s.log
    && o.w.s == w.s.(state := w.s.state.(warnings := o.w.s.state.warnings, lastInsertId := o.w.s.state.lastInsertId))
    && (o.w == w <==> !(savepoint && HasDiagnostics(w.s)))
  }

  lemma WorkIsNotRefused(w: World, sql: string, read: bool, e: Env)
    ensures !RunText(w, sql, read, e).reply.Refused?
    ensures !CommitCommand(w, e).reply.Refused? && !AutocommitOnCommand(w, e).reply.Refused?
    ensures !RollbackCommand(w, e).reply.Refused?
  {
    hide Replay, Commits, FinishTransaction, Borrow;
  }

  lemma RefusedSavepoint(w: World, st: Statement, e: Env)
    requires st.kind.Savepoint? && QueryCommand(w, st, e).reply.Refused?
    ensures Untouched(w, QueryCommand(w, st, e), true)
  {
    hide Replay, Commits, RunText;
    WorkIsNotRefused(ApplyKind(w, Savepoint), st.sql, false, e);
  }

  lemma RefusedElsewhere(w: World, st: Statement, e: Env)
    requires !st.kind.Savepoint? && QueryCommand(w, st, e).reply.Refused?
    ensures QueryCommand(w, st, e).w == w
  {
    hide Replay, Commits, RunText, CommitCommand, RollbackCommand, AutocommitOnCommand, BeginTransaction, EnsureImplicit, ApplyKind;
    WorkIsNotRefused(w, st.sql, false, e);
    WorkIsNotRefused(EnsureImplicit(w, e).0, st.sql, st.kind.Read?, e);
  }

  lemma RefusedQuery(w: World, st: Statement, e: Env)
    requires QueryCommand(w, st, e).reply.Refused?
    ensures Untouched(w, QueryCommand(w, st, e), st.kind.Savepoint?)
  {
    hide Replay, Commits, QueryCommand;
    if st.kind.Savepoint? {
      RefusedSavepoint(w, st, e);
    } else {
      RefusedElsewhere(w, st, e);
    }
  }

  lemma RefusedPrepared(w: World, st: Statement, id: uint32, arguments: Option<seq<BinaryValues.Value>>, e: Env)
    ensures PrepareCommand(w, st, e).reply.Refused? ==> PrepareCommand(w, st, e).w == w
    ensures ExecuteCommand(w, id, arguments, e).reply.Refused? ==> ExecuteCommand(w, id, arguments, e).w == w
  {
    hide Replay, Commits, EnsurePinned, ReleasePinned, BeginTransaction, StatementForExecution, CurrentStmt, ExecutionOf;
  }

  /**
   * A refused command makes no upstream call and moves no counter; it leaves the whole session
   * untouched exactly when it is not a SAVEPOINT that clears pending diagnostics.
   */
  lemma RefusedChangesNothingIff(w: World, command: Command, e: Env)
    requires Dispatch(w, command, e).reply.Refused?
    ensures Untouched(w, Dispatch(w, command, e), command.Query? && command.stmt.kind.Savepoint?)
  {
    hide Replay, Commits, QueryCommand, PrepareCommand, ExecuteCommand, CloseCommand;
    match command
    case Query(stmt) => RefusedQuery(w, stmt, e);
    case Prepare(stmt) => RefusedPrepared(w, stmt, 0, None, e);
    case Execute(id, arguments) => RefusedPrepared(w, Statement(Empty, ""), id, arguments, e);
    case CloseStmt(id) => assert CloseCommand(w, id).reply.Silent? by { CloseIsSilent(w, id); }
    case _ =>
  }

  lemma CloseIsSilent(w: World, id: uint32)
    ensures CloseCommand(w, id).reply.Silent?
  {
  }
}
