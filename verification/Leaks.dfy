/** No upstream statement is left behind: those that are live are those the session's handles hold. */
module Leaks {
  import opened Wrappers
  import opened Statements
  import opened LogicalState
  import opened Upstream
  import opened Session
  import opened SessionInvariant
  import SessionRuns

  // ---------------------------------------------------------------- what is live after a log

  function Left(live: set<Stmt>, c: Call): set<Stmt> {
    match c
    case CloseConn(conn, _) => set x | x in live && x.conn != conn
    case CommitTx(_, _) => set x | x in live && x.tx.None?
    case RollbackTx(_, _) => set x | x in live && x.tx.None?
    case PrepareStmt(stmt, ok) => if ok then live + {stmt} else live
    case CloseStmts(stmts) => live - stmts
    case _ => live
  }

  /** The statements prepared and not closed, by themselves or with their transaction or connection. */
  function Survivors(log: seq<Call>): set<Stmt> {
    if log == [] then {} else Left(Survivors(log[..|log| - 1]), log[|log| - 1])
  }

  lemma LiveStep(t: Option<Track>, c: Call)
    requires Advance(t, c).Some?
    ensures t.Some? && Advance(t, c).value.live == Left(t.value.live, c)
    ensures (forall x | x in t.value.live :: x.conn in t.value.held) ==>
              forall x | x in Advance(t, c).value.live :: x.conn in Advance(t, c).value.held
  {
  }

  lemma {:induction false} SurvivorsAreLive(log: seq<Call>)
    requires Replay(log).Some?
    ensures Replay(log).value.live == Survivors(log)
  {
    hide Advance, Left;
    if log != [] {
      var before := log[..|log| - 1];
      LiveStep(Replay(before), log[|log| - 1]);
      SurvivorsAreLive(before);
    }
  }

  /** A live statement's connection is still held. */
  lemma {:induction false} LiveIsHeld(log: seq<Call>)
    requires Replay(log).Some?
    ensures forall x | x in Replay(log).value.live :: x.conn in Replay(log).value.held
  {
    hide Advance;
    if log != [] {
      var before := log[..|log| - 1];
      LiveStep(Replay(before), log[|log| - 1]);
      LiveIsHeld(before);
    }
  }

  lemma EmitLeaves(w: World, c: Call)
    ensures Survivors(Emit(w, c).s.log) == Left(Survivors(w.s.log), c)
  {
    hide Replay, Commits;
    assert (w.s.log + [c])[..|w.s.log|] == w.s.log;
  }

  // ---------------------------------------------------------------- the handles

  /** Exactly the handles' statements are live. */
  predicate Snug(s: Session) { Survivors(s.log) == StatementsOf(s.prepared, false) }

  /** What the invariant says of the handles' statements. */
  ghost predicate Placed(s: Session) {
    && (forall id | id in s.prepared :: Fitting(s.tx, s.pinned, s.prepared[id]))
    && Distinct(s.prepared)
    && (s.prepared != map[] ==> s.pinned.Some?)
  }

  predicate Fitting(tx: Option<Tx>, pinned: Option<ConnId>, h: Handle) {
    && (h.statement.Some? ==> pinned == Some(h.statement.value.conn) && (h.transactionBound <==> h.statement.value.tx.Some?))
    && (h.transactionBound ==> h.statement.Some? && tx.Some?)
  }

  lemma InvPlaces(s: Session)
    requires Inv(s)
    ensures Placed(s)
  {
    hide Replay;
    forall id | id in s.prepared
      ensures Fitting(s.tx, s.pinned, s.prepared[id])
    {
      assert HandleSound(s.tx, s.pinned, s.stmts, Replay(s.log).value.live, s.prepared[id]);
    }
  }

  lemma NoHandles(s: Session)
    requires s.prepared == map[]
    ensures StatementsOf(s.prepared, false) == {}
  {
  }

  // ---------------------------------------------------------------- the steps

  lemma SlotLeaves(w: World)
    ensures Survivors(TakeSlot(w).s.log) == Survivors(w.s.log) == Survivors(DropSlot(w).s.log)
    ensures TakeSlot(w).s == w.s.(log := TakeSlot(w).s.log) && DropSlot(w).s == w.s.(log := DropSlot(w).s.log)
  {
    hide Replay, Commits, Survivors;
    EmitLeaves(w.(c := w.c.(slots := w.c.slots + 1)), Acquire);
    EmitLeaves(w.(c := w.c.(slots := w.c.slots - 1)), Release);
  }

  lemma PinLeaves(w: World, e: Env, x: World, p: Pinning)
    requires EnsurePinned(w, e) == (x, p)
    ensures Survivors(x.s.log) == Survivors(w.s.log)
    ensures x.s == w.s.(pinned := x.s.pinned, slot := x.s.slot, log := x.s.log)
    ensures p.Created? ==> w.s.pinned.None?
  {
    hide Replay, Commits, Survivors, TakeSlot, DropSlot;
    SlotLeaves(w);
    SlotLeaves(TakeSlot(w));
    if e.checkout.Some? { EmitLeaves(TakeSlot(w), Checkout(e.checkout.value)); }
  }

  /** A connection given up when no handle is left. */
  lemma ReleaseSnug(w: World, discard: bool)
    requires Snug(w.s) && w.s.prepared == map[]
    ensures Snug(ReleasePinned(w, discard).s) && ReleasePinned(w, discard).s.prepared == map[]
  {
    hide Replay, Commits, Survivors, DropSlot;
    NoHandles(w.s);
    if w.s.pinned.Some? {
      var y := Emit(w, CloseConn(w.s.pinned.value, discard));
      EmitLeaves(w, CloseConn(w.s.pinned.value, discard));
      SlotLeaves(World(y.s.(pinned := None), y.c.(pinned := y.c.pinned - 1)));
    } else {
      SlotLeaves(w);
    }
  }

  lemma BeginSnug(w: World, e: Env, z: World, ok: bool)
    requires Snug(w.s) && Placed(w.s) && w.s.tx.None? && BeginTransaction(w, e) == (z, ok)
    ensures Snug(z.s) && z.s.prepared == w.s.prepared
  {
    hide Replay, Commits, Survivors, EnsurePinned, ReleasePinned;
    var (x, p) := EnsurePinned(w, e);
    PinLeaves(w, e, x, p);
    if !p.Denied? {
      var tx := Tx(x.s.begun, x.s.pinned.value);
      EmitLeaves(x, BeginTx(tx, e.begin));
      var y := Emit(x, BeginTx(tx, e.begin));
      var v := y.(s := y.s.(begun := y.s.begun + 1, state := Applied(y.s.state, Begin).0));
      EmitLeaves(v, RollbackTx(tx, e.rollback));
      var u := Emit(v, RollbackTx(tx, e.rollback));
      assert Survivors(u.s.log) == Survivors(w.s.log) by { NothingBound(w.s); }
      if p.Created? {
        assert w.s.prepared == map[];
        ReleaseSnug(y, false);
        ReleaseSnug(u, false);
      }
    }
  }

  /** Without a transaction no live statement belongs to one. */
  lemma NothingBound(s: Session)
    requires Snug(s) && Placed(s) && s.tx.None?
    ensures (set x | x in Survivors(s.log) && x.tx.None?) == Survivors(s.log)
  {
    hide Survivors;
    forall x | x in Survivors(s.log)
      ensures x.tx.None?
    {
      var id :| id in s.prepared && s.prepared[id].statement == Some(x);
      assert Fitting(s.tx, s.pinned, s.prepared[id]);
    }
  }

  lemma ImplicitSnug(w: World, e: Env, x: World, ok: bool)
    requires Snug(w.s) && Placed(w.s) && EnsureImplicit(w, e) == (x, ok)
    ensures Snug(x.s) && x.s.prepared == w.s.prepared
  {
    hide Replay, Commits, BeginTransaction, Snug, Placed;
    if !w.s.state.autocommit && w.s.tx.None? { BeginSnug(w, e, x, ok); }
  }

  /** What the end of a transaction leaves of the handles' statements. */
  lemma EndedStatements(prepared: map<uint32, Handle>, tx: Option<Tx>, pinned: Option<ConnId>)
    requires forall id | id in prepared :: Fitting(tx, pinned, prepared[id])
    ensures (set x | x in StatementsOf(prepared, false) && x.tx.None?) - StatementsOf(prepared, true)
            == StatementsOf(Invalidated(prepared), false)
  {
    var left := (set x | x in StatementsOf(prepared, false) && x.tx.None?) - StatementsOf(prepared, true);
    var kept := Invalidated(prepared);
    forall x
      ensures x in left <==> x in StatementsOf(kept, false)
    {
      if x in left {
        var id :| id in prepared && prepared[id].statement == Some(x);
        assert Fitting(tx, pinned, prepared[id]);
        assert kept[id] == prepared[id];
      }
      if x in StatementsOf(kept, false) {
        var id :| id in kept && kept[id].statement == Some(x);
        assert Fitting(tx, pinned, prepared[id]) && kept[id] == prepared[id] && !prepared[id].transactionBound;
        forall other | other in prepared && prepared[other].transactionBound && prepared[other].statement.Some?
          ensures prepared[other].statement.value != x
        {
          assert Fitting(tx, pinned, prepared[other]);
        }
      }
    }
  }

  lemma FinishSnug(w: World, x: World)
    requires w.s.tx.Some? && Snug(w.s) && Placed(w.s)
    requires Survivors(x.s.log) == (set k | k in Survivors(w.s.log) && k.tx.None?)
    requires x.s.prepared == w.s.prepared && x.s.state.prepared == w.s.prepared.Keys
    ensures Snug(FinishTransaction(x).s)
  {
    hide Replay, Commits, Survivors, ReleasePinned, StatementsOf, Invalidated;
    var c := CloseStmts(StatementsOf(w.s.prepared, true));
    var y := Emit(x.(s := x.s.(tx := None)), c);
    EmitLeaves(x.(s := x.s.(tx := None)), c);
    EndedStatements(w.s.prepared, w.s.tx, w.s.pinned);
    var z := y.(s := y.s.(prepared := Invalidated(y.s.prepared)));
    if z.s.state.prepared == {} {
      assert w.s.prepared == map[];
      StillNone(z.s.prepared, w.s.prepared);
      ReleaseSnug(z, false);
    }
  }

  lemma StillNone(after: map<uint32, Handle>, prepared: map<uint32, Handle>)
    requires prepared == map[] && after == Invalidated(prepared)
    ensures after == map[]
  {
  }

  // ---------------------------------------------------------------- the commands

  lemma EndSnug(w: World, e: Env)
    requires Snug(w.s) && Placed(w.s) && w.s.state.prepared == w.s.prepared.Keys
    ensures Snug(CommitCommand(w, e).w.s) && Snug(RollbackCommand(w, e).w.s) && Snug(AutocommitOnCommand(w, e).w.s)
  {
    hide Replay, Commits, Survivors, FinishTransaction, StatementsOf, Placed;
    if w.s.tx.Some? {
      var c, r := CommitTx(w.s.tx.value, e.commit), RollbackTx(w.s.tx.value, e.rollback);
      EmitLeaves(w, c);
      EmitLeaves(w, r);
      var x, y := Emit(w, c), Emit(w, r);
      FinishSnug(w, x);
      FinishSnug(w, Bump(x));
      FinishSnug(w, Bump(ApplyKind(x, Commit)));
      FinishSnug(w, y);
      FinishSnug(w, ApplyKind(y, Rollback));
    }
  }

  /** A borrowed connection is another one than the handles'. */
  lemma BorrowSnug(w: World, conn: ConnId, sql: string, read: bool)
    requires Snug(w.s) && Placed(w.s) && w.s.pinned != Some(conn)
    ensures Snug(Borrow(w, conn, sql, read).s) && Borrow(w, conn, sql, read).s.prepared == w.s.prepared
  {
    hide Replay, Commits, Survivors, TakeSlot, DropSlot;
    SlotLeaves(w);
    EmitLeaves(TakeSlot(w), Checkout(conn));
    var y := Emit(TakeSlot(w), Checkout(conn));
    EmitLeaves(y, Run(conn, None, sql));
    var x := Emit(y, Run(conn, None, sql));
    EmitLeaves(x, CloseConn(conn, false));
    SlotLeaves(x);
    SlotLeaves(Emit(x, CloseConn(conn, false)));
    EmitLeaves(DropSlot(x), CloseConn(conn, false));
    NothingElsewhere(w.s, conn);
  }

  lemma NothingElsewhere(s: Session, conn: ConnId)
    requires Snug(s) && Placed(s) && s.pinned != Some(conn)
    ensures (set x | x in Survivors(s.log) && x.conn != conn) == Survivors(s.log)
  {
    hide Survivors;
    forall x | x in Survivors(s.log)
      ensures x.conn != conn
    {
      var id :| id in s.prepared && s.prepared[id].statement == Some(x);
      assert Fitting(s.tx, s.pinned, s.prepared[id]);
    }
  }

  lemma RunSnug(w: World, sql: string, read: bool, e: Env)
    requires Snug(w.s) && (w.s.tx.None? ==> Placed(w.s) && Exclusive(w.s, e))
    ensures Snug(RunText(w, sql, read, e).w.s)
  {
    hide Replay, Commits, Survivors, TakeSlot, DropSlot, Borrow, Placed, StatementsOf;
    if w.s.tx.Some? {
      EmitLeaves(w, Run(w.s.tx.value.conn, w.s.tx, sql));
    } else if e.checkout.Some? {
      BorrowSnug(w, e.checkout.value, sql, read);
    } else {
      SlotLeaves(w);
      SlotLeaves(TakeSlot(w));
    }
  }

  lemma QuerySnug(w: World, st: Statement, e: Env)
    requires Inv(w.s) && Exclusive(w.s, e) && Snug(w.s)
    ensures Snug(QueryCommand(w, st, e).w.s)
  {
    hide Replay, Commits, Snug, Placed, Tracked, RunText, BeginTransaction, CommitCommand, RollbackCommand, AutocommitOnCommand;
    InvPlaces(w.s);
    EndSnug(w, e);
    SameSnug(w.s, ApplyKind(w, st.kind).s);
    match st.kind
    case Begin => if w.s.tx.None? { BeginSnug(w, e, BeginTransaction(w, e).0, BeginTransaction(w, e).1); }
    case UseDatabase => DatabaseSnug(w, e);
    case Savepoint => if w.s.tx.Some? { RunSnug(ApplyKind(w, Savepoint), st.sql, false, e); }
    case DDL => RunSnug(w, st.sql, false, e);
    case Write | Read => WorkSnug(w, st, e);
    case _ =>
  }

  lemma SameSnug(s: Session, t: Session)
    requires s.log == t.log && s.prepared == t.prepared
    ensures Snug(s) <==> Snug(t)
  {
  }

  lemma DatabaseSnug(w: World, e: Env)
    requires Snug(w.s)
    ensures forall name: string :: Snug(SelectDb(w, name, e).w.s)
  {
    hide Survivors, StatementsOf;
  }

  lemma WorkSnug(w: World, st: Statement, e: Env)
    requires Inv(w.s) && Exclusive(w.s, e) && Snug(w.s) && (st.kind.Read? || st.kind.Write?)
    ensures Snug(QueryCommand(w, st, e).w.s)
  {
    hide Replay, Commits, Snug, Placed, Tracked, RunText, BeginTransaction;
    InvPlaces(w.s);
    var (x, ok) := EnsureImplicit(w, e);
    ImplicitSnug(w, e, x, ok);
    SessionRuns.ImplicitOpens(w, e, x, ok);
    if ok { RunSnug(x, st.sql, st.kind.Read?, e); }
  }

  lemma RegisterSnug(y: World, stmt: Stmt, st: Statement, e: Env)
    requires NextId(y.s.nextId) !in y.s.prepared && y.s.state.prepared == y.s.prepared.Keys
    requires Survivors(y.s.log) == StatementsOf(y.s.prepared, false) + {stmt}
    ensures Snug(Register(y, stmt, st, e).w.s)
  {
    hide Replay, Commits, Survivors;
    var id := NextId(y.s.nextId);
    StatementsWith(y.s.prepared, id, Handle(Some(stmt), y.s.tx.Some?, st));
  }

  /** A handle without a statement gets one. */
  lemma StatementsWith(prepared: map<uint32, Handle>, id: uint32, h: Handle)
    requires h.statement.Some? && (id in prepared ==> prepared[id].statement.None?)
    ensures StatementsOf(prepared[id := h], false) == StatementsOf(prepared, false) + {h.statement.value}
  {
    var after := prepared[id := h];
    forall x
      ensures x in StatementsOf(after, false) <==> x in StatementsOf(prepared, false) || x == h.statement.value
    {
      if x in StatementsOf(prepared, false) {
        var k :| k in prepared && prepared[k].statement == Some(x);
        assert k != id && after[k] == prepared[k];
      }
      if x == h.statement.value { assert after[id].statement == Some(x); }
    }
  }

  lemma PrepareSnug(w: World, st: Statement, e: Env)
    requires Inv(w.s) && Snug(w.s) && IdFree(w.s)
    ensures Snug(PrepareCommand(w, st, e).w.s)
  {
    hide Replay, Commits, Survivors, Tracked, EnsurePinned, ReleasePinned, Register, CurrentStmt, StatementsOf;
    var (x, p) := EnsurePinned(w, e);
    PinLeaves(w, e, x, p);
    if !p.Denied? {
      var stmt := CurrentStmt(x.s);
      EmitLeaves(x, PrepareStmt(stmt, e.prepare));
      var y := Emit(x, PrepareStmt(stmt, e.prepare));
      if e.prepare {
        RegisterSnug(y.(s := y.s.(stmts := y.s.stmts + 1)), stmt, st, e);
      } else if y.s.state.prepared == {} {
        assert y.s.prepared == map[];
        ReleaseSnug(y, true);
      }
    }
  }

  lemma ReadySnug(w: World, id: uint32, e: Env, x: World, ok: bool)
    requires id in w.s.prepared && w.s.pinned.Some? && StatementForExecution(w, id, e) == (x, ok)
    requires Snug(w.s) && !(w.s.prepared[id].transactionBound && w.s.tx.None?)
    ensures Snug(x.s)
  {
    hide Replay, Commits, Survivors, CurrentStmt, StatementsOf;
    var h := w.s.prepared[id];
    if h.statement.None? {
      var stmt := CurrentStmt(w.s);
      EmitLeaves(w, PrepareStmt(stmt, e.prepare));
      StatementsWith(w.s.prepared, id, Handle(Some(stmt), w.s.tx.Some?, h.query));
    }
  }

  lemma ExecuteSnug(w: World, id: uint32, arguments: Option<seq<BinaryValues.Value>>, e: Env)
    requires Inv(w.s) && Exclusive(w.s, e) && Snug(w.s)
    ensures Snug(ExecuteCommand(w, id, arguments, e).w.s)
  {
    hide Replay, Commits, Snug, Placed, Tracked, EnsureImplicit, StatementForExecution, ReturnsRows;
    InvPlaces(w.s);
    var (x, ok) := EnsureImplicit(w, e);
    ImplicitSnug(w, e, x, ok);
    ImplicitKeeps(w, e, x, ok);
    if ok && id in x.s.prepared && x.s.pinned.Some? && arguments.Some? {
      InvPlaces(x.s);
      BoundOnlyInside(x.s, id);
      var (y, ready) := StatementForExecution(x, id, e);
      ReadySnug(x, id, e, y, ready);
      if ready {
        var call := ExecutionOf(y.s, id, arguments.value);
        ExecutionSnug(y, call);
        SameSnug(Emit(y, call).s, ExecuteCommand(w, id, arguments, e).w.s);
      }
    }
  }

  lemma BoundOnlyInside(s: Session, id: uint32)
    requires Placed(s) && id in s.prepared
    ensures !(s.prepared[id].transactionBound && s.tx.None?)
  {
    assert Fitting(s.tx, s.pinned, s.prepared[id]);
  }

  lemma ExecutionSnug(w: World, c: Call)
    requires Snug(w.s) && c.RunPrepared?
    ensures Snug(Emit(w, c).s)
  {
    hide Replay, Commits, Survivors, StatementsOf;
    EmitLeaves(w, c);
  }

  /** Dropping a handle drops its statement and no other. */
  lemma StatementsWithout(prepared: map<uint32, Handle>, id: uint32)
    requires id in prepared && Distinct(prepared)
    ensures StatementsOf(prepared - {id}, false)
            == StatementsOf(prepared, false) - (if prepared[id].statement.Some? then {prepared[id].statement.value} else {})
  {
    var after := prepared - {id};
    forall x
      ensures x in StatementsOf(after, false) <==> x in StatementsOf(prepared, false) && prepared[id].statement != Some(x)
    {
      if x in StatementsOf(after, false) {
        var k :| k in after && after[k].statement == Some(x);
        assert prepared[k].statement != prepared[id].statement;
      }
      if x in StatementsOf(prepared, false) && prepared[id].statement != Some(x) {
        var k :| k in prepared && prepared[k].statement == Some(x);
        assert k in after && after[k] == prepared[k];
      }
    }
  }

  lemma CloseSnug(w: World, id: uint32)
    requires Snug(w.s) && Distinct(w.s.prepared)
    ensures Snug(CloseCommand(w, id).w.s)
  {
    hide Replay, Commits, Survivors, ReleasePinned, StatementsOf, Distinct;
    if id in w.s.prepared {
      var h := w.s.prepared[id];
      if h.statement.Some? { EmitLeaves(w, CloseStmts({h.statement.value})); }
      StatementsWithout(w.s.prepared, id);
      var y := Forget(w, id);
      if y.s.prepared == map[] { ReleaseSnug(y, false); }
    }
  }

  lemma DispatchSnug(w: World, command: Command, e: Env)
    requires Inv(w.s) && Exclusive(w.s, e) && Snug(w.s) && (command.Prepare? ==> IdFree(w.s))
    ensures Snug(Dispatch(w, command, e).w.s)
  {
    hide Replay, Commits, Snug, Tracked, QueryCommand, PrepareCommand, ExecuteCommand, CloseCommand, SelectDb;
    match command
    case Query(st) => QuerySnug(w, st, e);
    case Prepare(st) => PrepareSnug(w, st, e);
    case Execute(id, arguments) => ExecuteSnug(w, id, arguments, e);
    case CloseStmt(id) =>
      InvPlaces(w.s);
      CloseSnug(w, id);
    case InitDb(name) => DatabaseSnug(w, e);
    case _ =>
  }

  // ---------------------------------------------------------------- every run

  lemma {:induction false} SnugOverEveryRun(b: Baseline, c: Counters, turns: seq<Turn>)
    requires b.charset == "utf8mb4"
    requires SessionRuns.Prepares(turns) < SessionRuns.PrepareLimit && SessionRuns.ExclusiveRun(World(NewSession(b), c), turns)
    ensures var (x, alive) := RunTurns(World(NewSession(b), c), turns); alive ==> Snug(x.s)
  {
    hide Replay, Commits, Inv, Dispatch, Close;
    var w := World(NewSession(b), c);
    if turns == [] {
      NoHandles(w.s);
    } else {
      hide Snug;
      var before, t := turns[..|turns| - 1], turns[|turns| - 1];
      SnugOverEveryRun(b, c, before);
      SessionRuns.RunKeeps(b, c, before);
      var (x, alive) := RunTurns(w, before);
      if alive {
        if t.command.Prepare? { NextIsFree(x.s, SessionRuns.Prepares(before)); }
        DispatchSnug(x, t.command, t.e);
      }
    }
  }

  lemma NextIsFree(s: Session, prepares: nat)
    requires SessionRuns.IdsBelow(s, prepares) && prepares + 1 < SessionRuns.PrepareLimit
    ensures IdFree(s)
  {
  }

  /**
   * At every command boundary of every run, the upstream statements that are prepared and not closed are
   * exactly those the live handles hold, and a session that has ended leaves none.
   */
  lemma NothingLeaks(b: Baseline, c: Counters, turns: seq<Turn>)
    requires b.charset == "utf8mb4"
    requires SessionRuns.Prepares(turns) < SessionRuns.PrepareLimit && SessionRuns.ExclusiveRun(World(NewSession(b), c), turns)
    ensures var (x, alive) := RunTurns(World(NewSession(b), c), turns);
            && Replay(x.s.log).Some?
            && Replay(x.s.log).value.live == (if alive then StatementsOf(x.s.prepared, false) else {})
  {
    hide RunTurns, Survivors;
    SnugOverEveryRun(b, c, turns);
    SessionRuns.RunKeeps(b, c, turns);
    var (x, alive) := RunTurns(World(NewSession(b), c), turns);
    if alive { SurvivorsAreLive(x.s.log); } else { LiveIsHeld(x.s.log); }
  }
}
