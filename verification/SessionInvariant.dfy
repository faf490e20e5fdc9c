/** What every command of every session keeps, whatever upstream answers. */
module SessionInvariant {
  import opened Wrappers
  import opened Statements
  import opened LogicalState
  import opened Upstream
  import opened Session

  // ---------------------------------------------------------------- the invariant

  /** A handle's statement is alive on the pinned connection, and in the open transaction if it is bound. */
  ghost predicate HandleSound(tx: Option<Tx>, pinned: Option<ConnId>, stmts: nat, live: set<Stmt>, h: Handle) {
    && (h.statement.Some? ==>
          && h.statement.value in live && h.statement.value.id < stmts
          && pinned == Some(h.statement.value.conn)
          && (!h.transactionBound ==> h.statement.value.tx.None?))
    && (h.transactionBound ==>
          h.statement.Some? && tx.Some? && h.statement.value.tx == Some(tx.value.id))
  }

  /** No two handles share an upstream statement. */
  ghost predicate Distinct(prepared: map<uint32, Handle>) {
    forall a, b | a in prepared && b in prepared && a != b && prepared[a].statement.Some? ::
      prepared[a].statement != prepared[b].statement
  }

  /** The session's call log is legal and leaves exactly what the session believes it holds. */
  ghost predicate Tracked(tx: Option<Tx>, pinned: Option<ConnId>, slot: bool, prepared: map<uint32, Handle>,
                          begun: nat, stmts: nat, log: seq<Call>) {
    && Replay(log).Some?
    && var k := Replay(log).value;
    && k.begun == begun
    && k.open == tx
    && k.held == (if pinned.Some? then {pinned.value} else {})
    && k.slots == (if slot then 1 else 0)
    && k.stmts == stmts
    && (forall id | id in prepared :: HandleSound(tx, pinned, stmts, k.live, prepared[id]))
    && Distinct(prepared)
  }

  /** The physical view: a pin for whoever needs it, a slot for the pin, a legal log. */
  ghost predicate Physical(s: Session) {
    && (s.slot <==> s.pinned.Some?)
    && (s.tx.Some? ==> s.pinned == Some(s.tx.value.conn))
    && (s.prepared != map[] ==> s.pinned.Some?)
    && s.prepared.Keys == s.state.prepared
    && Tracked(s.tx, s.pinned, s.slot, s.prepared, s.begun, s.stmts, s.log)
  }

  /** Nothing stays pinned without a reason. */
  ghost predicate PinNeeded(s: Session) {
    s.pinned.Some? ==> s.tx.Some? || s.prepared != map[]
  }

  /** The logical view agrees with the physical one and never leaves the baseline. */
  ghost predicate Logically(s: Session) {
    && (s.tx.Some? ==> s.state.inTransaction)
    && (s.state.inTransaction ==> s.tx.Some? || s.state.poisoned)
    && s.state.settings == BaselineSettings(s.state.baseline)
    && s.state.baseline.charset == "utf8mb4"
    && !s.state.userVariables && !s.state.temporaryState && !s.state.lockRisk
  }

  ghost predicate Inv(s: Session) {
    Physical(s) && PinNeeded(s) && Logically(s)
  }

  /** The pool hands out connections exclusively: never one this session already holds. */
  predicate Exclusive(s: Session, e: Env) {
    e.checkout.Some? ==> s.pinned != e.checkout
  }

  /** The id a prepare would use is not live. */
  predicate IdFree(s: Session) {
    NextId(s.nextId) !in s.prepared
  }

  function Bit(b: bool): int { if b then 1 else 0 }

  /** What the shared counters hold beyond this session's own share; no operation may change it. */
  function Others(w: World): (int, int, int) {
    (w.c.slots - Bit(w.s.slot), w.c.pinned - Bit(w.s.pinned.Some?), w.c.commitGeneration - Commits(w.s.log))
  }

  // ---------------------------------------------------------------- pinning

  lemma EnsurePinnedKeeps(w: World, e: Env, x: World, p: Pinning)
    requires Physical(w.s) && Exclusive(w.s, e) && EnsurePinned(w, e) == (x, p)
    ensures Physical(x.s)
  {
    hide Replay, Commits;
  }

  lemma EnsurePinnedFrame(w: World, e: Env, x: World, p: Pinning)
    requires EnsurePinned(w, e) == (x, p) && w.s.slot == w.s.pinned.Some?
    ensures x.s == w.s.(pinned := x.s.pinned, slot := x.s.slot, log := x.s.log)
    ensures p.Created? ==> w.s.pinned.None? && Some(x.s.pinned.value) == e.checkout
    ensures !p.Created? ==> x.s.pinned == w.s.pinned
    ensures Others(x) == Others(w)
  {
    hide Replay, Commits;
  }

  lemma ReleasePinnedKeeps(w: World, discard: bool)
    requires Physical(w.s) && w.s.tx.None? && w.s.prepared == map[]
    ensures var x := ReleasePinned(w, discard);
            && Physical(x.s) && x.s.pinned.None? && Others(x) == Others(w)
            && x.s == w.s.(pinned := None, slot := false, log := x.s.log)
  {
  }

  // ---------------------------------------------------------------- beginning and ending transactions

  /** BeginTx on the pinned connection is legal, whether it succeeds or not. */
  lemma BeginTxKeeps(x: World)
    requires Physical(x.s) && x.s.tx.None? && x.s.pinned.Some?
    ensures var tx := Tx(x.s.begun, x.s.pinned.value);
            && Physical(Emit(x, BeginTx(tx, false)).s)
            && var y := Emit(x, BeginTx(tx, true));
            && Physical(y.s.(begun := y.s.begun + 1, tx := Some(tx)))
            && Others(y) == Others(x) == Others(Emit(x, BeginTx(tx, false)))
  {
  }

  lemma BeginRolledBackKeeps(x: World, ending: Ending)
    requires Physical(x.s) && x.s.tx.None? && x.s.pinned.Some?
    ensures var tx := Tx(x.s.begun, x.s.pinned.value);
            var y := Emit(x, BeginTx(tx, true));
            var z := Emit(y.(s := y.s.(begun := y.s.begun + 1)), RollbackTx(tx, ending));
            Physical(z.s) && Others(z) == Others(x)
  {
    var tx := Tx(x.s.begun, x.s.pinned.value);
    var y := Emit(x, BeginTx(tx, true));
    var z := Emit(y.(s := y.s.(begun := y.s.begun + 1)), RollbackTx(tx, ending));
    forall id | id in z.s.prepared
      ensures HandleSound(z.s.tx, z.s.pinned, z.s.stmts, Replay(z.s.log).value.live, z.s.prepared[id])
    {
      assert HandleSound(x.s.tx, x.s.pinned, x.s.stmts, Replay(x.s.log).value.live, x.s.prepared[id]);
    }
  }

  lemma BeginKeeps(w: World, e: Env, z: World, ok: bool)
    requires Inv(w.s) && Exclusive(w.s, e) && w.s.tx.None? && BeginTransaction(w, e) == (z, ok)
    ensures Inv(z.s) && Others(z) == Others(w) && (ok <==> z.s.tx.Some?)
    ensures z.s.prepared == w.s.prepared && z.s.nextId == w.s.nextId
    ensures z.s.state.baseline == w.s.state.baseline && z.s.state.autocommit == w.s.state.autocommit && z.s.state.poisoned == w.s.state.poisoned
    ensures z.s.pinned == w.s.pinned || z.s.pinned == e.checkout
  {
    hide Replay, Commits, EnsurePinned, ReleasePinned, Tracked;
    var (x, p) := EnsurePinned(w, e);
    EnsurePinnedKeeps(w, e, x, p);
    EnsurePinnedFrame(w, e, x, p);
    if !p.Denied? {
      BeginTxKeeps(x);
      BeginRolledBackKeeps(x, e.rollback);
      var tx := Tx(x.s.begun, x.s.pinned.value);
      var y := Emit(x, BeginTx(tx, e.begin));
      if !e.begin {
        if p.Created? { ReleasePinnedKeeps(y, false); }
      } else if x.s.state.inTransaction {
        var state := Applied(y.s.state, Begin).0;
        var u := Emit(y.(s := y.s.(begun := y.s.begun + 1)), RollbackTx(tx, e.rollback));
        var v := Emit(y.(s := y.s.(begun := y.s.begun + 1, state := state)), RollbackTx(tx, e.rollback));
        assert v.s == u.s.(state := state);
        if p.Created? { ReleasePinnedKeeps(v, false); }
      }
    }
  }

  /** The calls that end the session's transaction. */
  predicate Terminal(s: Session, c: Call) {
    s.tx.Some? && (c.CommitTx? || c.RollbackTx?) && c.tx == s.tx.value
  }

  /** Ending the transaction and invalidating its handles leaves only unbound handles, all alive. */
  lemma InvalidateKeeps(w: World, c: Call)
    requires Physical(w.s) && Terminal(w.s, c)
    ensures var x := Emit(w, c);
            var y := Emit(x.(s := x.s.(tx := None)), CloseStmts(StatementsOf(w.s.prepared, true)));
            Tracked(None, y.s.pinned, y.s.slot, Invalidated(y.s.prepared), y.s.begun, y.s.stmts, y.s.log)
  {
    var x := Emit(w, c);
    var y := Emit(x.(s := x.s.(tx := None)), CloseStmts(StatementsOf(w.s.prepared, true)));
    var live := Replay(w.s.log).value.live;
    forall id | id in w.s.prepared
      ensures HandleSound(None, y.s.pinned, y.s.stmts, Replay(y.s.log).value.live, Invalidated(w.s.prepared)[id])
    {
      forall other | other in w.s.prepared
        ensures HandleSound(w.s.tx, w.s.pinned, w.s.stmts, live, w.s.prepared[other])
      {
      }
    }
  }

  lemma FinishKeeps(w: World, c: Call, x: World)
    requires Physical(w.s) && Terminal(w.s, c)
    requires x.s == Emit(w, c).s.(state := x.s.state) && x.s.state.prepared == w.s.state.prepared
    ensures var z := FinishTransaction(x);
            && Physical(z.s) && PinNeeded(z.s) && Others(z) == Others(x)
            && z.s.tx.None? && z.s.state == x.s.state && z.s.nextId == w.s.nextId
            && z.s.prepared == Invalidated(w.s.prepared) && (z.s.pinned == w.s.pinned || z.s.pinned.None?)
  {
    hide Replay, Commits, ReleasePinned, Tracked;
    InvalidateKeeps(w, c);
    var y := Emit(x.(s := x.s.(tx := None)), CloseStmts(StatementsOf(x.s.prepared, true)));
    var z := y.(s := y.s.(prepared := Invalidated(y.s.prepared)));
    assert z.s.prepared.Keys == w.s.prepared.Keys;
    if z.s.state.prepared == {} {
      assert z.s.prepared == map[];
      ReleasePinnedKeeps(z, false);
    }
  }

  // ---------------------------------------------------------------- commands

  /** How a command may move the handle ids: drop some, or add the next one. */
  predicate IdsMove(s: Session, t: Session) {
    || (t.nextId == s.nextId && t.prepared.Keys <= s.prepared.Keys)
    || (t.nextId == NextId(s.nextId) && t.prepared.Keys <= s.prepared.Keys + {t.nextId})
  }

  /** What a command owes: the counters' balance and a legal log always, the whole invariant if the session goes on. */
  ghost predicate Kept(w: World, o: Outcome) {
    && Physical(o.w.s) && Others(o.w) == Others(w)
    && o.w.s.state.baseline == w.s.state.baseline
    && IdsMove(w.s, o.w.s)
    && (o.alive ==> Inv(o.w.s))
  }

  lemma CommitKeeps(w: World, e: Env)
    requires Inv(w.s)
    ensures Kept(w, CommitCommand(w, e)) && Kept(w, AutocommitOnCommand(w, e))
    ensures CommitCommand(w, e).w.s.nextId == AutocommitOnCommand(w, e).w.s.nextId == w.s.nextId
  {
    hide Replay, Commits, FinishTransaction, Tracked;
    if w.s.tx.Some? {
      var c := CommitTx(w.s.tx.value, e.commit);
      var x := Emit(w, c);
      FinishKeeps(w, c, x);
      FinishKeeps(w, c, Bump(x));
      FinishKeeps(w, c, Bump(ApplyKind(x, Commit)));
    }
  }

  lemma RollbackKeeps(w: World, e: Env)
    requires Inv(w.s)
    ensures Kept(w, RollbackCommand(w, e))
    ensures RollbackCommand(w, e).w.s.nextId == w.s.nextId
  {
    hide Replay, Commits, FinishTransaction, Tracked;
    if w.s.tx.Some? {
      var c := RollbackTx(w.s.tx.value, e.rollback);
      var x := Emit(w, c);
      FinishKeeps(w, c, x);
      FinishKeeps(w, c, ApplyKind(x, Rollback));
    }
  }

  /** A statement on a borrowed connection returns connection and slot, in either order. */
  lemma BorrowKeeps(w: World, conn: ConnId, sql: string, read: bool)
    requires Physical(w.s) && w.s.tx.None? && w.s.pinned != Some(conn)
    ensures var y := Borrow(w, conn, sql, read);
            Physical(y.s) && Others(y) == Others(w) && y.s == w.s.(log := y.s.log)
  {
    hide Replay, Commits;
    var x := Emit(Emit(TakeSlot(w), Checkout(conn)), Run(conn, None, sql));
    var k := Replay(w.s.log).value;
    assert |k.held| == k.slots;
    assert Replay(TakeSlot(w).s.log) == Some(k.(slots := k.slots + 1));
    assert Replay(x.s.log) == Some(k.(slots := k.slots + 1, held := k.held + {conn}));
    assert k.held + {conn} - {conn} == k.held;
    forall id | id in w.s.prepared
      ensures HandleSound(w.s.tx, w.s.pinned, w.s.stmts, (set t | t in k.live && t.conn != conn), w.s.prepared[id])
    {
      assert HandleSound(w.s.tx, w.s.pinned, w.s.stmts, k.live, w.s.prepared[id]);
    }
  }

  lemma RunInTxKeeps(w: World, sql: string)
    requires Physical(w.s) && w.s.tx.Some?
    ensures Physical(Emit(w, Run(w.s.tx.value.conn, w.s.tx, sql)).s)
  {
    hide Replay, Commits;
  }

  lemma RunTextKeeps(w: World, sql: string, read: bool, e: Env)
    requires Inv(w.s) && (w.s.tx.Some? || Exclusive(w.s, e))
    ensures Kept(w, RunText(w, sql, read, e)) && RunText(w, sql, read, e).w.s.nextId == w.s.nextId
  {
    hide Replay, Commits, Tracked, Borrow;
    if w.s.tx.Some? {
      RunInTxKeeps(w, sql);
    } else if e.admitted {
      if e.checkout.Some? {
        BorrowKeeps(w, e.checkout.value, sql, read);
      } else {
        SlotKeeps(w);
      }
    }
  }

  /** A slot taken and given back when no connection was found. */
  lemma SlotKeeps(w: World)
    requires Physical(w.s)
    ensures var x := DropSlot(TakeSlot(w));
            Physical(x.s) && Others(x) == Others(w) && x.s == w.s.(log := x.s.log)
  {
    hide Replay, Commits;
  }

  /** Only the configured database can be selected, so the settings stay at the baseline. */
  lemma SelectDbKeeps(w: World, name: string, e: Env)
    requires Inv(w.s)
    ensures Kept(w, SelectDb(w, name, e)) && SelectDb(w, name, e).w.s.nextId == w.s.nextId
  {
    hide Replay, Commits, Tracked;
  }

  lemma QueryKeeps(w: World, st: Statement, e: Env)
    requires Inv(w.s) && Exclusive(w.s, e)
    ensures Kept(w, QueryCommand(w, st, e)) && QueryCommand(w, st, e).w.s.nextId == w.s.nextId
  {
    hide Inv, Kept, QueryCommand;
    match st.kind
    case Begin | Commit | Rollback | AutocommitOn => TransactionQueryKeeps(w, st, e);
    case Savepoint | DDL | Write | Read => WorkQueryKeeps(w, st, e);
    case _ => LocalQueryKeeps(w, st, e);
  }

  lemma TransactionQueryKeeps(w: World, st: Statement, e: Env)
    requires Inv(w.s) && Exclusive(w.s, e) && (st.kind.Begin? || st.kind.Commit? || st.kind.Rollback? || st.kind.AutocommitOn?)
    ensures Kept(w, QueryCommand(w, st, e)) && QueryCommand(w, st, e).w.s.nextId == w.s.nextId
  {
    hide Replay, Commits, Tracked, BeginTransaction, CommitCommand, RollbackCommand, AutocommitOnCommand;
    CommitKeeps(w, e);
    RollbackKeeps(w, e);
    if st.kind.Begin? && w.s.tx.None? {
      var (x, ok) := BeginTransaction(w, e);
      BeginKeeps(w, e, x, ok);
    }
  }

  lemma WorkQueryKeeps(w: World, st: Statement, e: Env)
    requires Inv(w.s) && Exclusive(w.s, e) && (st.kind.Savepoint? || st.kind.DDL? || st.kind.Write? || st.kind.Read?)
    ensures Kept(w, QueryCommand(w, st, e)) && QueryCommand(w, st, e).w.s.nextId == w.s.nextId
  {
    hide Replay, Commits, Tracked, RunText, EnsureImplicit;
    match st.kind
    case Savepoint => RunTextKeeps(ApplyKind(w, Savepoint), st.sql, false, e);
    case DDL => RunTextKeeps(w, st.sql, false, e);
    case Write | Read =>
      var (x, ok) := EnsureImplicit(w, e);
      ImplicitKeeps(w, e, x, ok);
      if ok { RunTextKeeps(x, st.sql, st.kind.Read?, e); }
  }

  /** Statements answered from the logical state alone. */
  lemma LocalQueryKeeps(w: World, st: Statement, e: Env)
    requires Inv(w.s)
    requires st.kind.Empty? || st.kind.Unsupported? || st.kind.Unrecognized? || st.kind.AutocommitOff?
             || st.kind.SetNames? || st.kind.WarningCount? || st.kind.UseDatabase?
    ensures Kept(w, QueryCommand(w, st, e)) && QueryCommand(w, st, e).w.s.nextId == w.s.nextId
  {
    hide Replay, Commits, Tracked, SelectDb;
    if st.kind.UseDatabase? && |Text.Fields(st.sql)| == 2 {
      SelectDbKeeps(w, Text.TrimAll(Text.Fields(st.sql)[1], '`'), e);
    }
  }

  lemma ImplicitKeeps(w: World, e: Env, x: World, ok: bool)
    requires Inv(w.s) && Exclusive(w.s, e) && EnsureImplicit(w, e) == (x, ok)
    ensures Inv(x.s) && Others(x) == Others(w) && x.s.state.baseline == w.s.state.baseline
    ensures x.s.prepared == w.s.prepared && x.s.nextId == w.s.nextId
    ensures ok ==> Exclusive(x.s, e) || x.s.tx.Some?
  {
    hide Replay, Commits, Tracked, BeginTransaction;
    if !w.s.state.autocommit && w.s.tx.None? { BeginKeeps(w, e, x, ok); }
  }

  // ---------------------------------------------------------------- prepared statements

  /** Preparing on the current connection: legal, and the new handle is sound. */
  lemma PrepareStmtKeeps(w: World, id: uint32, query: Statement)
    requires Physical(w.s) && w.s.pinned.Some?
    ensures var stmt := CurrentStmt(w.s);
            var y := Emit(w, PrepareStmt(stmt, true));
            && Physical(Emit(w, PrepareStmt(stmt, false)).s)
            && Tracked(y.s.tx, y.s.pinned, y.s.slot, y.s.prepared[id := Handle(Some(stmt), y.s.tx.Some?, query)],
                       y.s.begun, y.s.stmts + 1, y.s.log)
  {
    hide Replay, Commits;
  }

  /** A statement just prepared gets the next id in both tables. */
  lemma RegisterKeeps(y: World, stmt: Stmt, query: Statement, e: Env)
    requires IdFree(y.s) && y.s.prepared.Keys == y.s.state.prepared && Logically(y.s)
    requires y.s.slot && y.s.pinned.Some? && (y.s.tx.Some? ==> y.s.pinned == Some(y.s.tx.value.conn))
    requires Tracked(y.s.tx, y.s.pinned, y.s.slot, y.s.prepared[NextId(y.s.nextId) := Handle(Some(stmt), y.s.tx.Some?, query)],
                     y.s.begun, y.s.stmts, y.s.log)
    ensures var o := Register(y, stmt, query, e);
            && Inv(o.w.s) && Others(o.w) == Others(y) && o.w.s.state.baseline == y.s.state.baseline
            && o.w.s.nextId == NextId(y.s.nextId) && o.w.s.prepared.Keys == y.s.prepared.Keys + {o.w.s.nextId}
  {
    hide Replay, Commits, Tracked;
    var id := NextId(y.s.nextId);
    assert y.s.prepared[id := Handle(Some(stmt), y.s.tx.Some?, query)].Keys == y.s.prepared.Keys + {id};
    assert id in y.s.prepared[id := Handle(Some(stmt), y.s.tx.Some?, query)];
  }

  lemma PrepareKeeps(w: World, st: Statement, e: Env)
    requires Inv(w.s) && Exclusive(w.s, e) && IdFree(w.s)
    ensures Kept(w, PrepareCommand(w, st, e))
  {
    hide Replay, Commits, Tracked, EnsurePinned, ReleasePinned, CurrentStmt, Register;
    if (st.kind.Read? || st.kind.Write? || st.kind.DDL?) && !(st.kind.DDL? && w.s.tx.Some?) {
      var (x, p) := EnsurePinned(w, e);
      EnsurePinnedKeeps(w, e, x, p);
      EnsurePinnedFrame(w, e, x, p);
      if !p.Denied? {
        PrepareStmtKeeps(x, NextId(x.s.nextId), st);
        var y := Emit(x, PrepareStmt(CurrentStmt(x.s), e.prepare));
        if e.prepare {
          RegisterKeeps(y.(s := y.s.(stmts := y.s.stmts + 1)), CurrentStmt(x.s), st, e);
        } else if y.s.state.prepared == {} && y.s.tx.None? {
          assert y.s.prepared == map[];
          ReleasePinnedKeeps(y, true);
        }
      }
    }
  }

  lemma ReadyKeeps(w: World, id: uint32, e: Env, x: World, ok: bool)
    requires Inv(w.s) && id in w.s.prepared && StatementForExecution(w, id, e) == (x, ok)
    ensures Inv(x.s) && Others(x) == Others(w) && x.s.prepared.Keys == w.s.prepared.Keys
    ensures x.s.tx == w.s.tx && x.s.pinned == w.s.pinned && x.s.state == w.s.state && x.s.nextId == w.s.nextId
    ensures !(w.s.prepared[id].transactionBound && w.s.tx.None?)
  {
    hide Replay, Commits, CurrentStmt;
    PrepareStmtKeeps(w, id, w.s.prepared[id].query);
    assert HandleSound(w.s.tx, w.s.pinned, w.s.stmts, Replay(w.s.log).value.live, w.s.prepared[id]);
  }

  /** Running a ready handle is legal: its statement is alive, here, and in the right transaction. */
  lemma ExecutionKeeps(w: World, id: uint32, arguments: seq<BinaryValues.Value>)
    requires Physical(w.s) && id in w.s.prepared && w.s.prepared[id].statement.Some?
    ensures Physical(Emit(w, ExecutionOf(w.s, id, arguments)).s)
  {
    hide Replay, Commits;
    assert HandleSound(w.s.tx, w.s.pinned, w.s.stmts, Replay(w.s.log).value.live, w.s.prepared[id]);
  }

  lemma ExecuteKeeps(w: World, id: uint32, arguments: Option<seq<BinaryValues.Value>>, e: Env)
    requires Inv(w.s) && Exclusive(w.s, e)
    ensures Kept(w, ExecuteCommand(w, id, arguments, e))
    ensures ExecuteCommand(w, id, arguments, e).w.s.nextId == w.s.nextId
  {
    hide Replay, Commits, Tracked, EnsureImplicit, StatementForExecution;
    if id in w.s.prepared && arguments.Some? {
      var (x, ok) := EnsureImplicit(w, e);
      ImplicitKeeps(w, e, x, ok);
      if ok {
        var (y, ready) := StatementForExecution(x, id, e);
        ReadyKeeps(x, id, e, y, ready);
        if ready { ExecutionKeeps(y, id, arguments.value); }
      }
    }
  }

  lemma ForgetKeeps(w: World, id: uint32)
    requires Physical(w.s) && id in w.s.prepared
    ensures var y := Forget(w, id);
            && Physical(y.s) && Others(y) == Others(w)
            && y.s == w.s.(prepared := w.s.prepared - {id}, state := w.s.state.(prepared := w.s.state.prepared - {id}), log := y.s.log)
  {
    hide Replay, Commits;
    var y := Forget(w, id);
    assert y.s.prepared.Keys == y.s.state.prepared;
  }

  lemma CloseCommandKeeps(w: World, id: uint32)
    requires Inv(w.s)
    ensures Kept(w, CloseCommand(w, id)) && CloseCommand(w, id).w.s.nextId == w.s.nextId
  {
    hide Replay, Commits, Tracked, Forget, ReleasePinned;
    if id in w.s.prepared {
      ForgetKeeps(w, id);
      var y := Forget(w, id);
      if y.s.prepared == map[] && y.s.tx.None? { ReleasePinnedKeeps(y, false); }
    }
  }

  // ---------------------------------------------------------------- the end of a session

  /** Nothing is left: no transaction, pin, slot or handle, and a legal log that ends with nothing held. */
  ghost predicate Closed(s: Session) {
    && s.tx.None? && s.pinned.None? && !s.slot && s.prepared == map[]
    && s.state == Fresh(s.state.baseline)
    && Replay(s.log).Some?
    && Replay(s.log).value.open.None? && Replay(s.log).value.held == {} && Replay(s.log).value.slots == 0
  }

  lemma CloseKeeps(w: World, e: Env)
    requires Physical(w.s)
    ensures var z := Close(w, e);
            Closed(z.s) && Others(z) == Others(w)
  {
    hide Replay, Commits, ReleasePinned;
    var x := if w.s.tx.Some?
             then var y := Emit(w, RollbackTx(w.s.tx.value, e.rollback)); y.(s := y.s.(tx := None))
             else w;
    var y := Emit(x, CloseStmts(StatementsOf(x.s.prepared, false)));
    assert Physical(ForgetAll(y).s);
    ReleasePinnedKeeps(ForgetAll(y), true);
  }
}
