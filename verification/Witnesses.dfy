/** Concrete runs of a session in which a property one might expect does not hold. */
module Witnesses {
  import opened Wrappers
  import opened Statements
  import opened LogicalState
  import opened Upstream
  import opened Session
  import opened SessionInvariant

  /** Upstream answers every call and every reply arrives. */
  predicate Fine(e: Env) {
    e.admitted && e.checkout.Some? && e.begin && e.commit && e.rollback.Done? && e.prepare && e.run && e.hook && e.write
  }

  lemma Then(w: World, turns: seq<Turn>, x: World, t: Turn)
    requires RunTurns(w, turns) == (x, true) && Dispatch(x, t.command, t.e).alive
    ensures RunTurns(w, turns + [t]) == (Dispatch(x, t.command, t.e).w, true)
  {
    hide Dispatch, Close;
    assert (turns + [t])[..|turns|] == turns;
  }

  // ---------------------------------------------------------------- a definition inside a transaction

  lemma PrepareOutcome(w: World, st: Statement, e: Env)
    requires st.kind.DDL? && Fine(e) && w.s.tx.None? && w.s.pinned.None? && w.s.nextId == 0 && w.s.prepared == map[] && w.s.state.prepared == {}
    ensures var o := Dispatch(w, Prepare(st), e);
            && o.alive && o.w.s.tx.None? && o.w.s.pinned == e.checkout && o.w.s.state == w.s.state.(prepared := {1})
            && o.w.s.prepared == map[1 := Handle(Some(Stmt(w.s.stmts, e.checkout.value, None)), false, st)]
  {
    hide Replay, Commits;
  }

  lemma BeginOutcome(w: World, e: Env)
    requires Fine(e) && w.s.tx.None? && w.s.pinned.Some? && !w.s.state.inTransaction
    ensures var o := Dispatch(w, Query(Statement(Begin, "BEGIN")), e);
            && o.alive && o.w.s.tx.Some? && o.w.s.pinned == w.s.pinned && o.w.s.prepared == w.s.prepared
  {
    hide Replay, Commits;
  }

  lemma ExecuteOutcome(w: World, arguments: seq<BinaryValues.Value>, e: Env)
    requires Fine(e) && w.s.tx.Some? && w.s.pinned.Some?
    requires 1 in w.s.prepared && w.s.prepared[1].statement.Some? && !w.s.prepared[1].transactionBound
    ensures var o := Dispatch(w, Execute(1, Some(arguments)), e);
            && o.alive && o.w.s.tx == w.s.tx && |o.w.s.log| > 0
            && o.w.s.log[|o.w.s.log| - 1] == RunPrepared(w.s.prepared[1].statement.value, w.s.tx, w.s.prepared[1].query, arguments)
  {
    hide Replay, Commits;
  }

  /** PREPARE of a definition, BEGIN, EXECUTE: the definition is executed in the open transaction. */
  lemma DefinitionInTransaction(b: Baseline, c: Counters, st: Statement, arguments: seq<BinaryValues.Value>, e: Env)
    requires st.kind.DDL? && Fine(e)
    ensures var turns := [Turn(Prepare(st), e), Turn(Query(Statement(Begin, "BEGIN")), e), Turn(Execute(1, Some(arguments)), e)];
            var (x, alive) := RunTurns(World(NewSession(b), c), turns);
            && alive && x.s.tx.Some? && |x.s.log| > 0
            && var last := x.s.log[|x.s.log| - 1];
            last.RunPrepared? && last.query == st && last.via == x.s.tx
  {
    hide Dispatch, RunTurns, Replay, Commits;
    var w := World(NewSession(b), c);
    var t1, t2, t3 := Turn(Prepare(st), e), Turn(Query(Statement(Begin, "BEGIN")), e), Turn(Execute(1, Some(arguments)), e);
    Start(w);
    PrepareOutcome(w, st, e);
    Then(w, [], w, t1);
    var x := Dispatch(w, t1.command, e).w;
    BeginOutcome(x, e);
    assert [] + [t1] == [t1] && [t1] + [t2] == [t1, t2] && [t1, t2] + [t3] == [t1, t2, t3];
    Then(w, [t1], x, t2);
    var y := Dispatch(x, t2.command, e).w;
    ExecuteOutcome(y, arguments, e);
    Then(w, [t1, t2], y, t3);
  }

  lemma Start(w: World)
    ensures RunTurns(w, []) == (w, true)
  {
  }

  // ---------------------------------------------------------------- a refusal that changes the session

  lemma WriteOutcome(w: World, e: Env)
    requires Fine(e) && w.s.tx.None? && w.s.state.autocommit
    ensures var o := Dispatch(w, Query(Statement(Kind.Write, "INSERT")), e);
            && o.alive && o.w.s.tx.None? && o.w.s.state == w.s.state.(warnings := e.warnings, lastInsertId := e.insertId)
  {
    hide Replay, Commits;
  }

  lemma SavepointOutcome(w: World, e: Env)
    requires Fine(e) && w.s.tx.None?
    ensures var o := Dispatch(w, Query(Statement(Savepoint, "SAVEPOINT a")), e);
            && o.alive && o.reply.Refused? && o.w.s.state.warnings == 0
  {
    hide Replay, Commits;
  }

  /** INSERT with a warning, then SAVEPOINT outside a transaction: refused, and the warning is gone. */
  lemma RefusedSavepointForgets(b: Baseline, c: Counters, e: Env)
    requires Fine(e) && e.warnings > 0
    ensures var insert, savepoint := Turn(Query(Statement(Kind.Write, "INSERT")), e), Turn(Query(Statement(Savepoint, "SAVEPOINT a")), e);
            var (x, open) := RunTurns(World(NewSession(b), c), [insert]);
            && open && x.s.state.warnings == e.warnings
            && var o := Dispatch(x, savepoint.command, savepoint.e);
            o.alive && o.reply.Refused? && o.w.s.state.warnings == 0 && o.w != x
  {
    hide Dispatch, RunTurns, Replay, Commits;
    var w := World(NewSession(b), c);
    var insert := Turn(Query(Statement(Kind.Write, "INSERT")), e);
    Start(w);
    WriteOutcome(w, e);
    assert [] + [insert] == [insert];
    Then(w, [], w, insert);
    SavepointOutcome(Dispatch(w, insert.command, e).w, e);
  }

  // ---------------------------------------------------------------- handle ids that wrap

  const LastId: uint32 := 0xffff_ffff

  /** Handle 1 is live, and ids up to `n` have been used. */
  ghost predicate OnlyFirst(s: Session, n: uint32) {
    Inv(s) && s.prepared.Keys == {1} && s.nextId == n
  }

  lemma AnotherHandle(w: World, st: Statement, e: Env)
    requires OnlyFirst(w.s, w.s.nextId) && 1 <= w.s.nextId < LastId && Fine(e) && st.kind.Read? && w.s.pinned != e.checkout
    ensures var x := Dispatch(w, Prepare(st), e);
            && x.alive && x.w.s.prepared.Keys == {1, w.s.nextId + 1} && x.w.s.nextId == w.s.nextId + 1
            && x.w.s.pinned == w.s.pinned && Inv(x.w.s)
  {
    hide Replay, Commits, Tracked;
    PrepareKeeps(w, st, e);
    assert w.s.prepared != map[];
  }

  lemma ForgetHandle(w: World, id: uint32, e: Env)
    requires Inv(w.s) && w.s.prepared.Keys == {1, id} && id != 1
    ensures var x := Dispatch(w, CloseStmt(id), e);
            x.alive && OnlyFirst(x.w.s, w.s.nextId) && x.w.s.pinned == w.s.pinned
  {
    hide Replay, Commits, Tracked, ReleasePinned;
    CloseCommandKeeps(w, id);
    var y := Forget(w, id);
    assert 1 in y.s.prepared;
    assert y.s.prepared.Keys == {1};
  }

  lemma FirstHandle(w: World, st: Statement, e: Env)
    requires w.s == NewSession(w.s.state.baseline) && w.s.state.baseline.charset == "utf8mb4" && Fine(e) && st.kind.Read?
    ensures var x := Dispatch(w, Prepare(st), e);
            x.alive && OnlyFirst(x.w.s, 1) && x.w.s.pinned == e.checkout
  {
    hide Commits;
    FreshInv(w.s);
    PrepareKeeps(w, st, e);
    hide Replay, Tracked;
  }

  lemma FreshInv(s: Session)
    requires s == NewSession(s.state.baseline) && s.state.baseline.charset == "utf8mb4"
    ensures Inv(s)
  {
  }

  /** Prepare and close again and again: a run after which handle 1 is live and ids up to `n` have been used. */
  lemma {:induction false} Churn(b: Baseline, c: Counters, st: Statement, e: Env, f: Env, n: uint32) returns (turns: seq<Turn>, x: World)
    requires b.charset == "utf8mb4" && Fine(e) && Fine(f) && st.kind.Read? && e.checkout != f.checkout && n >= 1
    ensures RunTurns(World(NewSession(b), c), turns) == (x, true) && OnlyFirst(x.s, n) && x.s.pinned == e.checkout
    decreases n
  {
    hide Dispatch, RunTurns, Inv;
    var w := World(NewSession(b), c);
    if n == 1 {
      Start(w);
      FirstHandle(w, st, e);
      Then(w, [], w, Turn(Prepare(st), e));
      turns, x := [] + [Turn(Prepare(st), e)], Dispatch(w, Prepare(st), e).w;
    } else {
      var before, y := Churn(b, c, st, e, f, n - 1);
      AnotherHandle(y, st, f);
      Then(w, before, y, Turn(Prepare(st), f));
      var z := Dispatch(y, Prepare(st), f).w;
      ForgetHandle(z, n, f);
      Then(w, before + [Turn(Prepare(st), f)], z, Turn(CloseStmt(n), f));
      turns, x := before + [Turn(Prepare(st), f)] + [Turn(CloseStmt(n), f)], Dispatch(z, CloseStmt(n), f).w;
    }
  }

  /** A run of 2^32 - 1 prepares after which one more loses handle 1 from the table while the logical record keeps it. */
  lemma WrapLosesHandle(b: Baseline, c: Counters, st: Statement, e: Env, f: Env) returns (turns: seq<Turn>, x: World)
    requires b.charset == "utf8mb4" && Fine(e) && Fine(f) && st.kind.Read? && e.checkout != f.checkout
    ensures RunTurns(World(NewSession(b), c), turns) == (x, true) && Inv(x.s) && 1 in x.s.prepared
    ensures var s := PrepareCommand(x, st, f).w.s; 1 !in s.prepared && 1 in s.state.prepared
  {
    hide RunTurns, Replay, Commits, Tracked;
    turns, x := Churn(b, c, st, e, f, LastId);
    hide Inv;
    Wrapped(x, st, f);
  }

  lemma Wrapped(x: World, st: Statement, f: Env)
    requires x.s.nextId == LastId && 1 in x.s.prepared && 1 in x.s.state.prepared && x.s.pinned.Some? && Fine(f) && st.kind.Read?
    ensures var s := PrepareCommand(x, st, f).w.s; 1 !in s.prepared && 1 in s.state.prepared
  {
    hide Replay, Commits;
  }
}
