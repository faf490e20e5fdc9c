/**
 * clientSession as the source has it: an object whose methods update its fields, the logical
 * state and the service's counters in place. Every method is proved to take exactly the
 * transition of module Session, so the run theorems hold of this object.
 */
module ClientSessions {
  import opened Wrappers
  import opened Statements
  import opened LogicalState
  import opened Upstream
  import opened Session
  import opened SessionInvariant
  import SessionRuns

  /** The shared counters of `Service`. */
  class Service {
    var slots: int
    var pinned: int
    var commitGeneration: int

    constructor ()
      ensures slots == 0 && pinned == 0 && commitGeneration == 0
    {
      slots, pinned, commitGeneration := 0, 0, 0;
    }
  }

  class ClientSession {
    const service: Service
    const state: Logical
    var tx: Option<Tx>
    var pinnedConnection: Option<ConnId>
    var pinnedRelease: bool
    var prepared: map<uint32, Handle>
    var nextPreparedId: uint32
    // upstream handles minted so far, and every call made
    var begun: nat
    var stmts: nat
    var log: seq<Call>

    function View(): World
      reads this, state, service
    {
      World(Session(state.View(), tx, pinnedConnection, pinnedRelease, prepared, nextPreparedId, begun, stmts, log),
            Counters(service.slots, service.pinned, service.commitGeneration))
    }

    constructor (service: Service, state: Logical)
      ensures this.service == service && this.state == state
      ensures View().s == NewSession(state.baseline).(state := state.View())
    {
      this.service, this.state := service, state;
      tx, pinnedConnection, pinnedRelease := None, None, false;
      prepared, nextPreparedId := map[], 0;
      begun, stmts, log := 0, 0, [];
    }

    method Make(c: Call)
      modifies this`log
      ensures View() == Emit(old(View()), c)
    {
      log := log + [c];
    }

    method Acquire(e: Env) returns (ok: bool)
      modifies this`log, service
      ensures ok == e.admitted
      ensures View() == if ok then TakeSlot(old(View())) else old(View())
    {
      ok := e.admitted;
      if ok {
        service.slots := service.slots + 1;
        Make(Call.Acquire);
      }
    }

    method Release()
      modifies this`log, service
      ensures View() == DropSlot(old(View()))
    {
      service.slots := service.slots - 1;
      Make(Call.Release);
    }

    method EnsurePinnedConnection(e: Env) returns (pinning: Pinning)
      modifies this, service
      ensures (View(), pinning) == EnsurePinned(old(View()), e)
    {
      hide Replay, Commits;
      if pinnedConnection.Some? {
        return Already;
      }
      var admitted := Acquire(e);
      if !admitted {
        return Denied;
      }
      if e.checkout.None? {
        Release();
        return Denied;
      }
      Make(Checkout(e.checkout.value));
      pinnedConnection := e.checkout;
      pinnedRelease := true;
      service.pinned := service.pinned + 1;
      return Created;
    }

    method ReleasePinnedConnection(discard: bool)
      modifies this, service
      ensures View() == ReleasePinned(old(View()), discard)
    {
      hide Replay, Commits;
      if pinnedConnection.Some? {
        Make(CloseConn(pinnedConnection.value, discard));
        pinnedConnection := None;
        service.pinned := service.pinned - 1;
      }
      if pinnedRelease {
        Release();
        pinnedRelease := false;
      }
    }

    method Begin(e: Env) returns (ok: bool)
      modifies this, state, service
      ensures (View(), ok) == BeginTransaction(old(View()), e)
    {
      hide Replay, Commits, EnsurePinned, ReleasePinned;
      var pinning := EnsurePinnedConnection(e);
      if pinning.Denied? {
        return false;
      }
      var t := Tx(begun, pinnedConnection.value);
      Make(BeginTx(t, e.begin));
      if !e.begin {
        if pinning.Created? {
          ReleasePinnedConnection(false);
        }
        return false;
      }
      begun := begun + 1;
      ok := state.Apply(Kind.Begin);
      if !ok {
        Make(RollbackTx(t, e.rollback));
        if pinning.Created? {
          ReleasePinnedConnection(false);
        }
        return false;
      }
      tx := Some(t);
    }

    method EnsureImplicitTransaction(e: Env) returns (ok: bool)
      modifies this, state, service
      ensures (View(), ok) == EnsureImplicit(old(View()), e)
    {
      ok := true;
      if !state.autocommit && tx.None? {
        ok := Begin(e);
      }
    }

    // ---------------------------------------------------------------- ending transactions

    method InvalidateTransactionPrepared()
      modifies this`prepared, this`log
      ensures var x := Emit(old(View()), CloseStmts(StatementsOf(old(prepared), true)));
              View() == x.(s := x.s.(prepared := Invalidated(old(prepared))))
    {
      hide Replay, Commits;
      var all := prepared;
      var closed: set<Stmt> := {};
      var ids := all.Keys;
      while ids != {}
        invariant ids <= all.Keys && prepared.Keys == all.Keys && log == old(log)
        invariant forall id | id in ids :: prepared[id] == all[id]
        invariant forall id | id in all && id !in ids :: prepared[id] == Invalidated(all)[id]
        invariant closed == set id | id in all && id !in ids && all[id].statement.Some? && all[id].transactionBound :: all[id].statement.value
        decreases |ids|
      {
        var id :| id in ids;
        ids := ids - {id};
        if prepared[id].transactionBound {
          if prepared[id].statement.Some? {
            closed := closed + {prepared[id].statement.value};
          }
          prepared := prepared[id := Handle(None, false, prepared[id].query)];
        }
      }
      assert prepared == Invalidated(all);
      assert closed == StatementsOf(all, true);
      Make(CloseStmts(closed));
    }

    method Finish()
      modifies this, service
      ensures View() == FinishTransaction(old(View()))
    {
      hide Replay, Commits, ReleasePinned, StatementsOf, Invalidated;
      tx := None;
      InvalidateTransactionPrepared();
      if |state.prepared| == 0 {
        ReleasePinnedConnection(false);
      }
    }

    /** The reply reaches the client, or the session ends. */
    method Write(e: Env, reply: Reply) returns (r: Reply, alive: bool)
      ensures Outcome(View(), r, alive) == Answer(View(), e, reply)
    {
      alive := e.write;
      r := if alive then reply else Silent;
    }

    method Commit(e: Env) returns (reply: Reply, alive: bool)
      modifies this, state, service
      ensures Outcome(View(), reply, alive) == CommitCommand(old(View()), e)
    {
      hide Replay, Commits, FinishTransaction;
      if tx.None? {
        reply, alive := Write(e, Ack(state.autocommit, state.inTransaction));
        return;
      }
      Make(CommitTx(tx.value, e.commit));
      if !e.commit {
        Finish();
        state.Poison();
        return Silent, false;
      }
      var ok := state.Apply(Kind.Commit);
      service.commitGeneration := service.commitGeneration + 1;
      Finish();
      if !e.hook {
        return Silent, false;
      }
      reply, alive := Write(e, Ack(state.autocommit, state.inTransaction));
    }

    method Rollback(e: Env) returns (reply: Reply, alive: bool)
      modifies this, state, service
      ensures Outcome(View(), reply, alive) == RollbackCommand(old(View()), e)
    {
      hide Replay, Commits, FinishTransaction;
      if tx.Some? {
        Make(RollbackTx(tx.value, e.rollback));
        if e.rollback.Broken? {
          Finish();
          state.Poison();
          reply, alive := Write(e, UpstreamError);
          return;
        }
        var ok := state.Apply(Kind.Rollback);
        Finish();
      }
      reply, alive := Write(e, Ack(state.autocommit, state.inTransaction));
    }

    method SetAutocommitOn(e: Env) returns (reply: Reply, alive: bool)
      modifies this, state, service
      ensures Outcome(View(), reply, alive) == AutocommitOnCommand(old(View()), e)
    {
      hide Replay, Commits, FinishTransaction;
      if tx.Some? {
        Make(CommitTx(tx.value, e.commit));
        if !e.commit {
          Finish();
          state.Poison();
          return Silent, false;
        }
        service.commitGeneration := service.commitGeneration + 1;
        Finish();
        if !e.hook {
          return Silent, false;
        }
      }
      var ok := state.Apply(Kind.AutocommitOn);
      reply, alive := Write(e, Ack(state.autocommit, state.inTransaction));
    }

    // ---------------------------------------------------------------- text statements

    method ReportResult(rows: bool, e: Env) returns (reply: Reply, alive: bool)
      modifies state
      ensures Outcome(View(), reply, alive) == Report(old(View()), rows, e)
    {
      hide Replay, Commits;
      if !e.run {
        reply, alive := Write(e, UpstreamError);
        return;
      }
      state.SetResult(e.warnings, if rows then 0 else e.insertId);
      reply, alive := Write(e, Ran(state.autocommit, state.inTransaction));
    }

    /** `exec` and `rows`; they differ in the order of their deferred clean-ups. */
    method RunStatement(sql: string, read: bool, e: Env) returns (reply: Reply, alive: bool)
      modifies this`log, state, service
      ensures Outcome(View(), reply, alive) == RunText(old(View()), sql, read, e)
    {
      hide Replay, Commits, Report;
      if tx.Some? {
        Make(Run(tx.value.conn, tx, sql));
        reply, alive := ReportResult(read, e);
        return;
      }
      var admitted := Acquire(e);
      if !admitted {
        reply, alive := Write(e, UpstreamError);
        return;
      }
      if e.checkout.None? {
        Release();
        reply, alive := Write(e, UpstreamError);
        return;
      }
      var conn := e.checkout.value;
      Make(Checkout(conn));
      Make(Run(conn, None, sql));
      if read {
        Release();
        Make(CloseConn(conn, false));
      } else {
        Make(CloseConn(conn, false));
        Release();
      }
      reply, alive := ReportResult(read, e);
    }

    method InitDatabase(name: string, e: Env) returns (reply: Reply, alive: bool)
      modifies state
      ensures Outcome(View(), reply, alive) == SelectDb(old(View()), name, e)
    {
      hide Replay, Commits;
      if name == "" || name != state.baseline.database {
        reply, alive := Write(e, Refused);
        return;
      }
      var ok := state.SelectDatabase(name);
      reply, alive := Write(e, Ack(state.autocommit, state.inTransaction));
    }

    method Query(st: Statement, e: Env) returns (reply: Reply, alive: bool)
      modifies this, state, service
      ensures Outcome(View(), reply, alive) == QueryCommand(old(View()), st, e)
    {
      hide Replay, Commits, BeginTransaction, CommitCommand, RollbackCommand, AutocommitOnCommand, RunText, SelectDb, EnsureImplicit;
      match st.kind
      case Empty | Unsupported | Unrecognized =>
        reply, alive := Write(e, Refused);
      case Begin =>
        if tx.Some? {
          reply, alive := Write(e, Refused);
        } else {
          var ok := Begin(e);
          reply, alive := Write(e, if ok then Ack(state.autocommit, state.inTransaction) else UpstreamError);
        }
      case Commit =>
        reply, alive := Commit(e);
      case Rollback =>
        reply, alive := Rollback(e);
      case AutocommitOn =>
        reply, alive := SetAutocommitOn(e);
      case AutocommitOff | SetNames =>
        var ok := state.Apply(st.kind);
        reply, alive := Write(e, Ack(state.autocommit, state.inTransaction));
      case UseDatabase =>
        var fields := Text.Fields(st.sql);
        if |fields| != 2 {
          reply, alive := Write(e, Refused);
        } else {
          reply, alive := InitDatabase(Text.TrimAll(fields[1], '`'), e);
        }
      case WarningCount =>
        reply, alive := Write(e, WarningRow(state.warnings));
      case Savepoint =>
        var ok := state.Apply(st.kind);
        if !ok || tx.None? {
          reply, alive := Write(e, Refused);
        } else {
          reply, alive := RunStatement(st.sql, false, e);
        }
      case DDL =>
        if tx.Some? {
          reply, alive := Write(e, Refused);
        } else {
          reply, alive := RunStatement(st.sql, false, e);
        }
      case Write | Read =>
        var ok := EnsureImplicitTransaction(e);
        if !ok {
          reply, alive := Write(e, UpstreamError);
        } else {
          reply, alive := RunStatement(st.sql, st.kind.Read?, e);
        }
    }

    // ---------------------------------------------------------------- prepared statements

    method PrepareOnCurrentConnection(e: Env) returns (stmt: Stmt)
      requires pinnedConnection.Some?
      modifies this`log, this`stmts
      ensures stmt == CurrentStmt(old(View()).s)
      ensures var x := Emit(old(View()), PrepareStmt(stmt, e.prepare));
              View() == if e.prepare then x.(s := x.s.(stmts := x.s.stmts + 1)) else x
    {
      hide Replay, Commits;
      stmt := if tx.Some? then Stmt(stmts, tx.value.conn, Some(tx.value.id)) else Stmt(stmts, pinnedConnection.value, None);
      Make(PrepareStmt(stmt, e.prepare));
      if e.prepare {
        stmts := stmts + 1;
      }
    }

    method RegisterHandle(stmt: Stmt, query: Statement, e: Env) returns (reply: Reply, alive: bool)
      modifies this`nextPreparedId, this`prepared, this`log, state
      ensures Outcome(View(), reply, alive) == Register(old(View()), stmt, query, e)
    {
      hide Replay, Commits;
      nextPreparedId := if nextPreparedId == 0xffff_ffff then 1 else nextPreparedId + 1;
      var id := nextPreparedId;
      prepared := prepared[id := Handle(Some(stmt), tx.Some?, query)];
      var added := state.AddPrepared(id);
      if !added {
        Make(CloseStmts({stmt}));
        prepared := prepared - {id};
        reply, alive := Write(e, UpstreamError);
        return;
      }
      reply, alive := Write(e, PreparedOk(id));
    }

    method PrepareStatement(st: Statement, e: Env) returns (reply: Reply, alive: bool)
      modifies this, state, service
      ensures Outcome(View(), reply, alive) == PrepareCommand(old(View()), st, e)
    {
      hide Replay, Commits, EnsurePinned, ReleasePinned, CurrentStmt, Register;
      if (!st.kind.Read? && !st.kind.Write? && !st.kind.DDL?) || (st.kind.DDL? && tx.Some?) {
        reply, alive := Write(e, Refused);
        return;
      }
      var pinning := EnsurePinnedConnection(e);
      if pinning.Denied? {
        reply, alive := Write(e, UpstreamError);
        return;
      }
      var stmt := PrepareOnCurrentConnection(e);
      if !e.prepare {
        if |state.prepared| == 0 && tx.None? {
          ReleasePinnedConnection(true);
        }
        reply, alive := Write(e, UpstreamError);
        return;
      }
      reply, alive := RegisterHandle(stmt, st, e);
    }

    method ReadyStatement(id: uint32, e: Env) returns (ok: bool)
      requires id in prepared && pinnedConnection.Some?
      modifies this`log, this`stmts, this`prepared
      ensures (View(), ok) == StatementForExecution(old(View()), id, e)
    {
      hide Replay, Commits, CurrentStmt;
      var h := prepared[id];
      if h.statement.None? || (h.transactionBound && tx.None?) {
        if h.statement.Some? {
          Make(CloseStmts({h.statement.value}));
        }
        var stmt := PrepareOnCurrentConnection(e);
        if !e.prepare {
          return false;
        }
        prepared := prepared[id := Handle(Some(stmt), tx.Some?, h.query)];
      }
      return true;
    }

    method ExecutePrepared(id: uint32, arguments: Option<seq<BinaryValues.Value>>, e: Env) returns (reply: Reply, alive: bool)
      requires prepared != map[] ==> pinnedConnection.Some?
      modifies this, state, service
      ensures Outcome(View(), reply, alive) == ExecuteCommand(old(View()), id, arguments, e)
    {
      hide Replay, Commits, BeginTransaction, Report, StatementForExecution;
      if id !in prepared || arguments.None? {
        reply, alive := Write(e, Refused);
        return;
      }
      var ok := EnsureImplicitTransaction(e);
      if !ok {
        reply, alive := Write(e, UpstreamError);
        return;
      }
      KeptByImplicit(old(View()), e);
      ok := ReadyStatement(id, e);
      if !ok {
        reply, alive := Write(e, UpstreamError);
        return;
      }
      var h := prepared[id];
      Make(RunPrepared(h.statement.value, if tx.Some? && !h.transactionBound then tx else None, h.query, arguments.value));
      reply, alive := ReportResult(ReturnsRows(prepared[id].query), e);
    }

    /** An implicit BEGIN that succeeds leaves the handles alone and the session pinned. */
    static lemma KeptByImplicit(w: World, e: Env)
      ensures var (x, ok) := EnsureImplicit(w, e);
              ok ==> x.s.prepared == w.s.prepared && (w.s.pinned.Some? ==> x.s.pinned.Some?)
    {
      hide Replay, Commits;
    }

    method ClosePrepared(id: uint32)
      modifies this, state, service
      ensures Outcome(View(), Silent, true) == CloseCommand(old(View()), id)
    {
      hide Replay, Commits, ReleasePinned;
      if id !in prepared {
        return;
      }
      if prepared[id].statement.Some? {
        Make(CloseStmts({prepared[id].statement.value}));
      }
      prepared := prepared - {id};
      var existed := state.RemovePrepared(id);
      if |prepared| == 0 && tx.None? {
        ReleasePinnedConnection(false);
      }
    }

    /** The table side of `closeAllPrepared`: every handle leaves both tables. */
    method DropHandles()
      modifies this`prepared, state`prepared
      ensures prepared == map[] && state.prepared == old(state.prepared) - old(prepared).Keys
    {
      ghost var live := state.prepared;
      var all := prepared.Keys;
      var ids := all;
      while ids != {}
        invariant ids <= all && prepared.Keys <= ids
        invariant state.prepared == live - (all - ids)
        decreases |ids|
      {
        var id :| id in ids;
        OneFewer(live, all, ids, id);
        ids := ids - {id};
        prepared := prepared - {id};
        var existed := state.RemovePrepared(id);
      }
      assert all - ids == all;
    }

    static lemma OneFewer(live: set<uint32>, all: set<uint32>, ids: set<uint32>, id: uint32)
      requires ids <= all && id in ids
      ensures live - (all - ids) - {id} == live - (all - (ids - {id}))
    {
    }

    method CloseAllPrepared()
      modifies this`prepared, this`log, state
      ensures View() == ForgetAll(Emit(old(View()), CloseStmts(StatementsOf(old(prepared), false))))
    {
      hide Replay, Commits, StatementsOf;
      Make(CloseStmts(StatementsOf(prepared, false)));
      DropHandles();
    }

    method CloseSession(e: Env)
      modifies this, state, service
      ensures View() == Close(old(View()), e)
    {
      hide Replay, Commits, ReleasePinned, StatementsOf;
      if tx.Some? {
        Make(RollbackTx(tx.value, e.rollback));
        tx := None;
      }
      CloseAllPrepared();
      ReleasePinnedConnection(true);
      state.Disconnect();
    }

    /** One command of the client, as `handleClient` dispatches it. */
    method HandleCommand(command: Command, e: Env) returns (reply: Reply, alive: bool)
      requires prepared != map[] ==> pinnedConnection.Some?
      modifies this, state, service
      ensures Outcome(View(), reply, alive) == Dispatch(old(View()), command, e)
    {
      hide Replay, Commits, QueryCommand, PrepareCommand, ExecuteCommand, CloseCommand, SelectDb;
      match command
      case Ping => reply, alive := Write(e, Ack(state.autocommit, state.inTransaction));
      case InitDb(name) => reply, alive := InitDatabase(name, e);
      case Query(stmt) => reply, alive := Query(stmt, e);
      case Prepare(stmt) => reply, alive := PrepareStatement(stmt, e);
      case Execute(id, arguments) => reply, alive := ExecutePrepared(id, arguments, e);
      case SendLongData(accepted) =>
        if accepted {
          reply, alive := Silent, true;
        } else {
          reply, alive := Write(e, Refused);
        }
      case ResetStmt(id) =>
        reply, alive := Write(e, if id in prepared then Ack(state.autocommit, state.inTransaction) else Refused);
      case CloseStmt(id) =>
        ClosePrepared(id);
        reply, alive := Silent, true;
      case OtherCommand => reply, alive := Write(e, Refused);
      case Quit => reply, alive := Silent, false;
    }

    /**
     * `handleClient` after authentication: commands until one ends the session, then the deferred
     * close. For every script of commands and answers this is the run the theorems speak of.
     */
    method HandleClient(turns: seq<Turn>) returns (alive: bool)
      requires state.View() == Fresh(state.baseline) && state.baseline.charset == "utf8mb4"
      requires View().s == NewSession(state.baseline)
      requires SessionRuns.Prepares(turns) < SessionRuns.PrepareLimit && SessionRuns.ExclusiveRun(View(), turns)
      modifies this, state, service
      ensures (View(), alive) == RunTurns(old(View()), turns)
      ensures if alive then Inv(View().s) else Closed(View().s)
      ensures service.slots == old(service.slots) + Bit(pinnedConnection.Some?)
      ensures service.pinned == old(service.pinned) + Bit(pinnedConnection.Some?)
      ensures service.commitGeneration == old(service.commitGeneration) + Commits(log)
    {
      hide Replay, Commits, Dispatch, Close;
      ghost var start := View();
      alive := true;
      var i := 0;
      assert turns[..0] == [];
      while i < |turns|
        invariant 0 <= i <= |turns|
        invariant (View(), alive) == RunTurns(start, turns[..i])
        invariant SessionRuns.Prepares(turns[..i]) < SessionRuns.PrepareLimit && SessionRuns.ExclusiveRun(start, turns[..i])
      {
        assert turns[..i + 1][..i] == turns[..i];
        PrefixIsRun(start, turns, i + 1);
        if alive {
          SessionRuns.RunKeeps(start.s.state.baseline, start.c, turns[..i]);
          var reply;
          reply, alive := HandleCommand(turns[i].command, turns[i].e);
          if !alive {
            CloseSession(turns[i].e);
          }
        }
        i := i + 1;
      }
      assert turns[..|turns|] == turns;
      SessionRuns.RunKeeps(start.s.state.baseline, start.c, turns);
      SessionRuns.SlotsAndGaugeBalance(start.s.state.baseline, start.c, turns);
    }

    static lemma {:induction false} PrefixIsRun(w: World, turns: seq<Turn>, n: nat)
      requires n <= |turns| && SessionRuns.ExclusiveRun(w, turns)
      ensures SessionRuns.ExclusiveRun(w, turns[..n]) && SessionRuns.Prepares(turns[..n]) <= SessionRuns.Prepares(turns)
      decreases |turns|
    {
      if n == |turns| {
        assert turns[..n] == turns;
      } else {
        PrefixIsRun(w, turns[..|turns| - 1], n);
        assert turns[..|turns| - 1][..n] == turns[..n];
      }
    }
  }
}
