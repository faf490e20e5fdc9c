/**
 * One client session of the pooled gateway (clientSession in internal/gateway/gateway.go and
 * internal/gateway/prepared.go) as transitions on values. The session holds a physical view
 * (transaction, pinned connection, slot, prepared handles) and a logical one (`state`); every
 * upstream call goes into its log. What upstream answers is the environment's choice.
 */
module Session {
  import opened Wrappers
  import opened Statements
  import opened LogicalState
  import opened Upstream
  import Text
  import Classify

  /** The lifetime side of a `preparedStatement`; its parameters are modelled in modules Arguments and LongDataRuns. */
  datatype Handle = Handle(statement: Option<Stmt>, transactionBound: bool, query: Statement)

  datatype Session = Session(
    state: Record,
    tx: Option<Tx>,
    pinned: Option<ConnId>,       // pinnedConnection
    slot: bool,                   // pinnedRelease is set
    prepared: map<uint32, Handle>,
    nextId: uint32,
    begun: nat,                   // transactions begun so far
    stmts: nat,                   // statements prepared so far
    log: seq<Call>)

  /** The service's shared counters that a session moves. */
  datatype Counters = Counters(slots: int, pinned: int, commitGeneration: int)

  datatype World = World(s: Session, c: Counters)

  /**
   * How upstream and the client answer during one command. No command makes two calls of the
   * same kind, so one answer per kind is enough.
   */
  datatype Env = Env(
    admitted: bool,               // acquire returned a slot
    checkout: Option<ConnId>,     // checkout returned this connection
    begin: bool,
    commit: bool,
    rollback: Ending,
    prepare: bool,
    run: bool,                    // the statement and its warning count were read
    warnings: uint16,
    insertId: uint64,
    hook: bool,                   // runBeforeCommitResponse succeeded
    write: bool)                  // the reply reached the client

  datatype Command =
    | Ping
    | InitDb(name: string)
    | Query(stmt: Statement)
    | Prepare(stmt: Statement)
    | Execute(id: uint32, arguments: Option<seq<BinaryValues.Value>>)   // none when the packet does not decode
    | SendLongData(accepted: bool)                 // a well-formed packet for a live handle's parameter
    | ResetStmt(id: uint32)
    | CloseStmt(id: uint32)
    | OtherCommand
    | Quit

  datatype Reply =
    | Ack(autocommit: bool, inTransaction: bool)   // OK with the status flags
    | Ran(autocommit: bool, inTransaction: bool)   // the upstream result with the status flags
    | WarningRow(count: uint16)
    | PreparedOk(id: uint32)
    | Refused
    | UpstreamError
    | Silent

  datatype Outcome = Outcome(w: World, reply: Reply, alive: bool)

  function NewSession(b: Baseline): Session {
    Session(Fresh(b), None, None, false, map[], 0, 0, 0, [])
  }

  // ---------------------------------------------------------------- small steps

  function Emit(w: World, call: Call): (r: World)
    ensures r.s.(log := w.s.log) == w.s && r.c == w.c
    ensures Replay(r.s.log) == Advance(Replay(w.s.log), call)
    ensures Commits(r.s.log) == Commits(w.s.log) + CommitsBy(call)
  {
    ReplaySnoc(w.s.log, call);
    w.(s := w.s.(log := w.s.log + [call]))
  }

  function TakeSlot(w: World): World {
    Emit(w.(c := w.c.(slots := w.c.slots + 1)), Acquire)
  }

  function DropSlot(w: World): World {
    Emit(w.(c := w.c.(slots := w.c.slots - 1)), Release)
  }

  function AckOf(w: World): Reply {
    Ack(w.s.state.autocommit, w.s.state.inTransaction)
  }

  /** A reply that cannot be written ends the session. */
  function Answer(w: World, e: Env, reply: Reply): Outcome {
    if e.write then Outcome(w, reply, true) else Outcome(w, Silent, false)
  }

  function Die(w: World): Outcome {
    Outcome(w, Silent, false)
  }

  // ---------------------------------------------------------------- pinning

  datatype Pinning = Already | Created | Denied

  function EnsurePinned(w: World, e: Env): (r: (World, Pinning))
    ensures !r.1.Denied? ==> r.0.s.pinned.Some?
  {
    if w.s.pinned.Some? then (w, Already)
    else if !e.admitted then (w, Denied)
    else if e.checkout.None? then (DropSlot(TakeSlot(w)), Denied)
    else
      var x := Emit(TakeSlot(w), Checkout(e.checkout.value));
      (World(x.s.(pinned := e.checkout, slot := true), x.c.(pinned := x.c.pinned + 1)), Created)
  }

  function ReleasePinned(w: World, discard: bool): World {
    var x :=
      if w.s.pinned.Some? then
        var y := Emit(w, CloseConn(w.s.pinned.value, discard));
        World(y.s.(pinned := None), y.c.(pinned := y.c.pinned - 1))
      else w;
    if x.s.slot then
      var y := DropSlot(x);
      y.(s := y.s.(slot := false))
    else x
  }

  // ---------------------------------------------------------------- transactions

  function BeginTransaction(w: World, e: Env): (World, bool) {
    var (x, p) := EnsurePinned(w, e);
    if p.Denied? then (x, false) else
    var tx := Tx(x.s.begun, x.s.pinned.value);
    var y := Emit(x, BeginTx(tx, e.begin));
    if !e.begin then (if p.Created? then ReleasePinned(y, false) else y, false) else
    var (state, ok) := Applied(y.s.state, Begin);
    var z := y.(s := y.s.(begun := y.s.begun + 1, state := state));
    if ok then (z.(s := z.s.(tx := Some(tx))), true) else
    var u := Emit(z, RollbackTx(tx, e.rollback));
    (if p.Created? then ReleasePinned(u, false) else u, false)
  }

  function EnsureImplicit(w: World, e: Env): (World, bool) {
    if !w.s.state.autocommit && w.s.tx.None? then BeginTransaction(w, e) else (w, true)
  }

  function Invalidated(prepared: map<uint32, Handle>): map<uint32, Handle> {
    map id | id in prepared :: if prepared[id].transactionBound then Handle(None, false, prepared[id].query) else prepared[id]
  }

  function StatementsOf(prepared: map<uint32, Handle>, boundOnly: bool): set<Stmt> {
    set id | id in prepared && prepared[id].statement.Some? && (boundOnly ==> prepared[id].transactionBound)
      :: prepared[id].statement.value
  }

  function FinishTransaction(w: World): World {
    var x := Emit(w.(s := w.s.(tx := None)), CloseStmts(StatementsOf(w.s.prepared, true)));
    var y := x.(s := x.s.(prepared := Invalidated(x.s.prepared)));
    if y.s.state.prepared == {} then ReleasePinned(y, false) else y
  }

  function Poison(w: World): World {
    w.(s := w.s.(state := w.s.state.(poisoned := true)))
  }

  function Bump(w: World): World {
    w.(c := w.c.(commitGeneration := w.c.commitGeneration + 1))
  }

  function ApplyKind(w: World, kind: Kind): World {
    w.(s := w.s.(state := Applied(w.s.state, kind).0))
  }

  function CommitCommand(w: World, e: Env): Outcome {
    if w.s.tx.None? then Answer(w, e, AckOf(w)) else
    var x := Emit(w, CommitTx(w.s.tx.value, e.commit));
    if !e.commit then Die(Poison(FinishTransaction(x))) else
    var y := FinishTransaction(Bump(ApplyKind(x, Commit)));
    if !e.hook then Die(y) else Answer(y, e, AckOf(y))
  }

  function RollbackCommand(w: World, e: Env): Outcome {
    if w.s.tx.None? then Answer(w, e, AckOf(w)) else
    var x := Emit(w, RollbackTx(w.s.tx.value, e.rollback));
    if e.rollback.Broken? then Answer(Poison(FinishTransaction(x)), e, UpstreamError) else
    var y := FinishTransaction(ApplyKind(x, Rollback));
    Answer(y, e, AckOf(y))
  }

  function AutocommitOnCommand(w: World, e: Env): Outcome {
    if w.s.tx.None? then
      var y := ApplyKind(w, AutocommitOn);
      Answer(y, e, AckOf(y))
    else
      var x := Emit(w, CommitTx(w.s.tx.value, e.commit));
      if !e.commit then Die(Poison(FinishTransaction(x))) else
      var y := FinishTransaction(Bump(x));
      if !e.hook then Die(y) else
      var z := ApplyKind(y, AutocommitOn);
      Answer(z, e, AckOf(z))
  }

  // ---------------------------------------------------------------- text statements

  /** What the server said; a statement that returns rows has no insert id. */
  function Report(w: World, rows: bool, e: Env): Outcome {
    if !e.run then Answer(w, e, UpstreamError) else
    var x := w.(s := w.s.(state := w.s.state.(warnings := e.warnings, lastInsertId := if rows then 0 else e.insertId)));
    Answer(x, e, Ran(x.s.state.autocommit, x.s.state.inTransaction))
  }

  /** A statement on a connection taken for it alone. `rows` gives the slot back before the connection. */
  function Borrow(w: World, conn: ConnId, sql: string, read: bool): World {
    var x := Emit(Emit(TakeSlot(w), Checkout(conn)), Run(conn, None, sql));
    if read then Emit(DropSlot(x), CloseConn(conn, false)) else DropSlot(Emit(x, CloseConn(conn, false)))
  }

  /** `exec` and `rows`: inside a transaction the statement runs through it, otherwise on a borrowed connection. */
  function RunText(w: World, sql: string, read: bool, e: Env): Outcome {
    if w.s.tx.Some? then
      Report(Emit(w, Run(w.s.tx.value.conn, w.s.tx, sql)), read, e)
    else if !e.admitted then Answer(w, e, UpstreamError)
    else if e.checkout.None? then Answer(DropSlot(TakeSlot(w)), e, UpstreamError)
    else Report(Borrow(w, e.checkout.value, sql, read), read, e)
  }

  function SelectDb(w: World, name: string, e: Env): Outcome {
    if name == "" || name != w.s.state.baseline.database then Answer(w, e, Refused) else
    var x := w.(s := w.s.(state := w.s.state.(settings := w.s.state.settings.(database := name))));
    Answer(x, e, AckOf(x))
  }

  function QueryCommand(w: World, st: Statement, e: Env): Outcome {
    match st.kind
    case Empty | Unsupported | Unrecognized => Answer(w, e, Refused)
    case Begin =>
      if w.s.tx.Some? then Answer(w, e, Refused) else
      var (x, ok) := BeginTransaction(w, e);
      Answer(x, e, if ok then AckOf(x) else UpstreamError)
    case Commit => CommitCommand(w, e)
    case Rollback => RollbackCommand(w, e)
    case AutocommitOn => AutocommitOnCommand(w, e)
    case AutocommitOff | SetNames =>
      var x := ApplyKind(w, st.kind);
      Answer(x, e, AckOf(x))
    case UseDatabase =>
      var fields := Text.Fields(st.sql);
      if |fields| != 2 then Answer(w, e, Refused) else SelectDb(w, Text.TrimAll(fields[1], '`'), e)
    case WarningCount => Answer(w, e, WarningRow(w.s.state.warnings))
    case Savepoint =>
      var x := ApplyKind(w, Savepoint);
      if !w.s.state.inTransaction || w.s.tx.None? then Answer(x, e, Refused) else RunText(x, st.sql, false, e)
    case DDL => if w.s.tx.Some? then Answer(w, e, Refused) else RunText(w, st.sql, false, e)
    case Write | Read =>
      var (x, ok) := EnsureImplicit(w, e);
      if !ok then Answer(x, e, UpstreamError) else RunText(x, st.sql, st.kind.Read?, e)
  }

  // ---------------------------------------------------------------- prepared statements

  /** Handle ids are 32-bit, skip zero and wrap. */
  function NextId(id: uint32): uint32 {
    if id == 0xffff_ffff then 1 else id + 1
  }

  /** The statement `prepareOnCurrentConnection` asks for: through the transaction when there is one. */
  function CurrentStmt(s: Session): Stmt
    requires s.pinned.Some?
  {
    if s.tx.Some? then Stmt(s.stmts, s.tx.value.conn, Some(s.tx.value.id)) else Stmt(s.stmts, s.pinned.value, None)
  }

  /** The table entry is written before `AddPrepared` is asked, and deleted again if it refuses. */
  function Register(w: World, stmt: Stmt, query: Statement, e: Env): Outcome {
    var id := NextId(w.s.nextId);
    var z := w.(s := w.s.(nextId := id, prepared := w.s.prepared[id := Handle(Some(stmt), w.s.tx.Some?, query)]));
    if id in z.s.state.prepared then
      var u := Emit(z, CloseStmts({stmt}));
      Answer(u.(s := u.s.(prepared := u.s.prepared - {id})), e, UpstreamError)
    else
      Answer(z.(s := z.s.(state := z.s.state.(prepared := z.s.state.prepared + {id}))), e, PreparedOk(id))
  }

  function PrepareCommand(w: World, st: Statement, e: Env): Outcome {
    if !(st.kind.Read? || st.kind.Write? || st.kind.DDL?) || (st.kind.DDL? && w.s.tx.Some?) then Answer(w, e, Refused) else
    var (x, p) := EnsurePinned(w, e);
    if p.Denied? then Answer(x, e, UpstreamError) else
    var stmt := CurrentStmt(x.s);
    var y := Emit(x, PrepareStmt(stmt, e.prepare));
    if !e.prepare then
      Answer(if y.s.state.prepared == {} && y.s.tx.None? then ReleasePinned(y, true) else y, e, UpstreamError)
    else Register(y.(s := y.s.(stmts := y.s.stmts + 1)), stmt, st, e)
  }

  function StatementForExecution(w: World, id: uint32, e: Env): (r: (World, bool))
    requires id in w.s.prepared && w.s.pinned.Some?
    ensures r.1 ==> id in r.0.s.prepared && r.0.s.prepared[id].statement.Some?
  {
    var h := w.s.prepared[id];
    if h.statement.None? || (h.transactionBound && w.s.tx.None?) then
      var x := if h.statement.Some? then Emit(w, CloseStmts({h.statement.value})) else w;
      var stmt := CurrentStmt(x.s);
      var y := Emit(x, PrepareStmt(stmt, e.prepare));
      if !e.prepare then (y, false)
      else (y.(s := y.s.(stmts := y.s.stmts + 1, prepared := y.s.prepared[id := Handle(Some(stmt), y.s.tx.Some?, h.query)])), true)
    else (w, true)
  }

  /** The call that runs the handle's statement: an unbound one is lent to the open transaction. */
  function ExecutionOf(s: Session, id: uint32, arguments: seq<BinaryValues.Value>): Call
    requires id in s.prepared && s.prepared[id].statement.Some?
  {
    var h := s.prepared[id];
    RunPrepared(h.statement.value, if s.tx.Some? && !h.transactionBound then s.tx else None, h.query, arguments)
  }

  /** `executePrepared` classifies the stored text once more to choose between rows and a result. */
  predicate ReturnsRows(query: Statement) {
    Classify.ClassifySQL(query.sql).kind.Read?
  }

  function ExecuteCommand(w: World, id: uint32, arguments: Option<seq<BinaryValues.Value>>, e: Env): Outcome {
    if id !in w.s.prepared || arguments.None? then Answer(w, e, Refused) else
    var (x, ok) := EnsureImplicit(w, e);
    if !ok then Answer(x, e, UpstreamError)
    else if id !in x.s.prepared || x.s.pinned.None? then Die(x)   // would dereference nil; shown unreachable
    else
    var (y, ready) := StatementForExecution(x, id, e);
    if !ready then Answer(y, e, UpstreamError) else
    Report(Emit(y, ExecutionOf(y.s, id, arguments.value)), ReturnsRows(y.s.prepared[id].query), e)
  }

  /** The handle's statement is closed and the handle dropped from both views. */
  function Forget(w: World, id: uint32): World
    requires id in w.s.prepared
  {
    var h := w.s.prepared[id];
    var x := if h.statement.Some? then Emit(w, CloseStmts({h.statement.value})) else w;
    x.(s := x.s.(prepared := x.s.prepared - {id}, state := x.s.state.(prepared := x.s.state.prepared - {id})))
  }

  function CloseCommand(w: World, id: uint32): Outcome {
    if id !in w.s.prepared then Outcome(w, Silent, true) else
    var y := Forget(w, id);
    Outcome(if y.s.prepared == map[] && y.s.tx.None? then ReleasePinned(y, false) else y, Silent, true)
  }

  // ---------------------------------------------------------------- commands and runs

  function Dispatch(w: World, command: Command, e: Env): Outcome {
    match command
    case Ping => Answer(w, e, AckOf(w))
    case InitDb(name) => SelectDb(w, name, e)
    case Query(stmt) => QueryCommand(w, stmt, e)
    case Prepare(stmt) => PrepareCommand(w, stmt, e)
    case Execute(id, arguments) => ExecuteCommand(w, id, arguments, e)
    case SendLongData(accepted) => if accepted then Outcome(w, Silent, true) else Answer(w, e, Refused)
    case ResetStmt(id) => Answer(w, e, if id in w.s.prepared then AckOf(w) else Refused)
    case CloseStmt(id) => CloseCommand(w, id)
    case OtherCommand => Answer(w, e, Refused)
    case Quit => Die(w)
  }

  /** Every handle is dropped from both views. */
  function ForgetAll(w: World): World {
    w.(s := w.s.(prepared := map[], state := w.s.state.(prepared := w.s.state.prepared - w.s.prepared.Keys)))
  }

  /** `close`: the deferred end of every session. */
  function Close(w: World, e: Env): World {
    var x := if w.s.tx.Some?
             then var y := Emit(w, RollbackTx(w.s.tx.value, e.rollback)); y.(s := y.s.(tx := None))
             else w;
    var y := Emit(x, CloseStmts(StatementsOf(x.s.prepared, false)));
    var z := ReleasePinned(ForgetAll(y), true);
    z.(s := z.s.(state := Fresh(z.s.state.baseline)))
  }

  /** One turn of a session: a command and how the outside answered. */
  datatype Turn = Turn(command: Command, e: Env)

  /** The session after some turns, and whether it is still open; a session that ends is closed at once. */
  function RunTurns(w: World, turns: seq<Turn>): (World, bool) {
    if turns == [] then (w, true) else
    var (x, alive) := RunTurns(w, turns[..|turns| - 1]);
    if !alive then (x, false) else
    var t := turns[|turns| - 1];
    var o := Dispatch(x, t.command, t.e);
    if o.alive then (o.w, true) else (Close(o.w, t.e), false)
  }
}
