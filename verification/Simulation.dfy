/**
 * The pooled gateway against the reference where every client owns a private connection:
 * same replies to accepted text and prepared statements, same committed store, for any database
 * engine and any statement-level interleaving in which upstream does not fail.
 */
module Simulation {
  import opened Wrappers
  import opened Statements
  import opened LogicalState
  import opened Upstream
  import opened Session
  import opened SessionInvariant
  import SessionRuns

  type Client = nat

  /** What an engine is asked to run: a text, or a prepared text with its arguments. */
  datatype Work = Text(sql: string) | Bound(sql: string, arguments: seq<BinaryValues.Value>)

  /** A database engine, as opaque as possible: S is all shared state, T one transaction, R a statement's result. */
  datatype Engine<!S, !T, !R> = Engine(
    begin: S -> (S, T),
    exec: (S, T, Work) -> (S, T, R),
    commit: (S, T) -> S,
    rollback: (S, T) -> S,
    auto: (S, Work) -> (S, R))

  // ---------------------------------------------------------------- the server behind the pool

  /** Upstream connections with an open transaction, and the latest statement result. */
  datatype Server<!S, !T, !R> = Server(store: S, open: map<ConnId, T>, result: Option<R>)

  function RunOn<S, T, R>(en: Engine<S, T, R>, v: Server<S, T, R>, conn: ConnId, work: Work): Server<S, T, R> {
    if conn in v.open then
      var (s, t, r) := en.exec(v.store, v.open[conn], work);
      Server(s, v.open[conn := t], Some(r))
    else
      var (s, r) := en.auto(v.store, work);
      Server(s, v.open, Some(r))
  }

  function RollbackOn<S, T, R>(en: Engine<S, T, R>, v: Server<S, T, R>, conn: ConnId): Server<S, T, R> {
    if conn in v.open then v.(store := en.rollback(v.store, v.open[conn]), open := v.open - {conn}) else v
  }

  /** What a successful call does on the server. Checkout resets the connection, which rolls back what was left open. */
  function Served<S, T, R>(en: Engine<S, T, R>, v: Server<S, T, R>, c: Call): Server<S, T, R> {
    match c
    case Checkout(conn) => RollbackOn(en, v, conn)
    case CloseConn(conn, discard) => if discard then RollbackOn(en, v, conn) else v
    case BeginTx(tx, ok) =>
      if !ok then v else
      var (s, t) := en.begin(v.store);
      v.(store := s, open := v.open[tx.conn := t])
    case CommitTx(tx, ok) =>
      if !ok || tx.conn !in v.open then v
      else v.(store := en.commit(v.store, v.open[tx.conn]), open := v.open - {tx.conn})
    case RollbackTx(tx, ending) => if ending.Broken? then v else RollbackOn(en, v, tx.conn)
    case Run(conn, _, sql) => RunOn(en, v, conn, Text(sql))
    case RunPrepared(stmt, _, query, arguments) => RunOn(en, v, stmt.conn, Bound(query.sql, arguments))
    case Acquire | Release | PrepareStmt(_, _) | CloseStmts(_) => v
  }

  /** The server after the calls of `log` from position `n` on. */
  function ServedFrom<S, T, R>(en: Engine<S, T, R>, v: Server<S, T, R>, log: seq<Call>, n: nat): Server<S, T, R> {
    if |log| <= n then v else Served(en, ServedFrom(en, v, log[..|log| - 1], n), log[|log| - 1])
  }

  lemma EmitServed<S, T, R>(en: Engine<S, T, R>, v: Server<S, T, R>, n: nat, w: World, c: Call)
    requires n <= |w.s.log|
    ensures ServedFrom(en, v, Emit(w, c).s.log, n) == Served(en, ServedFrom(en, v, w.s.log, n), c)
    ensures |Emit(w, c).s.log| >= n
  {
    hide Replay, Commits;
    assert (w.s.log + [c])[..|w.s.log|] == w.s.log;
  }

  // ---------------------------------------------------------------- pooled and reference steps

  datatype Pool<!S, !T, !R> = Pool(c: Counters, sessions: map<Client, Session>, server: Server<S, T, R>)

  /** A private connection: its mode, its open transaction and its prepared statements. */
  datatype Private<!T> = Private(autocommit: bool, tx: Option<T>, handles: map<uint32, Statement>, nextId: uint32)

  datatype Reference<!S, !T> = Reference(store: S, conns: map<Client, Private<T>>)

  datatype Step =
    | Join(client: Client)
    | Say(client: Client, command: Command, e: Env)
    | Leave(client: Client, e: Env)

  datatype Answer<+R> =
    | Reply(result: Option<R>, autocommit: bool, inTransaction: bool)
    | NewHandle(id: uint32)
    | NotAccepted
    | NoAnswer

  function AnswerOf<R>(reply: Reply, result: Option<R>): Answer<R> {
    match reply
    case Ack(a, i) => Answer.Reply(None, a, i)
    case Ran(a, i) => Answer.Reply(result, a, i)
    case PreparedOk(id) => NewHandle(id)
    case Silent => NoAnswer
    case _ => NotAccepted
  }

  function PoolStep<S, T, R>(en: Engine<S, T, R>, b: Baseline, p: Pool<S, T, R>, st: Step): (Pool<S, T, R>, Answer<R>) {
    match st
    case Join(k) => (p.(sessions := p.sessions[k := NewSession(b)]), NoAnswer)
    case Say(k, command, e) =>
      if k !in p.sessions then (p, NoAnswer) else
      var s := p.sessions[k];
      var o := Dispatch(World(s, p.c), command, e);
      var server := ServedFrom(en, p.server, o.w.s.log, |s.log|);
      (Pool(o.w.c, p.sessions[k := o.w.s], server), AnswerOf(o.reply, server.result))
    case Leave(k, e) =>
      if k !in p.sessions then (p, NoAnswer) else
      var s := p.sessions[k];
      var x := Close(World(s, p.c), e);
      (Pool(x.c, p.sessions - {k}, ServedFrom(en, p.server, x.s.log, |s.log|)), NoAnswer)
  }

  /** Work on a private connection: in its transaction, on its own, or in a transaction it begins. */
  function PrivateRun<S, T, R>(en: Engine<S, T, R>, store: S, q: Private<T>, work: Work): (S, Private<T>, Option<R>) {
    if q.tx.Some? then
      var (s, t, r) := en.exec(store, q.tx.value, work);
      (s, q.(tx := Some(t)), Some(r))
    else if q.autocommit then
      var (s, r) := en.auto(store, work);
      (s, q, Some(r))
    else
      var (s, t) := en.begin(store);
      var (s', t', r) := en.exec(s, t, work);
      (s', q.(tx := Some(t')), Some(r))
  }

  /** One statement on a private connection: a server that knows nothing of pooling. */
  function PrivateQuery<S, T, R>(en: Engine<S, T, R>, store: S, q: Private<T>, stmt: Statement): (S, Private<T>, Option<R>) {
    // a transaction-ending statement first commits what is open
    var committed := if q.tx.Some? then en.commit(store, q.tx.value) else store;
    match stmt.kind
    case Begin =>
      var (s, t) := en.begin(committed);
      (s, q.(tx := Some(t)), None)
    case Commit => (committed, q.(tx := None), None)
    case Rollback => (if q.tx.Some? then en.rollback(store, q.tx.value) else store, q.(tx := None), None)
    case AutocommitOn => (committed, q.(autocommit := true, tx := None), None)
    case AutocommitOff => (store, q.(autocommit := false), None)
    case DDL =>
      var (s, r) := en.auto(committed, Text(stmt.sql));
      (s, q.(tx := None), Some(r))
    case Read | Write | Savepoint => PrivateRun(en, store, q, Text(stmt.sql))
    case _ => (store, q, None)
  }

  function PrivateStep<S, T, R>(en: Engine<S, T, R>, store: S, q: Private<T>, command: Command): (S, Private<T>, Option<R>) {
    match command
    case Query(stmt) => PrivateQuery(en, store, q, stmt)
    case Prepare(stmt) => (store, q.(nextId := NextId(q.nextId), handles := q.handles[NextId(q.nextId) := stmt]), None)
    case Execute(id, arguments) =>
      if id in q.handles && arguments.Some?
      then PrivateRun(en, store, q, Bound(q.handles[id].sql, arguments.value)) else (store, q, None)
    case CloseStmt(id) => (store, q.(handles := q.handles - {id}), None)
    case _ => (store, q, None)
  }

  function PrivateAnswer<T, R>(command: Command, q: Private<T>, result: Option<R>): Answer<R> {
    match command
    case Prepare(_) => NewHandle(q.nextId)
    case CloseStmt(_) => NoAnswer
    case _ => Answer.Reply(result, q.autocommit, q.tx.Some?)
  }

  function ReferenceStep<S, T, R>(en: Engine<S, T, R>, r: Reference<S, T>, st: Step): (Reference<S, T>, Answer<R>) {
    match st
    case Join(k) => (r.(conns := r.conns[k := Private(true, None, map[], 0)]), NoAnswer)
    case Say(k, command, _) =>
      if k !in r.conns then (r, NoAnswer) else
      var (store, q, result) := PrivateStep(en, r.store, r.conns[k], command);
      (Reference(store, r.conns[k := q]), PrivateAnswer(command, q, result))
    case Leave(k, _) =>
      if k !in r.conns then (r, NoAnswer) else
      var q := r.conns[k];
      (Reference(if q.tx.Some? then en.rollback(r.store, q.tx.value) else r.store, r.conns - {k}), NoAnswer)
  }

  // ---------------------------------------------------------------- the relation

  /** One session against its private connection. */
  ghost predicate Matches<S, T, R>(s: Session, q: Private<T>, v: Server<S, T, R>) {
    && Inv(s) && !s.state.poisoned
    && q.autocommit == s.state.autocommit
    && (q.tx.Some? <==> s.tx.Some?)
    && (s.tx.Some? ==> s.tx.value.conn in v.open && q.tx == Some(v.open[s.tx.value.conn]))
    && (s.tx.None? && s.pinned.Some? ==> s.pinned.value !in v.open)
    && q.nextId == s.nextId && q.handles == Queries(s.prepared)
  }

  /** The texts behind the handles, which is all a client knows of them. */
  function Queries(prepared: map<uint32, Handle>): map<uint32, Statement> {
    map id | id in prepared :: prepared[id].query
  }

  lemma QueriesStay(prepared: map<uint32, Handle>)
    ensures Queries(Invalidated(prepared)) == Queries(prepared)
  {
  }

  lemma QueriesAt(prepared: map<uint32, Handle>, id: uint32)
    ensures id in Queries(prepared) <==> id in prepared
    ensures id in prepared ==> Queries(prepared)[id] == prepared[id].query
  {
  }

  lemma QueriesMove(prepared: map<uint32, Handle>, id: uint32, h: Handle)
    ensures Queries(prepared[id := h]) == Queries(prepared)[id := h.query]
    ensures Queries(prepared - {id}) == Queries(prepared) - {id}
  {
  }

  ghost predicate AllMatch<S, T, R>(sessions: map<Client, Session>, conns: map<Client, Private<T>>, v: Server<S, T, R>) {
    && sessions.Keys == conns.Keys
    && forall k | k in sessions :: Matches(sessions[k], conns[k], v)
  }

  ghost predicate PinsDistinct(sessions: map<Client, Session>) {
    forall j, k | j in sessions && k in sessions && j != k && sessions[j].pinned.Some? :: sessions[j].pinned != sessions[k].pinned
  }

  /** Every open transaction on the server sits on a connection some session pins. */
  ghost predicate Owned<T>(sessions: map<Client, Session>, open: map<ConnId, T>) {
    forall conn | conn in open :: exists k :: k in sessions && sessions[k].pinned == Some(conn)
  }

  ghost predicate Related<S, T, R>(p: Pool<S, T, R>, r: Reference<S, T>) {
    && r.store == p.server.store
    && AllMatch(p.sessions, r.conns, p.server)
    && PinsDistinct(p.sessions)
    && Owned(p.sessions, p.server.open)
  }

  predicate Covered(command: Command) {
    match command
    case Query(stmt) => stmt.kind in {Begin, Commit, Rollback, Savepoint, AutocommitOn, AutocommitOff, Read, Write, DDL}
    case Prepare(_) | Execute(_, _) | CloseStmt(_) => true
    case _ => false
  }

  predicate Smooth(e: Env) {
    && e.begin && e.commit && e.rollback.Done? && e.run && e.hook && e.write && e.prepare
    && (e.admitted ==> e.checkout.Some?)
  }

  /** The next handle id is free, and no definition is executed inside a transaction, where a server would end it. */
  predicate Regular(s: Session, command: Command) {
    && (command.Prepare? ==> IdFree(s))
    && (command.Execute? && command.id in s.prepared && s.prepared[command.id].query.kind.DDL? ==> s.tx.None? && s.state.autocommit)
  }

  /** No upstream failure; an admitted command gets a connection nobody holds; a client joins once. */
  ghost predicate Undisturbed<S, T, R>(p: Pool<S, T, R>, st: Step) {
    match st
    case Join(k) => k !in p.sessions
    case Say(k, command, e) =>
      && Covered(command) && Smooth(e) && (k in p.sessions ==> Regular(p.sessions[k], command))
      && (e.checkout.Some? ==> forall j | j in p.sessions :: p.sessions[j].pinned != e.checkout)
    case Leave(k, e) => Smooth(e)
  }

  // ---------------------------------------------------------------- what each operation does on the server

  /** A connection is there to be pinned, or is pinned already. */
  predicate Pinnable(s: Session, e: Env) { s.pinned.Some? || e.admitted }

  function PinOf(s: Session, e: Env): ConnId
    requires Pinnable(s, e) && Smooth(e)
  {
    if s.pinned.Some? then s.pinned.value else e.checkout.value
  }

  lemma PinServed<S, T, R>(en: Engine<S, T, R>, v: Server<S, T, R>, n: nat, w: World, e: Env)
    requires n <= |w.s.log| && Smooth(e) && Pinnable(w.s, e) && PinOf(w.s, e) !in ServedFrom(en, v, w.s.log, n).open
    ensures var (x, p) := EnsurePinned(w, e);
            && !p.Denied? && |x.s.log| >= n && x.s.pinned == Some(PinOf(w.s, e))
            && ServedFrom(en, v, x.s.log, n) == ServedFrom(en, v, w.s.log, n)
  {
    hide Replay, Commits, Tracked, ServedFrom;
    if w.s.pinned.None? {
      var a := TakeSlot(w);
      EmitServed(en, v, n, w.(c := w.c.(slots := w.c.slots + 1)), Acquire);
      EmitServed(en, v, n, a, Checkout(e.checkout.value));
    }
  }

  lemma BeginServed<S, T, R>(en: Engine<S, T, R>, v: Server<S, T, R>, n: nat, w: World, e: Env)
    requires n <= |w.s.log| && Inv(w.s) && !w.s.state.inTransaction
    requires Smooth(e) && Pinnable(w.s, e) && PinOf(w.s, e) !in ServedFrom(en, v, w.s.log, n).open
    ensures var (x, ok) := BeginTransaction(w, e);
            var u := ServedFrom(en, v, w.s.log, n);
            var conn := PinOf(w.s, e);
            && ok && |x.s.log| >= n
            && x.s.tx == Some(Tx(w.s.begun, conn)) && x.s.pinned == Some(conn)
            && ServedFrom(en, v, x.s.log, n) == u.(store := en.begin(u.store).0, open := u.open[conn := en.begin(u.store).1])
  {
    hide Replay, Commits, Tracked, ServedFrom, EnsurePinned;
    PinServed(en, v, n, w, e);
    var (x, p) := EnsurePinned(w, e);
    EnsurePinnedFrame(w, e, x, p);
    EmitServed(en, v, n, x, BeginTx(Tx(x.s.begun, x.s.pinned.value), true));
  }

  /** Releasing a connection without an open transaction is invisible to the server. */
  lemma ReleaseServed<S, T, R>(en: Engine<S, T, R>, v: Server<S, T, R>, n: nat, w: World, discard: bool)
    requires n <= |w.s.log| && (w.s.pinned.Some? ==> w.s.pinned.value !in ServedFrom(en, v, w.s.log, n).open)
    ensures var x := ReleasePinned(w, discard);
            ServedFrom(en, v, x.s.log, n) == ServedFrom(en, v, w.s.log, n) && |x.s.log| >= n
  {
    hide Replay, Commits, ServedFrom;
    var x := w;
    if w.s.pinned.Some? {
      EmitServed(en, v, n, w, CloseConn(w.s.pinned.value, discard));
      var y := Emit(w, CloseConn(w.s.pinned.value, discard));
      x := World(y.s.(pinned := None), y.c.(pinned := y.c.pinned - 1));
    }
    EmitServed(en, v, n, x.(c := x.c.(slots := x.c.slots - 1)), Release);
  }

  lemma FinishServed<S, T, R>(en: Engine<S, T, R>, v: Server<S, T, R>, n: nat, w: World)
    requires n <= |w.s.log| && (w.s.pinned.Some? ==> w.s.pinned.value !in ServedFrom(en, v, w.s.log, n).open)
    ensures var x := FinishTransaction(w);
            ServedFrom(en, v, x.s.log, n) == ServedFrom(en, v, w.s.log, n) && |x.s.log| >= n
  {
    hide Replay, Commits, ServedFrom, ReleasePinned;
    var c := CloseStmts(StatementsOf(w.s.prepared, true));
    EmitServed(en, v, n, w.(s := w.s.(tx := None)), c);
    var x := Emit(w.(s := w.s.(tx := None)), c);
    ReleaseServed(en, v, n, x.(s := x.s.(prepared := Invalidated(x.s.prepared))), false);
  }

  lemma BorrowServed<S, T, R>(en: Engine<S, T, R>, v: Server<S, T, R>, n: nat, w: World, conn: ConnId, sql: string, read: bool)
    requires n <= |w.s.log| && conn !in ServedFrom(en, v, w.s.log, n).open
    ensures ServedFrom(en, v, Borrow(w, conn, sql, read).s.log, n) == RunOn(en, ServedFrom(en, v, w.s.log, n), conn, Text(sql))
  {
    hide Replay, Commits, ServedFrom;
    EmitServed(en, v, n, w.(c := w.c.(slots := w.c.slots + 1)), Acquire);
    var a := TakeSlot(w);
    EmitServed(en, v, n, a, Checkout(conn));
    var b := Emit(a, Checkout(conn));
    EmitServed(en, v, n, b, Run(conn, None, sql));
    var x := Emit(b, Run(conn, None, sql));
    if read {
      EmitServed(en, v, n, x.(c := x.c.(slots := x.c.slots - 1)), Release);
      EmitServed(en, v, n, DropSlot(x), CloseConn(conn, false));
    } else {
      EmitServed(en, v, n, x, CloseConn(conn, false));
      var y := Emit(x, CloseConn(conn, false));
      EmitServed(en, v, n, y.(c := y.c.(slots := y.c.slots - 1)), Release);
    }
  }

  // ---------------------------------------------------------------- one statement

  /** Only the speaker's own connections change on the server, and none stays open that it does not pin. */
  ghost predicate Frame<S, T, R>(v: Server<S, T, R>, u: Server<S, T, R>, s: Session, t: Session) {
    && (forall conn | Some(conn) != s.pinned && Some(conn) != t.pinned ::
          (conn in u.open <==> conn in v.open) && (conn in v.open ==> u.open[conn] == v.open[conn]))
    && (forall conn | conn in u.open && Some(conn) == s.pinned :: Some(conn) == t.pinned)
  }

  predicate Accepts(reply: Reply) { reply.Ack? || reply.Ran? || reply.PreparedOk? || reply.Silent? }

  /** The outcome of a command against the private connection: equal if accepted, no effect if not. */
  ghost predicate Simulated<S, T, R>(en: Engine<S, T, R>, v: Server<S, T, R>, w: World, o: Outcome, q: Private<T>, command: Command, e: Env) {
    var u := ServedFrom(en, v, o.w.s.log, |w.s.log|);
    && Frame(v, u, w.s, o.w.s)
    && (o.w.s.pinned == w.s.pinned || o.w.s.pinned == e.checkout || o.w.s.pinned.None?)
    && if Accepts(o.reply) then
         var (store, q', result) := PrivateStep(en, v.store, q, command);
         && u.store == store && Matches(o.w.s, q', u)
         && AnswerOf(o.reply, u.result) == PrivateAnswer(command, q', result)
       else u.store == v.store && Matches(o.w.s, q, u)
  }

  ghost predicate Ready<S, T, R>(v: Server<S, T, R>, w: World, q: Private<T>, e: Env) {
    && Matches(w.s, q, v) && Smooth(e) && Exclusive(w.s, e)
    && (e.checkout.Some? ==> e.checkout.value !in v.open)
  }

  lemma BeginSimulated<S, T, R>(en: Engine<S, T, R>, v: Server<S, T, R>, w: World, q: Private<T>, stmt: Statement, e: Env)
    requires Ready(v, w, q, e) && stmt.kind.Begin?
    ensures Simulated(en, v, w, QueryCommand(w, stmt, e), q, Query(stmt), e)
  {
    hide Replay, Commits, Tracked, BeginTransaction, ServedFrom;
    NothingServed(en, v, w.s.log);
    QueryKeeps(w, stmt, e);
    if w.s.tx.None? {
      var (x, ok) := BeginTransaction(w, e);
      BeginKeeps(w, e, x, ok);
      if Pinnable(w.s, e) {
        BeginServed(en, v, |w.s.log|, w, e);
      } else {
        DeniedBegin(w, e);
      }
    }
  }

  lemma DeniedBegin(w: World, e: Env)
    requires w.s.pinned.None? && !e.admitted
    ensures BeginTransaction(w, e) == (w, false)
  {
  }

  /** COMMIT and SET AUTOCOMMIT=1 commit the open transaction on its connection. */
  lemma CommitSimulated<S, T, R>(en: Engine<S, T, R>, v: Server<S, T, R>, w: World, q: Private<T>, stmt: Statement, e: Env)
    requires Ready(v, w, q, e) && (stmt.kind.Commit? || stmt.kind.AutocommitOn?)
    ensures Simulated(en, v, w, QueryCommand(w, stmt, e), q, Query(stmt), e)
  {
    hide Replay, Commits, Tracked, FinishTransaction, ServedFrom, Invalidated, Queries;
    NothingServed(en, v, w.s.log);
    QueryKeeps(w, stmt, e);
    if w.s.tx.Some? {
      var c := CommitTx(w.s.tx.value, true);
      EmitServed(en, v, |w.s.log|, w, c);
      var x := Emit(w, c);
      var y := if stmt.kind.Commit? then Bump(ApplyKind(x, Commit)) else Bump(x);
      FinishKeeps(w, c, y);
      FinishServed(en, v, |w.s.log|, y);
      QueriesStay(w.s.prepared);
    }
  }

  lemma RollbackSimulated<S, T, R>(en: Engine<S, T, R>, v: Server<S, T, R>, w: World, q: Private<T>, stmt: Statement, e: Env)
    requires Ready(v, w, q, e) && stmt.kind.Rollback?
    ensures Simulated(en, v, w, QueryCommand(w, stmt, e), q, Query(stmt), e)
  {
    hide Replay, Commits, Tracked, FinishTransaction, ServedFrom, Invalidated, Queries;
    NothingServed(en, v, w.s.log);
    QueryKeeps(w, stmt, e);
    if w.s.tx.Some? {
      var c := RollbackTx(w.s.tx.value, e.rollback);
      EmitServed(en, v, |w.s.log|, w, c);
      var y := ApplyKind(Emit(w, c), Rollback);
      FinishKeeps(w, c, y);
      FinishServed(en, v, |w.s.log|, y);
      QueriesStay(w.s.prepared);
    }
  }

  /** A statement inside the open transaction, or on a borrowed connection in autocommit. */
  lemma RunSimulated<S, T, R>(en: Engine<S, T, R>, v: Server<S, T, R>, w: World, q: Private<T>, sql: string, read: bool, e: Env)
    requires Ready(v, w, q, e)
    ensures var o := RunText(w, sql, read, e);
            var u := ServedFrom(en, v, o.w.s.log, |w.s.log|);
            && o.w.s.tx == w.s.tx && o.w.s.pinned == w.s.pinned && o.w.s.prepared == w.s.prepared && o.w.s.nextId == w.s.nextId
            && o.w.s.state == w.s.state.(warnings := o.w.s.state.warnings, lastInsertId := o.w.s.state.lastInsertId)
            && (if w.s.tx.Some? || e.admitted
                then o.reply == Ran(w.s.state.autocommit, w.s.state.inTransaction) && RanOn(en, v, u, w.s.tx, Text(sql))
                else o.reply.UpstreamError? && u == v)
  {
    hide Replay, Commits, Tracked, Borrow, ServedFrom;
    NothingServed(en, v, w.s.log);
    var n := |w.s.log|;
    if w.s.tx.Some? {
      EmitServed(en, v, n, w, Run(w.s.tx.value.conn, w.s.tx, sql));
    } else if e.admitted {
      BorrowServed(en, v, n, w, e.checkout.value, sql, read);
      BorrowKeeps(w, e.checkout.value, sql, read);
    }
  }

  /** `u` is `v` after the work was done in the given transaction, or on its own if there is none. */
  ghost predicate RanOn<S, T, R>(en: Engine<S, T, R>, v: Server<S, T, R>, u: Server<S, T, R>, tx: Option<Tx>, work: Work) {
    if tx.Some? then tx.value.conn in v.open && u == RunOn(en, v, tx.value.conn, work)
    else u.open == v.open && u.store == en.auto(v.store, work).0 && u.result == Some(en.auto(v.store, work).1)
  }

  /** SAVEPOINT and DDL never begin a transaction of their own. */
  lemma DirectSimulated<S, T, R>(en: Engine<S, T, R>, v: Server<S, T, R>, w: World, q: Private<T>, stmt: Statement, e: Env)
    requires Ready(v, w, q, e) && (stmt.kind.Savepoint? || stmt.kind.DDL?)
    ensures Simulated(en, v, w, QueryCommand(w, stmt, e), q, Query(stmt), e)
  {
    hide Replay, Commits, Tracked, RunText, ServedFrom, Queries;
    NothingServed(en, v, w.s.log);
    QueryKeeps(w, stmt, e);
    if stmt.kind.Savepoint? {
      RunSimulated(en, v, ApplyKind(w, Savepoint), q, stmt.sql, false, e);
    } else {
      RunSimulated(en, v, w, q, stmt.sql, false, e);
    }
  }

  lemma NothingServed<S, T, R>(en: Engine<S, T, R>, v: Server<S, T, R>, log: seq<Call>)
    ensures ServedFrom(en, v, log, |log|) == v
  {
  }

  /** The outcome of a statement that begins its own transaction. */
  lemma ImplicitOutcome(w: World, stmt: Statement, e: Env, x: World)
    requires (stmt.kind.Read? || stmt.kind.Write?) && !w.s.state.autocommit && w.s.tx.None?
    requires BeginTransaction(w, e) == (x, true) && x.s.tx.Some?
    ensures QueryCommand(w, stmt, e) == Report(Emit(x, Run(x.s.tx.value.conn, x.s.tx, stmt.sql)), stmt.kind.Read?, e)
  {
    hide Replay, Commits, BeginTransaction, Borrow, Report;
  }

  lemma ImplicitDenied(w: World, stmt: Statement, e: Env)
    requires (stmt.kind.Read? || stmt.kind.Write?) && !w.s.state.autocommit && w.s.tx.None?
    requires w.s.pinned.None? && !e.admitted && e.write
    ensures QueryCommand(w, stmt, e) == Outcome(w, UpstreamError, true)
  {
    hide Replay, Commits, BeginTransaction, RunText;
    DeniedBegin(w, e);
  }

  /** With autocommit off, the first statement begins the transaction it runs in. */
  lemma ImplicitSimulated<S, T, R>(en: Engine<S, T, R>, v: Server<S, T, R>, w: World, q: Private<T>, stmt: Statement, e: Env)
    requires Ready(v, w, q, e) && (stmt.kind.Read? || stmt.kind.Write?) && !w.s.state.autocommit && w.s.tx.None?
    ensures Simulated(en, v, w, QueryCommand(w, stmt, e), q, Query(stmt), e)
  {
    hide Replay, Commits, Tracked, BeginTransaction, QueryCommand, ServedFrom, Queries;
    NothingServed(en, v, w.s.log);
    QueryKeeps(w, stmt, e);
    if Pinnable(w.s, e) {
      var (x, ok) := BeginTransaction(w, e);
      BeginKeeps(w, e, x, ok);
      BeginServed(en, v, |w.s.log|, w, e);
      ImplicitOutcome(w, stmt, e, x);
      EmitServed(en, v, |w.s.log|, x, Run(x.s.tx.value.conn, x.s.tx, stmt.sql));
    } else {
      ImplicitDenied(w, stmt, e);
    }
  }

  lemma QuerySimulated<S, T, R>(en: Engine<S, T, R>, v: Server<S, T, R>, w: World, q: Private<T>, stmt: Statement, e: Env)
    requires Ready(v, w, q, e) && Covered(Query(stmt))
    ensures Simulated(en, v, w, QueryCommand(w, stmt, e), q, Query(stmt), e)
  {
    hide Replay, Commits, Tracked, RunText, CommitCommand, RollbackCommand, AutocommitOnCommand, BeginTransaction, ServedFrom, Queries;
    NothingServed(en, v, w.s.log);
    match stmt.kind
    case Begin => BeginSimulated(en, v, w, q, stmt, e);
    case Commit | AutocommitOn => CommitSimulated(en, v, w, q, stmt, e);
    case Rollback => RollbackSimulated(en, v, w, q, stmt, e);
    case Savepoint | DDL => DirectSimulated(en, v, w, q, stmt, e);
    case Read | Write =>
      if !w.s.state.autocommit && w.s.tx.None? {
        ImplicitSimulated(en, v, w, q, stmt, e);
      } else {
        QueryKeeps(w, stmt, e);
        RunSimulated(en, v, w, q, stmt.sql, stmt.kind.Read?, e);
      }
    case AutocommitOff => QueryKeeps(w, stmt, e);
  }

  // ---------------------------------------------------------------- prepared statements

  /** The outcome of a prepare once the session is pinned. */
  lemma PrepareOutcome(w: World, stmt: Statement, e: Env, x: World, p: Pinning)
    requires (stmt.kind.Read? || stmt.kind.Write? || stmt.kind.DDL?) && !(stmt.kind.DDL? && w.s.tx.Some?)
    requires EnsurePinned(w, e) == (x, p) && !p.Denied? && e.prepare && e.write
    requires IdFree(x.s) && x.s.prepared.Keys == x.s.state.prepared
    ensures var o, id := PrepareCommand(w, stmt, e), NextId(x.s.nextId);
            var current := CurrentStmt(x.s);
            && o.reply == PreparedOk(id) && o.w.s.log == Emit(x, PrepareStmt(current, true)).s.log
            && o.w.s == x.s.(log := o.w.s.log, stmts := x.s.stmts + 1, nextId := id, state := o.w.s.state,
                             prepared := x.s.prepared[id := Handle(Some(current), x.s.tx.Some?, stmt)])
            && o.w.s.state == x.s.state.(prepared := x.s.state.prepared + {id})
  {
    hide Replay, Commits, EnsurePinned, CurrentStmt;
  }

  lemma PrepareSimulated<S, T, R>(en: Engine<S, T, R>, v: Server<S, T, R>, w: World, q: Private<T>, stmt: Statement, e: Env)
    requires Ready(v, w, q, e) && IdFree(w.s)
    ensures Simulated(en, v, w, PrepareCommand(w, stmt, e), q, Prepare(stmt), e)
  {
    hide Replay, Commits, Tracked, ServedFrom, Queries;
    NothingServed(en, v, w.s.log);
    if (stmt.kind.Read? || stmt.kind.Write? || stmt.kind.DDL?) && !(stmt.kind.DDL? && w.s.tx.Some?) && (w.s.tx.Some? || Pinnable(w.s, e)) {
      PreparedSimulated(en, v, w, q, stmt, e);
    } else {
      PrepareDenied(w, stmt, e);
    }
  }

  lemma PrepareDenied(w: World, stmt: Statement, e: Env)
    requires e.write
    requires !((stmt.kind.Read? || stmt.kind.Write? || stmt.kind.DDL?) && !(stmt.kind.DDL? && w.s.tx.Some?) && (w.s.tx.Some? || w.s.pinned.Some? || e.admitted))
    ensures var o := PrepareCommand(w, stmt, e); o.w == w && (o.reply.Refused? || o.reply.UpstreamError?)
  {
    hide Replay, Commits;
  }

  lemma PreparedSimulated<S, T, R>(en: Engine<S, T, R>, v: Server<S, T, R>, w: World, q: Private<T>, stmt: Statement, e: Env)
    requires Ready(v, w, q, e) && IdFree(w.s)
    requires (stmt.kind.Read? || stmt.kind.Write? || stmt.kind.DDL?) && !(stmt.kind.DDL? && w.s.tx.Some?) && (w.s.tx.Some? || Pinnable(w.s, e))
    ensures Simulated(en, v, w, PrepareCommand(w, stmt, e), q, Prepare(stmt), e)
  {
    hide Replay, Commits, Tracked, EnsurePinned, ServedFrom, CurrentStmt, PrepareCommand, Queries;
    PrepareKeeps(w, stmt, e);
    var (x, p) := EnsurePinned(w, e);
    EnsurePinnedFrame(w, e, x, p);
    PinForPrepare(en, v, w, q, e);
    EmitServed(en, v, |w.s.log|, x, PrepareStmt(CurrentStmt(x.s), true));
    PrepareOutcome(w, stmt, e, x, p);
    QueriesMove(w.s.prepared, NextId(w.s.nextId), Handle(Some(CurrentStmt(x.s)), x.s.tx.Some?, stmt));
  }

  /** Pinning for a prepare shows nothing on the server, with or without an open transaction. */
  lemma PinForPrepare<S, T, R>(en: Engine<S, T, R>, v: Server<S, T, R>, w: World, q: Private<T>, e: Env)
    requires Ready(v, w, q, e) && (w.s.tx.Some? || Pinnable(w.s, e))
    ensures var (x, p) := EnsurePinned(w, e);
            && !p.Denied? && |x.s.log| >= |w.s.log| && ServedFrom(en, v, x.s.log, |w.s.log|) == v
            && x.s.pinned.Some? && (x.s.pinned == w.s.pinned || x.s.pinned == e.checkout)
  {
    hide Replay, Commits, Tracked, ServedFrom;
    NothingServed(en, v, w.s.log);
    if w.s.pinned.None? {
      PinServed(en, v, |w.s.log|, w, e);
    }
  }

  /** Making a handle ready prepares and closes statements, which shows nothing on the server. */
  lemma ReadyServed<S, T, R>(en: Engine<S, T, R>, v: Server<S, T, R>, n: nat, w: World, id: uint32, e: Env)
    requires n <= |w.s.log| && id in w.s.prepared && w.s.pinned.Some? && e.prepare
    ensures var (x, ok) := StatementForExecution(w, id, e);
            && ok && |x.s.log| >= n && ServedFrom(en, v, x.s.log, n) == ServedFrom(en, v, w.s.log, n)
            && Queries(x.s.prepared) == Queries(w.s.prepared)
  {
    hide Replay, Commits, Tracked, ServedFrom, CurrentStmt;
    var h := w.s.prepared[id];
    var x := w;
    if h.statement.Some? {
      EmitServed(en, v, n, w, CloseStmts({h.statement.value}));
    }
    if h.statement.None? || (h.transactionBound && w.s.tx.None?) {
      x := if h.statement.Some? then Emit(w, CloseStmts({h.statement.value})) else w;
      EmitServed(en, v, n, x, PrepareStmt(CurrentStmt(x.s), e.prepare));
    }
  }

  /** Running a ready handle on its pinned connection: in the open transaction, or on its own. */
  lemma ExecutionServed<S, T, R>(en: Engine<S, T, R>, v: Server<S, T, R>, n: nat, w: World, id: uint32, arguments: seq<BinaryValues.Value>)
    requires n <= |w.s.log| && Inv(w.s) && id in w.s.prepared && w.s.prepared[id].statement.Some? && w.s.pinned.Some?
    ensures var x := Emit(w, ExecutionOf(w.s, id, arguments));
            ServedFrom(en, v, x.s.log, n)
            == RunOn(en, ServedFrom(en, v, w.s.log, n), w.s.pinned.value, Bound(w.s.prepared[id].query.sql, arguments))
  {
    hide Replay, Commits, Tracked, ServedFrom;
    EmitServed(en, v, n, w, ExecutionOf(w.s, id, arguments));
    SessionRuns.SoundHandle(w.s, id);
  }

  lemma ExecuteOutcome(w: World, id: uint32, arguments: seq<BinaryValues.Value>, e: Env, x: World, y: World)
    requires id in w.s.prepared && EnsureImplicit(w, e) == (x, true) && id in x.s.prepared && x.s.pinned.Some?
    requires StatementForExecution(x, id, e) == (y, true)
    ensures ExecuteCommand(w, id, Some(arguments), e) == Report(Emit(y, ExecutionOf(y.s, id, arguments)), ReturnsRows(y.s.prepared[id].query), e)
  {
    hide Replay, Commits, EnsureImplicit, StatementForExecution, ExecutionOf, Report;
  }

  lemma ExecuteSimulated<S, T, R>(en: Engine<S, T, R>, v: Server<S, T, R>, w: World, q: Private<T>, id: uint32,
                                  arguments: Option<seq<BinaryValues.Value>>, e: Env)
    requires Ready(v, w, q, e)
    ensures Simulated(en, v, w, ExecuteCommand(w, id, arguments, e), q, Execute(id, arguments), e)
  {
    hide Replay, Commits, Tracked, EnsureImplicit, StatementForExecution, ServedFrom, Queries;
    NothingServed(en, v, w.s.log);
    if id in w.s.prepared && arguments.Some? {
      ExecutedSimulated(en, v, w, q, id, arguments.value, e);
    }
  }

  lemma ExecutedSimulated<S, T, R>(en: Engine<S, T, R>, v: Server<S, T, R>, w: World, q: Private<T>, id: uint32,
                                   arguments: seq<BinaryValues.Value>, e: Env)
    requires Ready(v, w, q, e) && id in w.s.prepared
    ensures Simulated(en, v, w, ExecuteCommand(w, id, Some(arguments), e), q, Execute(id, Some(arguments)), e)
  {
    hide Replay, Commits, Tracked, EnsureImplicit, StatementForExecution, ExecutionOf, ServedFrom, Queries, ExecuteCommand;
    ExecuteKeeps(w, id, Some(arguments), e);
    var (x, ok) := EnsureImplicit(w, e);
    ImplicitKeeps(w, e, x, ok);
    ImplicitServed(en, v, w, q, e);
    var (y, ready) := StatementForExecution(x, id, e);
    ReadyKeeps(x, id, e, y, ready);
    ReadyServed(en, v, |w.s.log|, x, id, e);
    ExecuteOutcome(w, id, arguments, e, x, y);
    ExecutionServed(en, v, |w.s.log|, y, id, arguments);
    QueriesAt(w.s.prepared, id);
    QueriesAt(y.s.prepared, id);
  }

  lemma CloseSimulated<S, T, R>(en: Engine<S, T, R>, v: Server<S, T, R>, w: World, q: Private<T>, id: uint32, e: Env)
    requires Ready(v, w, q, e)
    ensures Simulated(en, v, w, CloseCommand(w, id), q, CloseStmt(id), e)
  {
    hide Replay, Commits, Tracked, ReleasePinned, ServedFrom, Queries;
    NothingServed(en, v, w.s.log);
    CloseCommandKeeps(w, id);
    QueriesAt(w.s.prepared, id);
    if id !in w.s.prepared {
      assert q.handles - {id} == q.handles;
    } else {
      QueriesMove(w.s.prepared, id, w.s.prepared[id]);
      ForgetKeeps(w, id);
      var y := Forget(w, id);
      var h := w.s.prepared[id];
      if h.statement.Some? {
        EmitServed(en, v, |w.s.log|, w, CloseStmts({h.statement.value}));
      }
      if y.s.prepared == map[] && y.s.tx.None? {
        ReleaseServed(en, v, |w.s.log|, y, false);
        ReleasePinnedKeeps(y, false);
      }
    }
  }

  lemma SaySimulated<S, T, R>(en: Engine<S, T, R>, v: Server<S, T, R>, w: World, q: Private<T>, command: Command, e: Env)
    requires Ready(v, w, q, e) && Covered(command) && Regular(w.s, command)
    ensures Simulated(en, v, w, Dispatch(w, command, e), q, command, e)
  {
    hide QueryCommand, PrepareCommand, ExecuteCommand, CloseCommand, Simulated, Ready;
    match command
    case Query(stmt) => QuerySimulated(en, v, w, q, stmt, e);
    case Prepare(stmt) => PrepareSimulated(en, v, w, q, stmt, e);
    case Execute(id, arguments) => ExecuteSimulated(en, v, w, q, id, arguments, e);
    case CloseStmt(id) => CloseSimulated(en, v, w, q, id, e);
  }

  /** The commands the gateway accepts when upstream does not fail. */
  predicate Acceptable(s: Session, command: Command, e: Env) {
    match command
    case Query(stmt) => (
      match stmt.kind
      case Begin => s.tx.None? && Pinnable(s, e)
      case DDL => s.tx.None? && e.admitted
      case Savepoint => s.tx.Some?
      case Read | Write => s.tx.Some? || (if s.state.autocommit then e.admitted else Pinnable(s, e))
      case _ => true)
    case Prepare(stmt) =>
      (stmt.kind.Read? || stmt.kind.Write? || (stmt.kind.DDL? && s.tx.None?)) && Pinnable(s, e)
    case Execute(id, arguments) => id in s.prepared && arguments.Some?
    case _ => true
  }

  /** A covered command is accepted exactly when it is acceptable: nothing else is turned away. */
  lemma AcceptedExactly<S, T, R>(v: Server<S, T, R>, w: World, q: Private<T>, command: Command, e: Env)
    requires Ready(v, w, q, e) && Covered(command) && Regular(w.s, command)
    ensures Accepts(Dispatch(w, command, e).reply) <==> Acceptable(w.s, command, e)
  {
    hide Replay, Commits, Tracked, QueryCommand, PrepareCommand, ExecuteCommand;
    match command
    case Query(stmt) => QueryAccepted(v, w, q, stmt, e);
    case Prepare(stmt) => PrepareAccepted(v, w, q, stmt, e);
    case Execute(id, arguments) => ExecuteAccepted(v, w, q, id, arguments, e);
    case CloseStmt(id) => SessionRuns.CloseIsSilent(w, id);
  }

  lemma QueryAccepted<S, T, R>(v: Server<S, T, R>, w: World, q: Private<T>, stmt: Statement, e: Env)
    requires Ready(v, w, q, e) && Covered(Query(stmt))
    ensures Accepts(QueryCommand(w, stmt, e).reply) <==> Acceptable(w.s, Query(stmt), e)
  {
    hide Replay, Commits, Tracked, FinishTransaction, Borrow, ReleasePinned;
  }

  lemma PrepareAccepted<S, T, R>(v: Server<S, T, R>, w: World, q: Private<T>, stmt: Statement, e: Env)
    requires Ready(v, w, q, e) && IdFree(w.s)
    ensures Accepts(PrepareCommand(w, stmt, e).reply) <==> Acceptable(w.s, Prepare(stmt), e)
  {
    hide Replay, Commits, Tracked, ReleasePinned, CurrentStmt;
  }

  lemma ExecuteAccepted<S, T, R>(v: Server<S, T, R>, w: World, q: Private<T>, id: uint32, arguments: Option<seq<BinaryValues.Value>>, e: Env)
    requires Ready(v, w, q, e)
    ensures Accepts(ExecuteCommand(w, id, arguments, e).reply) <==> Acceptable(w.s, Execute(id, arguments), e)
  {
    hide Replay, Commits, Tracked, ReleasePinned, CurrentStmt;
    if id in w.s.prepared {
      ImplicitBegins(w, e);
    }
  }

  /** With a pin and a willing upstream the implicit transaction is there. */
  lemma ImplicitBegins(w: World, e: Env)
    requires Inv(w.s) && !w.s.state.poisoned && w.s.pinned.Some? && Smooth(e)
    ensures var (x, ok) := EnsureImplicit(w, e); ok && x.s.prepared == w.s.prepared && x.s.pinned == w.s.pinned
  {
    hide Replay, Commits, Tracked;
  }

  /** Before an execution: the pin stays, and a transaction is open exactly when one was or autocommit is off. */
  lemma ImplicitServed<S, T, R>(en: Engine<S, T, R>, v: Server<S, T, R>, w: World, q: Private<T>, e: Env)
    requires Ready(v, w, q, e) && w.s.pinned.Some?
    ensures var (x, ok) := EnsureImplicit(w, e);
            var u := ServedFrom(en, v, x.s.log, |w.s.log|);
            && ok && |x.s.log| >= |w.s.log| && x.s.pinned == w.s.pinned && x.s.prepared == w.s.prepared && x.s.nextId == w.s.nextId
            && x.s.state.autocommit == w.s.state.autocommit && !x.s.state.poisoned
            && (if !w.s.state.autocommit && w.s.tx.None?
                then var (store, t) := en.begin(v.store);
                     x.s.tx.Some? && x.s.tx.value.conn == w.s.pinned.value && u == v.(store := store, open := v.open[w.s.pinned.value := t])
                else x == w && u == v)
  {
    hide Replay, Commits, Tracked, ServedFrom, BeginTransaction;
    NothingServed(en, v, w.s.log);
    if !w.s.state.autocommit && w.s.tx.None? {
      var (x, ok) := BeginTransaction(w, e);
      BeginKeeps(w, e, x, ok);
      BeginServed(en, v, |w.s.log|, w, e);
    }
  }

  lemma LeaveSimulated<S, T, R>(en: Engine<S, T, R>, v: Server<S, T, R>, w: World, q: Private<T>, e: Env)
    requires Matches(w.s, q, v) && Smooth(e)
    ensures var u := ServedFrom(en, v, Close(w, e).s.log, |w.s.log|);
            && u.store == (if q.tx.Some? then en.rollback(v.store, q.tx.value) else v.store)
            && (forall conn | Some(conn) != w.s.pinned ::
                  (conn in u.open <==> conn in v.open) && (conn in v.open ==> u.open[conn] == v.open[conn]))
            && (forall conn | conn in u.open :: Some(conn) != w.s.pinned)
  {
    hide Replay, Commits, Tracked, ReleasePinned;
    var n := |w.s.log|;
    var x := w;
    if w.s.tx.Some? {
      EmitServed(en, v, n, w, RollbackTx(w.s.tx.value, e.rollback));
      var y := Emit(w, RollbackTx(w.s.tx.value, e.rollback));
      x := y.(s := y.s.(tx := None));
    }
    var c := CloseStmts(StatementsOf(x.s.prepared, false));
    EmitServed(en, v, n, x, c);
    ReleaseServed(en, v, n, ForgetAll(Emit(x, c)), true);
  }

  // ---------------------------------------------------------------- one step of the whole system

  lemma OthersMatch<S, T, R>(v: Server<S, T, R>, u: Server<S, T, R>, s: Session, t: Session, other: Session, q: Private<T>)
    requires Matches(other, q, v) && Frame(v, u, s, t)
    requires other.pinned.Some? ==> other.pinned != s.pinned && other.pinned != t.pinned
    ensures Matches(other, q, u)
  {
    hide Inv;
    assert other.tx.Some? ==> other.pinned == Some(other.tx.value.conn) by { PinOfTx(other); }
  }

  lemma PinOfTx(s: Session)
    requires Inv(s)
    ensures s.tx.Some? ==> s.pinned == Some(s.tx.value.conn)
  {
  }

  /** A connection new to session `k` is new to everybody. */
  ghost predicate FreshPin(sessions: map<Client, Session>, k: Client, t: Session) {
    && k in sessions
    && (t.pinned == sessions[k].pinned || t.pinned.None? || forall j | j in sessions :: sessions[j].pinned != t.pinned)
  }

  lemma UpdateKeepsMatches<S, T, R>(sessions: map<Client, Session>, conns: map<Client, Private<T>>, v: Server<S, T, R>,
                                    u: Server<S, T, R>, k: Client, t: Session, q: Private<T>)
    requires AllMatch(sessions, conns, v) && PinsDistinct(sessions) && FreshPin(sessions, k, t)
    requires Frame(v, u, sessions[k], t) && Matches(t, q, u)
    ensures AllMatch(sessions[k := t], conns[k := q], u) && PinsDistinct(sessions[k := t])
  {
    hide Matches, Frame;
    forall j | j in sessions && j != k
      ensures Matches(sessions[j], conns[j], u)
    {
      OthersMatch(v, u, sessions[k], t, sessions[j], conns[j]);
    }
  }

  lemma UpdateKeepsOwned<S, T, R>(sessions: map<Client, Session>, v: Server<S, T, R>, u: Server<S, T, R>, k: Client, t: Session)
    requires k in sessions && Owned(sessions, v.open) && Frame(v, u, sessions[k], t)
    ensures Owned(sessions[k := t], u.open)
  {
    var after := sessions[k := t];
    forall conn | conn in u.open
      ensures exists j :: j in after && after[j].pinned == Some(conn)
    {
      if t.pinned == Some(conn) {
        assert after[k].pinned == Some(conn);
      } else {
        var j :| j in sessions && sessions[j].pinned == Some(conn);
        assert j in after && after[j].pinned == Some(conn);
      }
    }
  }

  lemma SayRelated<S, T, R>(en: Engine<S, T, R>, b: Baseline, p: Pool<S, T, R>, r: Reference<S, T>, k: Client, command: Command, e: Env)
    requires Related(p, r) && Undisturbed(p, Say(k, command, e)) && k in p.sessions
    ensures var (p', a) := PoolStep(en, b, p, Say(k, command, e));
            if a.NotAccepted? then Related(p', r)
            else var (r', a') := ReferenceStep(en, r, Say(k, command, e)); Related(p', r') && a == a'
  {
    hide Matches, ServedFrom, PrivateStep, Dispatch, Frame, Regular, Covered;
    var w := World(p.sessions[k], p.c);
    var q := r.conns[k];
    SaySimulated(en, p.server, w, q, command, e);
    var o := Dispatch(w, command, e);
    var u := ServedFrom(en, p.server, o.w.s.log, |w.s.log|);
    UpdateKeepsOwned(p.sessions, p.server, u, k, o.w.s);
    if Accepts(o.reply) {
      UpdateKeepsMatches(p.sessions, r.conns, p.server, u, k, o.w.s, PrivateStep(en, p.server.store, q, command).1);
    } else {
      UpdateKeepsMatches(p.sessions, r.conns, p.server, u, k, o.w.s, q);
      assert r.conns[k := q] == r.conns;
    }
  }

  lemma LeaveOwned<S, T, R>(sessions: map<Client, Session>, v: Server<S, T, R>, u: Server<S, T, R>, k: Client, gone: Session)
    requires k in sessions && Owned(sessions, v.open) && gone.pinned.None? && Frame(v, u, sessions[k], gone)
    ensures Owned(sessions - {k}, u.open)
  {
    UpdateKeepsOwned(sessions, v, u, k, gone);
    var after := sessions - {k};
    forall conn | conn in u.open
      ensures exists j :: j in after && after[j].pinned == Some(conn)
    {
      var j :| j in sessions[k := gone] && sessions[k := gone][j].pinned == Some(conn);
      assert j in after && after[j].pinned == Some(conn);
    }
  }

  lemma LeaveMatches<S, T, R>(sessions: map<Client, Session>, conns: map<Client, Private<T>>, v: Server<S, T, R>, u: Server<S, T, R>,
                              k: Client, gone: Session)
    requires AllMatch(sessions, conns, v) && PinsDistinct(sessions)
    requires k in sessions && gone.pinned.None? && Frame(v, u, sessions[k], gone)
    ensures AllMatch(sessions - {k}, conns - {k}, u) && PinsDistinct(sessions - {k})
  {
    hide Matches, Frame;
    forall j | j in sessions - {k}
      ensures Matches(sessions[j], conns[j], u)
    {
      OthersMatch(v, u, sessions[k], gone, sessions[j], conns[j]);
    }
  }

  lemma LeaveRelated<S, T, R>(en: Engine<S, T, R>, b: Baseline, p: Pool<S, T, R>, r: Reference<S, T>, k: Client, e: Env)
    requires Related(p, r) && Smooth(e) && k in p.sessions
    ensures Related(PoolStep(en, b, p, Leave(k, e)).0, ReferenceStep(en, r, Leave(k, e)).0)
  {
    hide Matches, ServedFrom, Close, PinsDistinct, Owned;
    var w := World(p.sessions[k], p.c);
    LeaveSimulated(en, p.server, w, r.conns[k], e);
    var u := ServedFrom(en, p.server, Close(w, e).s.log, |w.s.log|);
    var gone := w.s.(pinned := None);
    assert Frame(p.server, u, w.s, gone);
    hide AllMatch, Frame;
    LeaveOwned(p.sessions, p.server, u, k, gone);
    LeaveMatches(p.sessions, r.conns, p.server, u, k, gone);
  }

  lemma JoinRelated<S, T, R>(en: Engine<S, T, R>, b: Baseline, p: Pool<S, T, R>, r: Reference<S, T>, k: Client)
    requires Related(p, r) && k !in p.sessions && b.charset == "utf8mb4"
    ensures Related(PoolStep(en, b, p, Join(k)).0, ReferenceStep(en, r, Join(k)).0)
  {
    hide Matches;
    JoinMatches(p.server, b);
    var after := p.sessions[k := NewSession(b)];
    forall conn | conn in p.server.open
      ensures exists j :: j in after && after[j].pinned == Some(conn)
    {
      var j :| j in p.sessions && p.sessions[j].pinned == Some(conn);
      assert j in after && after[j].pinned == Some(conn);
    }
  }

  lemma JoinMatches<S, T, R>(v: Server<S, T, R>, b: Baseline)
    requires b.charset == "utf8mb4"
    ensures Matches(NewSession(b), Private(true, None, map[], 0), v)
  {
  }

  // ---------------------------------------------------------------- runs

  /** The pooled run: the final pool and every answer. */
  function PoolRun<S, T, R>(en: Engine<S, T, R>, b: Baseline, p: Pool<S, T, R>, steps: seq<Step>): (Pool<S, T, R>, seq<Answer<R>>) {
    if steps == [] then (p, []) else
    var (q, answers) := PoolRun(en, b, p, steps[..|steps| - 1]);
    var (q', a) := PoolStep(en, b, q, steps[|steps| - 1]);
    (q', answers + [a])
  }

  /** The reference run of the steps that `accepted` selects. */
  function ReferenceRun<S, T, R>(en: Engine<S, T, R>, r: Reference<S, T>, steps: seq<Step>, accepted: seq<bool>)
    : (Reference<S, T>, seq<Answer<R>>)
    requires |accepted| == |steps|
  {
    if steps == [] then (r, []) else
    var n := |steps| - 1;
    var (q, answers) := ReferenceRun(en, r, steps[..n], accepted[..n]);
    if accepted[n] then
      var (q', a) := ReferenceStep(en, q, steps[n]);
      (q', answers + [a])
    else (q, answers + [NotAccepted])
  }

  ghost predicate UndisturbedRun<S, T, R>(en: Engine<S, T, R>, b: Baseline, p: Pool<S, T, R>, steps: seq<Step>) {
    steps == [] ||
    (var before := steps[..|steps| - 1];
     UndisturbedRun(en, b, p, before) && Undisturbed(PoolRun(en, b, p, before).0, steps[|steps| - 1]))
  }

  function Accepted<R>(answers: seq<Answer<R>>): seq<bool> {
    seq(|answers|, i requires 0 <= i < |answers| => !answers[i].NotAccepted?)
  }

  function Start<S, T, R>(store: S): Pool<S, T, R> {
    Pool(Counters(0, 0, 0), map[], Server(store, map[], None))
  }

  /**
   * For every engine, store and interleaving without upstream failures: the pooled run answers
   * every client exactly as the reference answers the accepted commands, text and prepared, and leaves
   * the same store.
   */
  lemma {:induction false} PooledRunMatchesPrivateConnections<S, T, R>(en: Engine<S, T, R>, b: Baseline, store: S, steps: seq<Step>)
    requires b.charset == "utf8mb4" && UndisturbedRun(en, b, Start(store), steps)
    ensures var (p, answers) := PoolRun(en, b, Start(store), steps);
            && |answers| == |steps|
            && var (r, expected) := ReferenceRun<S, T, R>(en, Reference(store, map[]), steps, Accepted(answers));
            && answers == expected
            && p.server.store == r.store
            && Related(p, r)
  {
    hide PoolStep, ReferenceStep, AllMatch, PinsDistinct, Owned;
    if steps == [] {
      StartRelated<S, T, R>(store);
    } else {
      var n := |steps| - 1;
      PooledRunMatchesPrivateConnections(en, b, store, steps[..n]);
      var (q, answers) := PoolRun(en, b, Start(store), steps[..n]);
      var (p, a) := PoolStep(en, b, q, steps[n]);
      assert Accepted(answers + [a])[..n] == Accepted(answers);
      var r := ReferenceRun<S, T, R>(en, Reference(store, map[]), steps[..n], Accepted(answers)).0;
      StepRelated(en, b, q, r, steps[n]);
    }
  }

  lemma StartRelated<S, T, R>(store: S)
    ensures Related<S, T, R>(Start(store), Reference(store, map[]))
  {
  }

  lemma StepRelated<S, T, R>(en: Engine<S, T, R>, b: Baseline, p: Pool<S, T, R>, r: Reference<S, T>, st: Step)
    requires Related(p, r) && Undisturbed(p, st) && b.charset == "utf8mb4"
    ensures var (p', a) := PoolStep(en, b, p, st);
            if a.NotAccepted? then Related(p', r)
            else var (r', a') := ReferenceStep(en, r, st); Related(p', r') && a == a'
  {
    hide Matches, ServedFrom, PrivateStep, Dispatch, Close, Regular, Covered;
    match st
    case Join(k) => JoinRelated(en, b, p, r, k);
    case Say(k, command, e) => if k in p.sessions { SayRelated(en, b, p, r, k, command, e); }
    case Leave(k, e) => if k in p.sessions { LeaveRelated(en, b, p, r, k, e); }
  }
}
