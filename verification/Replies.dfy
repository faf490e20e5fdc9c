/**
 * What the client is told, against what was done upstream: for every command, every answer of the
 * outside and every reachable session. The conditions speak of the command, the session's fields,
 * the environment and a tally of the call log.
 */
module Replies {
  import opened Wrappers
  import opened Statements
  import opened LogicalState
  import opened Upstream
  import opened Session
  import opened SessionInvariant
  import SessionRuns
  import LogGrowth
  import opened Words

  // ---------------------------------------------------------------- the tally of a log

  /** How often a log did what, and the last statement it sent. */
  datatype Tally = Tally(
    sent: nat, last: Option<Call>,
    begun: nat, beginFailed: nat,
    committed: nat, commitFailed: nat,
    rolledBack: nat, rollbackBroken: nat,
    prepared: nat, prepareFailed: nat,
    returned: nat, discarded: nat)

  const Zero := Tally(0, None, 0, 0, 0, 0, 0, 0, 0, 0, 0, 0)

  function Add(t: Tally, c: Call): Tally {
    match c
    case Acquire | Release | Checkout(_) | CloseStmts(_) => t
    case CloseConn(_, discard) => if discard then t.(discarded := t.discarded + 1) else t.(returned := t.returned + 1)
    case BeginTx(_, ok) => if ok then t.(begun := t.begun + 1) else t.(beginFailed := t.beginFailed + 1)
    case CommitTx(_, ok) => if ok then t.(committed := t.committed + 1) else t.(commitFailed := t.commitFailed + 1)
    case RollbackTx(_, ending) =>
      if ending.Broken? then t.(rollbackBroken := t.rollbackBroken + 1) else t.(rolledBack := t.rolledBack + 1)
    case PrepareStmt(_, ok) => if ok then t.(prepared := t.prepared + 1) else t.(prepareFailed := t.prepareFailed + 1)
    case Run(_, _, _) | RunPrepared(_, _, _, _) => t.(sent := t.sent + 1, last := Some(c))
  }

  function TallyOf(log: seq<Call>): Tally {
    if log == [] then Zero else Add(TallyOf(log[..|log| - 1]), log[|log| - 1])
  }

  lemma TallySnoc(log: seq<Call>, c: Call)
    ensures TallyOf(log + [c]) == Add(TallyOf(log), c)
  {
    assert (log + [c])[..|log|] == log;
  }

  // ---------------------------------------------------------------- what a reply means

  /** The statement may be prepared now. */
  predicate Preparable(s: Session, st: Statement) {
    st.kind.Read? || st.kind.Write? || (st.kind.DDL? && s.tx.None?)
  }

  /** The command has to take a connection from the pool first. */
  predicate NeedsConnection(s: Session, command: Command) {
    match command
    case Query(st) =>
      s.tx.None? &&
      (match st.kind
       case Begin => s.pinned.None?
       case DDL => true
       case Read | Write => s.state.autocommit || s.pinned.None?
       case _ => false)
    case Prepare(st) => Preparable(s, st) && s.pinned.None?
    case _ => false
  }

  /** `USE name` names the configured database. */
  ghost predicate NamesDatabase(s: Session, sql: string) {
    exists words, name ::
      && SplitInto(sql, words) && |words| == 2 && Shed(words[1], '`', name)
      && name != "" && name == s.state.baseline.database
  }

  lemma NamesDatabaseIff(s: Session, sql: string)
    ensures var words := Text.Fields(sql);
            NamesDatabase(s, sql) <==>
              |words| == 2 && Text.TrimAll(words[1], '`') != "" && Text.TrimAll(words[1], '`') == s.state.baseline.database
  {
    hide SplitInto, Shed, Text.Fields, Text.TrimAll;
    var fields := Text.Fields(sql);
    FieldsIff(sql, fields);
    if |fields| == 2 { TrimAllIff(fields[1], '`', Text.TrimAll(fields[1], '`')); }
    forall words, name | SplitInto(sql, words) && |words| == 2 && Shed(words[1], '`', name)
      ensures words == fields && name == Text.TrimAll(fields[1], '`')
    {
      FieldsIff(sql, words);
      TrimAllIff(words[1], '`', name);
    }
  }

  /** The gateway itself says no, without asking upstream. */
  ghost predicate Refusal(s: Session, command: Command) {
    match command
    case Query(st) =>
      (match st.kind
       case Empty | Unsupported | Unrecognized => true
       case Begin | DDL => s.tx.Some?
       case Savepoint => s.tx.None?
       case UseDatabase => !NamesDatabase(s, st.sql)
       case _ => false)
    case InitDb(name) => name == "" || name != s.state.baseline.database
    case Prepare(st) => !Preparable(s, st)
    case Execute(id, arguments) => id !in s.prepared || arguments.None?
    case SendLongData(accepted) => !accepted
    case ResetStmt(id) => id !in s.prepared
    case OtherCommand => true
    case _ => false
  }

  /** Commands whose answer is the server's. */
  predicate Work(command: Command) {
    match command
    case Query(st) => st.kind.Read? || st.kind.Write? || st.kind.DDL? || st.kind.Savepoint?
    case Execute(_, _) => true
    case _ => false
  }

  /** Commands that the protocol leaves unanswered. */
  predicate Wordless(command: Command) {
    command.CloseStmt? || (command.SendLongData? && command.accepted)
  }

  /** Something the command needed from upstream failed, from tally `t` to tally `u`. */
  predicate Trouble(s: Session, command: Command, e: Env, t: Tally, u: Tally) {
    || (NeedsConnection(s, command) && (!e.admitted || e.checkout.None?))
    || u.beginFailed > t.beginFailed
    || (u.begun > t.begun && s.state.inTransaction)        // begun, found out of step, rolled back
    || u.prepareFailed > t.prepareFailed
    || (command.Prepare? && u.prepared > t.prepared && NextId(s.nextId) in s.prepared)
    || u.rollbackBroken > t.rollbackBroken
    || (u.sent > t.sent && !e.run)
  }

  /** The reply is what upstream did. */
  ghost predicate Truthful(s: Session, command: Command, e: Env, o: Outcome, t: Tally, u: Tally) {
    && (o.reply.Ran? <==> u.sent > t.sent && e.run && e.write)
    && (o.reply.UpstreamError? <==> e.write && Trouble(s, command, e, t, u))
    && (o.reply.Refused? <==> e.write && Refusal(s, command))
    && (o.reply.PreparedOk? <==> e.write && command.Prepare? && u.prepared > t.prepared && NextId(s.nextId) !in s.prepared)
    && (o.reply.PreparedOk? ==> o.reply.id == NextId(s.nextId))
    && (o.reply.WarningRow? <==> e.write && command.Query? && command.stmt.kind.WarningCount?)
    && (o.reply.WarningRow? ==> o.reply.count == s.state.warnings)
    && (o.reply.Silent? <==> !o.alive || Wordless(command))
    && (o.reply.Ack? ==> !Work(command) && Acknowledged(s, command, t, u))
    && (o.reply.Ack? || o.reply.Ran? ==>
          o.reply.autocommit == o.w.s.state.autocommit && o.reply.inTransaction == o.w.s.state.inTransaction)
  }

  /** An OK for a transaction statement follows the upstream call it stands for. */
  predicate Acknowledged(s: Session, command: Command, t: Tally, u: Tally) {
    command.Query? ==>
      match command.stmt.kind
      case Begin => u.begun == t.begun + 1
      case Commit | AutocommitOn => u.committed == t.committed + if s.tx.Some? then 1 else 0
      case Rollback => u.rolledBack == t.rolledBack + if s.tx.Some? then 1 else 0
      case _ => true
  }

  /** The session goes on unless the client quits or cannot be reached, or a commit or the hook after it failed. */
  predicate Lives(command: Command, e: Env, o: Outcome, t: Tally, u: Tally) {
    o.alive <==>
      && !command.Quit?
      && (e.write || Wordless(command))
      && u.commitFailed == t.commitFailed
      && (u.committed > t.committed ==> e.hook)
  }

  /** At most one statement is sent, and it is the client's. */
  predicate Verbatim(s: Session, command: Command, t: Tally, u: Tally) {
    u.sent > t.sent ==>
      && u.sent == t.sent + 1 && u.last.Some?
      && match command
         case Query(st) => u.last.value.Run? && u.last.value.sql == st.sql
         case Execute(id, arguments) =>
           && u.last.value.RunPrepared? && id in s.prepared
           && u.last.value.query == s.prepared[id].query && Some(u.last.value.arguments) == arguments
         case _ => false
  }

  /** The command went through `Apply`, which forgets the diagnostics. */
  predicate Clears(command: Command, t: Tally, u: Tally) {
    || (command.Query? && (command.stmt.kind.Savepoint? || command.stmt.kind.SetNames?
                           || command.stmt.kind.AutocommitOn? || command.stmt.kind.AutocommitOff?))
    || u.begun > t.begun || u.committed > t.committed || u.rolledBack > t.rolledBack
  }

  predicate Rows(s: Session, command: Command) {
    match command
    case Query(st) => st.kind.Read?
    case Execute(id, _) => id in s.prepared && ReturnsRows(s.prepared[id].query)
    case _ => false
  }

  /** The diagnostics are those of the statement that ran, or none after `Apply`, or what they were. */
  predicate Diagnosed(s: Session, command: Command, e: Env, o: Outcome, t: Tally, u: Tally) {
    o.alive ==>
      (o.w.s.state.warnings, o.w.s.state.lastInsertId) ==
        if u.sent > t.sent && e.run then (e.warnings, if Rows(s, command) then 0 else e.insertId)
        else if Clears(command, t, u) then (0, 0)
        else (s.state.warnings, s.state.lastInsertId)
  }

  /** Connections go back to the pool, except after a failed prepare, which costs the connection. */
  predicate Careful(command: Command, t: Tally, u: Tally) {
    && u.returned + u.discarded <= t.returned + t.discarded + 1
    && (u.discarded > t.discarded ==> command.Prepare? && u.prepareFailed > t.prepareFailed)
    && (u.returned > t.returned ==> u.prepareFailed == t.prepareFailed)
  }

  /** The calls in the log have the outcomes that upstream gave. */
  predicate Recorded(e: Env, t: Tally, u: Tally) {
    && (u.begun > t.begun ==> e.begin) && (u.beginFailed > t.beginFailed ==> !e.begin)
    && (u.committed > t.committed ==> e.commit) && (u.commitFailed > t.commitFailed ==> !e.commit)
    && (u.rolledBack > t.rolledBack ==> !e.rollback.Broken?) && (u.rollbackBroken > t.rollbackBroken ==> e.rollback.Broken?)
    && (u.prepared > t.prepared ==> e.prepare) && (u.prepareFailed > t.prepareFailed ==> !e.prepare)
  }

  ghost predicate Explained(w: World, command: Command, e: Env, o: Outcome) {
    var t, u := TallyOf(w.s.log), TallyOf(o.w.s.log);
    && Truthful(w.s, command, e, o, t, u)
    && Lives(command, e, o, t, u)
    && Verbatim(w.s, command, t, u)
    && Diagnosed(w.s, command, e, o, t, u)
    && Careful(command, t, u)
    && Recorded(e, t, u)
  }

  // ---------------------------------------------------------------- the steps

  lemma EmitTally(w: World, c: Call)
    ensures TallyOf(Emit(w, c).s.log) == Add(TallyOf(w.s.log), c)
  {
    hide Replay, Commits;
    TallySnoc(w.s.log, c);
  }

  lemma SlotTally(w: World)
    ensures TallyOf(TakeSlot(w).s.log) == TallyOf(w.s.log) == TallyOf(DropSlot(w).s.log)
  {
    hide Replay, Commits, TallyOf;
    EmitTally(w.(c := w.c.(slots := w.c.slots + 1)), Acquire);
    EmitTally(w.(c := w.c.(slots := w.c.slots - 1)), Release);
  }

  lemma PinTally(w: World, e: Env, x: World, p: Pinning)
    requires EnsurePinned(w, e) == (x, p)
    ensures TallyOf(x.s.log) == TallyOf(w.s.log)
    ensures p.Denied? <==> w.s.pinned.None? && (!e.admitted || e.checkout.None?)
    ensures p.Created? <==> w.s.pinned.None? && e.admitted && e.checkout.Some?
    ensures x.s == w.s.(pinned := x.s.pinned, slot := x.s.slot, log := x.s.log)
  {
    hide Replay, Commits, TallyOf;
    SlotTally(w);
    SlotTally(TakeSlot(w));
    if e.checkout.Some? { EmitTally(TakeSlot(w), Checkout(e.checkout.value)); }
  }

  lemma ReleaseTally(w: World, discard: bool)
    ensures var x := ReleasePinned(w, discard);
            && TallyOf(x.s.log) == (if w.s.pinned.Some? then Add(TallyOf(w.s.log), CloseConn(w.s.pinned.value, discard)) else TallyOf(w.s.log))
            && x.s == w.s.(pinned := None, slot := false, log := x.s.log)
  {
    hide Replay, Commits, TallyOf;
    if w.s.pinned.Some? {
      var y := Emit(w, CloseConn(w.s.pinned.value, discard));
      EmitTally(w, CloseConn(w.s.pinned.value, discard));
      SlotTally(World(y.s.(pinned := None), y.c.(pinned := y.c.pinned - 1)));
    } else {
      SlotTally(w);
    }
  }

  /** A BEGIN that may fail, from tally `t` to tally `u`. */
  predicate Begins(s: Session, e: Env, z: Session, ok: bool, t: Tally, u: Tally) {
    var denied := s.pinned.None? && (!e.admitted || e.checkout.None?);
    && z.prepared == s.prepared && z.nextId == s.nextId && z.state.autocommit == s.state.autocommit
    && (ok <==> !denied && e.begin && !s.state.inTransaction)
    && (ok ==> u == t.(begun := t.begun + 1) && z.tx.Some? && z.pinned.Some? && z.state == Applied(s.state, Begin).0)
    && (denied ==> u == t && z.state == s.state)
    && (!denied && !e.begin ==>
          && u == t.(beginFailed := t.beginFailed + 1, returned := u.returned)
          && t.returned <= u.returned <= t.returned + 1 && z.state == s.state)
    && (!denied && e.begin && s.state.inTransaction ==>
          && u == Add(t, RollbackTx(Tx(0, 0), e.rollback)).(begun := t.begun + 1, returned := u.returned)
          && t.returned <= u.returned <= t.returned + 1
          && (z.state.warnings, z.state.lastInsertId) == (0, 0))
  }

  lemma BeginTally(w: World, e: Env, z: World, ok: bool)
    requires w.s.tx.None? && BeginTransaction(w, e) == (z, ok)
    ensures Begins(w.s, e, z.s, ok, TallyOf(w.s.log), TallyOf(z.s.log))
  {
    hide Replay, Commits, TallyOf, EnsurePinned, ReleasePinned;
    var (x, p) := EnsurePinned(w, e);
    PinTally(w, e, x, p);
    if !p.Denied? {
      var tx := Tx(x.s.begun, x.s.pinned.value);
      EmitTally(x, BeginTx(tx, e.begin));
      var y := Emit(x, BeginTx(tx, e.begin));
      ReleaseTally(y, false);
      var v := y.(s := y.s.(begun := y.s.begun + 1, state := Applied(y.s.state, Begin).0));
      EmitTally(v, RollbackTx(tx, e.rollback));
      ReleaseTally(Emit(v, RollbackTx(tx, e.rollback)), false);
    }
  }

  lemma FinishTally(w: World)
    ensures var x, t := FinishTransaction(w), TallyOf(w.s.log);
            && TallyOf(x.s.log) == t.(returned := TallyOf(x.s.log).returned)
            && t.returned <= TallyOf(x.s.log).returned <= t.returned + 1
            && x.s.state == w.s.state
  {
    hide Replay, Commits, TallyOf, ReleasePinned, StatementsOf, Invalidated;
    var c := CloseStmts(StatementsOf(w.s.prepared, true));
    var x := Emit(w.(s := w.s.(tx := None)), c);
    EmitTally(w.(s := w.s.(tx := None)), c);
    ReleaseTally(x.(s := x.s.(prepared := Invalidated(x.s.prepared))), false);
  }

  // ---------------------------------------------------------------- the commands

  /** A statement that ends the open transaction by `c`, from tally `t` to tally `u`. */
  predicate EndsBy(c: Call, t: Tally, u: Tally) {
    u == Add(t, c).(returned := u.returned) && t.returned <= u.returned <= t.returned + 1
  }

  lemma CommitTally(w: World, e: Env)
    requires w.s.tx.Some?
    ensures var o, c := CommitCommand(w, e), CommitTx(w.s.tx.value, e.commit);
            && EndsBy(c, TallyOf(w.s.log), TallyOf(o.w.s.log))
            && o.alive == (e.commit && e.hook && e.write)
            && o.reply == (if o.alive then Ack(o.w.s.state.autocommit, o.w.s.state.inTransaction) else Silent)
            && (o.alive ==> o.w.s.state.warnings == 0 && o.w.s.state.lastInsertId == 0)
  {
    hide Replay, Commits, TallyOf, FinishTransaction;
    var x := Emit(w, CommitTx(w.s.tx.value, e.commit));
    EmitTally(w, CommitTx(w.s.tx.value, e.commit));
    FinishTally(x);
    FinishTally(Bump(ApplyKind(x, Commit)));
  }

  lemma RollbackTally(w: World, e: Env)
    requires w.s.tx.Some?
    ensures var o, c := RollbackCommand(w, e), RollbackTx(w.s.tx.value, e.rollback);
            && EndsBy(c, TallyOf(w.s.log), TallyOf(o.w.s.log))
            && o.alive == e.write
            && o.reply == (if !e.write then Silent else if e.rollback.Broken? then UpstreamError
                           else Ack(o.w.s.state.autocommit, o.w.s.state.inTransaction))
            && (o.w.s.state.warnings, o.w.s.state.lastInsertId) ==
                 (if e.rollback.Broken? then (w.s.state.warnings, w.s.state.lastInsertId) else (0, 0))
  {
    hide Replay, Commits, TallyOf, FinishTransaction;
    var x := Emit(w, RollbackTx(w.s.tx.value, e.rollback));
    EmitTally(w, RollbackTx(w.s.tx.value, e.rollback));
    FinishTally(x);
    FinishTally(ApplyKind(x, Rollback));
  }

  lemma AutocommitOnTally(w: World, e: Env)
    requires w.s.tx.Some?
    ensures var o, c := AutocommitOnCommand(w, e), CommitTx(w.s.tx.value, e.commit);
            && EndsBy(c, TallyOf(w.s.log), TallyOf(o.w.s.log))
            && o.alive == (e.commit && e.hook && e.write)
            && o.reply == (if o.alive then Ack(o.w.s.state.autocommit, o.w.s.state.inTransaction) else Silent)
            && (o.alive ==> o.w.s.state.warnings == 0 && o.w.s.state.lastInsertId == 0)
  {
    hide Replay, Commits, TallyOf, FinishTransaction;
    var x := Emit(w, CommitTx(w.s.tx.value, e.commit));
    EmitTally(w, CommitTx(w.s.tx.value, e.commit));
    FinishTally(x);
    FinishTally(Bump(x));
  }

  lemma EndExplained(w: World, st: Statement, e: Env)
    requires w.s.tx.Some? && (st.kind.Commit? || st.kind.Rollback? || st.kind.AutocommitOn?)
    ensures Explained(w, Query(st), e, QueryCommand(w, st, e))
  {
    hide Replay, Commits, TallyOf, CommitCommand, RollbackCommand, AutocommitOnCommand, ReturnsRows, NamesDatabase;
    if st.kind.Commit? {
      CommitTally(w, e);
    } else if st.kind.Rollback? {
      RollbackTally(w, e);
    } else {
      AutocommitOnTally(w, e);
    }
  }

  lemma EndNothingExplained(w: World, st: Statement, e: Env)
    requires w.s.tx.None? && (st.kind.Commit? || st.kind.Rollback? || st.kind.AutocommitOn?)
    ensures Explained(w, Query(st), e, QueryCommand(w, st, e))
  {
    hide Replay, Commits, TallyOf, ReturnsRows, NamesDatabase;
  }

  lemma BorrowTally(w: World, conn: ConnId, sql: string, read: bool)
    ensures var x, t := Borrow(w, conn, sql, read), TallyOf(w.s.log);
            && TallyOf(x.s.log) == t.(sent := t.sent + 1, last := Some(Run(conn, None, sql)), returned := t.returned + 1)
            && x.s == w.s.(log := x.s.log)
  {
    hide Replay, Commits, TallyOf, TakeSlot, DropSlot;
    SlotTally(w);
    EmitTally(TakeSlot(w), Checkout(conn));
    var y := Emit(TakeSlot(w), Checkout(conn));
    EmitTally(y, Run(conn, None, sql));
    var x := Emit(y, Run(conn, None, sql));
    EmitTally(x, CloseConn(conn, false));
    SlotTally(x);
    SlotTally(Emit(x, CloseConn(conn, false)));
    EmitTally(DropSlot(x), CloseConn(conn, false));
    SlotState(w);
    SlotState(x);
    SlotState(Emit(x, CloseConn(conn, false)));
  }

  lemma SlotState(w: World)
    ensures TakeSlot(w).s == w.s.(log := TakeSlot(w).s.log) && DropSlot(w).s == w.s.(log := DropSlot(w).s.log)
  {
    hide Replay, Commits;
  }

  /** A text statement, from tally `t` to tally `u`. */
  predicate Runs(s: Session, sql: string, read: bool, e: Env, o: Outcome, t: Tally, u: Tally) {
    var denied := s.tx.None? && (!e.admitted || e.checkout.None?);
    && o.w.s == s.(log := o.w.s.log, state := o.w.s.state)
    && o.alive == e.write
    && (denied ==> u == t)
    && (!denied ==>
          && u == t.(sent := t.sent + 1, last := u.last, returned := u.returned)
          && t.returned <= u.returned <= t.returned + 1
          && u.last.Some? && u.last.value.Run? && u.last.value.sql == sql)
    && o.w.s.state == (if denied || !e.run then s.state
                       else s.state.(warnings := e.warnings, lastInsertId := if read then 0 else e.insertId))
    && o.reply == (if !e.write then Silent else if denied || !e.run then UpstreamError
                   else Ran(s.state.autocommit, s.state.inTransaction))
  }

  lemma RunTally(w: World, sql: string, read: bool, e: Env)
    ensures var o := RunText(w, sql, read, e);
            Runs(w.s, sql, read, e, o, TallyOf(w.s.log), TallyOf(o.w.s.log))
  {
    hide Replay, Commits, TallyOf, Borrow, TakeSlot, DropSlot;
    if w.s.tx.Some? {
      EmitTally(w, Run(w.s.tx.value.conn, w.s.tx, sql));
    } else if e.checkout.None? {
      SlotTally(w);
      SlotTally(TakeSlot(w));
      SlotState(w);
      SlotState(TakeSlot(w));
    } else {
      BorrowTally(w, e.checkout.value, sql, read);
    }
  }

  lemma WorkExplained(w: World, st: Statement, e: Env)
    requires Inv(w.s) && Work(Query(st))
    ensures Explained(w, Query(st), e, QueryCommand(w, st, e))
  {
    hide Replay, Commits, TallyOf, BeginTransaction, RunText, Physical, QueryCommand, Explained;
    if st.kind.Savepoint? {
      SavepointExplained(w, st, e);
    } else if st.kind.DDL? || w.s.state.autocommit || w.s.tx.Some? {
      DirectExplained(w, st, e);
    } else {
      ImplicitExplained(w, st, e);
    }
  }

  lemma SavepointExplained(w: World, st: Statement, e: Env)
    requires Inv(w.s) && st.kind.Savepoint?
    ensures Explained(w, Query(st), e, QueryCommand(w, st, e))
  {
    hide Replay, Commits, TallyOf, RunText, Physical, ReturnsRows, NamesDatabase;
    RunTally(ApplyKind(w, Savepoint), st.sql, false, e);
  }

  lemma DirectExplained(w: World, st: Statement, e: Env)
    requires Inv(w.s) && (st.kind.DDL? || ((st.kind.Read? || st.kind.Write?) && (w.s.state.autocommit || w.s.tx.Some?)))
    ensures Explained(w, Query(st), e, QueryCommand(w, st, e))
  {
    hide Replay, Commits, TallyOf, BeginTransaction, RunText, Physical, ReturnsRows, NamesDatabase;
    RunTally(w, st.sql, st.kind.Read?, e);
  }

  lemma ImplicitFrom(w: World, st: Statement, e: Env, x: World, ok: bool)
    requires (st.kind.Read? || st.kind.Write?) && !w.s.state.autocommit && w.s.tx.None? && BeginTransaction(w, e) == (x, ok)
    ensures QueryCommand(w, st, e) == if ok then RunText(x, st.sql, st.kind.Read?, e) else Answer(x, e, UpstreamError)
  {
    hide Replay, Commits, BeginTransaction, RunText;
  }

  /** Autocommit is off and nothing is open: the statement begins a transaction of its own. */
  lemma ImplicitExplained(w: World, st: Statement, e: Env)
    requires Inv(w.s) && (st.kind.Read? || st.kind.Write?) && !w.s.state.autocommit && w.s.tx.None?
    ensures Explained(w, Query(st), e, QueryCommand(w, st, e))
  {
    hide Replay, Commits, TallyOf, BeginTransaction, RunText, QueryCommand, Inv, Explained, Begins, Answer;
    var (x, ok) := BeginTransaction(w, e);
    ImplicitFrom(w, st, e, x, ok);
    BeginTally(w, e, x, ok);
    if ok { ImplicitRuns(w, st, e, x); } else { ImplicitFails(w, st, e, x); }
  }

  lemma ImplicitFails(w: World, st: Statement, e: Env, x: World)
    requires (st.kind.Read? || st.kind.Write?) && !w.s.state.autocommit && w.s.tx.None?
    requires Begins(w.s, e, x.s, false, TallyOf(w.s.log), TallyOf(x.s.log))
    ensures Explained(w, Query(st), e, Answer(x, e, UpstreamError))
  {
    hide TallyOf, ReturnsRows, NamesDatabase;
  }

  lemma ImplicitRuns(w: World, st: Statement, e: Env, x: World)
    requires (st.kind.Read? || st.kind.Write?) && !w.s.state.autocommit && w.s.tx.None?
    requires Begins(w.s, e, x.s, true, TallyOf(w.s.log), TallyOf(x.s.log))
    ensures Explained(w, Query(st), e, RunText(x, st.sql, st.kind.Read?, e))
  {
    hide TallyOf, RunText, ReturnsRows, NamesDatabase;
    RunTally(x, st.sql, st.kind.Read?, e);
  }

  lemma LocalExplained(w: World, st: Statement, e: Env)
    requires !Work(Query(st)) && !(st.kind.Begin? || st.kind.Commit? || st.kind.Rollback? || st.kind.AutocommitOn?)
    ensures Explained(w, Query(st), e, QueryCommand(w, st, e))
  {
    hide Replay, Commits, TallyOf, BeginTransaction, CommitCommand, RollbackCommand, AutocommitOnCommand, RunText, EnsureImplicit, ReturnsRows;
    hide NamesDatabase, Text.Fields, Text.TrimAll;
    if st.kind.UseDatabase? { NamesDatabaseIff(w.s, st.sql); }
  }

  lemma BeginExplained(w: World, st: Statement, e: Env)
    requires Inv(w.s) && st.kind.Begin?
    ensures Explained(w, Query(st), e, QueryCommand(w, st, e))
  {
    hide Replay, Commits, TallyOf, BeginTransaction, Physical, ReturnsRows, NamesDatabase;
    if w.s.tx.None? {
      var (x, ok) := BeginTransaction(w, e);
      BeginTally(w, e, x, ok);
    }
  }

  lemma RegisterTally(y: World, stmt: Stmt, st: Statement, e: Env)
    ensures var o, id := Register(y, stmt, st, e), NextId(y.s.nextId);
            && TallyOf(o.w.s.log) == TallyOf(y.s.log)
            && o.alive == e.write
            && o.reply == (if !e.write then Silent else if id in y.s.state.prepared then UpstreamError else PreparedOk(id))
            && o.w.s.state == y.s.state.(prepared := o.w.s.state.prepared)
  {
    hide Replay, Commits, TallyOf;
    var id := NextId(y.s.nextId);
    EmitTally(y.(s := y.s.(nextId := id, prepared := y.s.prepared[id := Handle(Some(stmt), y.s.tx.Some?, st)])), CloseStmts({stmt}));
  }

  /** A prepare that is not refused, from tally `t` to tally `u`. */
  predicate Prepares(s: Session, e: Env, o: Outcome, t: Tally, u: Tally) {
    var denied, id := s.pinned.None? && (!e.admitted || e.checkout.None?), NextId(s.nextId);
    && o.alive == e.write
    && (denied ==> u == t)
    && (!denied && e.prepare ==> u == t.(prepared := t.prepared + 1))
    && (!denied && !e.prepare ==>
          && u == t.(prepareFailed := t.prepareFailed + 1, discarded := u.discarded)
          && t.discarded <= u.discarded <= t.discarded + 1)
    && o.reply == (if !e.write then Silent else if denied || !e.prepare || id in s.state.prepared then UpstreamError else PreparedOk(id))
    && (o.w.s.state.warnings, o.w.s.state.lastInsertId) == (s.state.warnings, s.state.lastInsertId)
  }

  lemma PrepareTally(w: World, st: Statement, e: Env)
    requires Preparable(w.s, st)
    ensures var o := PrepareCommand(w, st, e);
            Prepares(w.s, e, o, TallyOf(w.s.log), TallyOf(o.w.s.log))
  {
    hide Replay, Commits, TallyOf, EnsurePinned, ReleasePinned, Register, CurrentStmt;
    var (x, p) := EnsurePinned(w, e);
    PinTally(w, e, x, p);
    if !p.Denied? {
      var stmt := CurrentStmt(x.s);
      EmitTally(x, PrepareStmt(stmt, e.prepare));
      var y := Emit(x, PrepareStmt(stmt, e.prepare));
      ReleaseTally(y, true);
      RegisterTally(y.(s := y.s.(stmts := y.s.stmts + 1)), stmt, st, e);
    }
  }

  lemma PrepareExplained(w: World, st: Statement, e: Env)
    requires Inv(w.s)
    ensures Explained(w, Prepare(st), e, PrepareCommand(w, st, e))
  {
    hide Replay, Commits, TallyOf, EnsurePinned, ReleasePinned, Register, CurrentStmt, Tracked, ReturnsRows, NamesDatabase;
    if Preparable(w.s, st) { PrepareTally(w, st, e); }
  }

  lemma ReadyTally(w: World, id: uint32, e: Env, x: World, ok: bool)
    requires id in w.s.prepared && w.s.pinned.Some? && StatementForExecution(w, id, e) == (x, ok)
    ensures var t, u := TallyOf(w.s.log), TallyOf(x.s.log);
            && u == t.(prepared := u.prepared, prepareFailed := u.prepareFailed)
            && u.prepareFailed == t.prepareFailed + (if ok then 0 else 1)
            && (u.prepared > t.prepared ==> e.prepare) && (!ok ==> !e.prepare)
            && x.s.state == w.s.state && id in x.s.prepared && x.s.prepared[id].query == w.s.prepared[id].query
  {
    hide Replay, Commits, TallyOf, CurrentStmt;
    var h := w.s.prepared[id];
    if h.statement.None? || (h.transactionBound && w.s.tx.None?) {
      var x := if h.statement.Some? then Emit(w, CloseStmts({h.statement.value})) else w;
      if h.statement.Some? { EmitTally(w, CloseStmts({h.statement.value})); }
      EmitTally(x, PrepareStmt(CurrentStmt(x.s), e.prepare));
    }
  }

  /** An execution whose handle is live and whose arguments decode, from tally `t` to tally `u`. */
  predicate Executes(s: Session, id: uint32, arguments: seq<BinaryValues.Value>, e: Env, o: Outcome, t: Tally, u: Tally)
    requires id in s.prepared
  {
    var begins := !s.state.autocommit && s.tx.None?;
    var failed := u.beginFailed > t.beginFailed || (u.begun > t.begun && s.state.inTransaction) || u.prepareFailed > t.prepareFailed;
    && (o.alive <==> e.write)
    && u == t.(sent := u.sent, last := u.last, begun := u.begun, beginFailed := u.beginFailed, rolledBack := u.rolledBack,
               rollbackBroken := u.rollbackBroken, prepared := u.prepared, prepareFailed := u.prepareFailed, returned := u.returned)
    && t.returned <= u.returned <= t.returned + 1 && (u.returned > t.returned ==> u.prepareFailed == t.prepareFailed)
    && t.begun <= u.begun && t.prepareFailed <= u.prepareFailed && t.rolledBack <= u.rolledBack
    && (u.rolledBack > t.rolledBack || u.rollbackBroken > t.rollbackBroken ==> u.begun > t.begun && s.state.inTransaction)
    && Recorded(e, t, u)
    && u.sent == t.sent + (if failed then 0 else 1)
    && (!failed ==> u.last.Some? && u.last.value.RunPrepared? && u.last.value.query == s.prepared[id].query && u.last.value.arguments == arguments)
    && o.reply == (if !e.write then Silent else if failed || !e.run then UpstreamError
                   else Ran(o.w.s.state.autocommit, o.w.s.state.inTransaction))
    && (o.w.s.state.warnings, o.w.s.state.lastInsertId) ==
         (if !failed && e.run then (e.warnings, if ReturnsRows(s.prepared[id].query) then 0 else e.insertId)
          else if u.begun > t.begun then (0, 0) else (s.state.warnings, s.state.lastInsertId))
  }

  /** The same without an implicit BEGIN. */
  predicate ExecutesDirectly(s: Session, id: uint32, arguments: seq<BinaryValues.Value>, e: Env, o: Outcome, t: Tally, u: Tally)
    requires id in s.prepared
  {
    var ready := u.prepareFailed == t.prepareFailed;
    && u == t.(sent := u.sent, last := u.last, prepared := u.prepared, prepareFailed := u.prepareFailed)
    && (!ready ==> u.prepareFailed == t.prepareFailed + 1 && !e.prepare)
    && (u.prepared > t.prepared ==> e.prepare)
    && u.sent == t.sent + (if ready then 1 else 0)
    && (ready ==> u.last.Some? && u.last.value.RunPrepared? && u.last.value.query == s.prepared[id].query && u.last.value.arguments == arguments)
    && o.w.s.state == (if ready && e.run
                       then s.state.(warnings := e.warnings, lastInsertId := if ReturnsRows(s.prepared[id].query) then 0 else e.insertId)
                       else s.state)
    && o.alive == e.write
    && o.reply == (if !e.write then Silent else if ready && e.run then Ran(s.state.autocommit, s.state.inTransaction) else UpstreamError)
  }

  lemma ExecuteFrom(w: World, id: uint32, arguments: seq<BinaryValues.Value>, e: Env, y: World, ready: bool)
    requires id in w.s.prepared && w.s.pinned.Some? && (w.s.state.autocommit || w.s.tx.Some?)
    requires StatementForExecution(w, id, e) == (y, ready)
    ensures ExecuteCommand(w, id, Some(arguments), e) ==
              if !ready then Answer(y, e, UpstreamError)
              else Report(Emit(y, ExecutionOf(y.s, id, arguments)), ReturnsRows(y.s.prepared[id].query), e)
  {
    hide Replay, Commits, BeginTransaction, StatementForExecution, ReturnsRows, ExecutionOf, Report;
  }

  lemma ReportOutcome(w: World, rows: bool, e: Env)
    ensures var o := Report(w, rows, e);
            && o.w.s.log == w.s.log && o.alive == e.write
            && o.w.s.state == (if e.run then w.s.state.(warnings := e.warnings, lastInsertId := if rows then 0 else e.insertId) else w.s.state)
            && o.reply == (if !e.write then Silent else if e.run then Ran(w.s.state.autocommit, w.s.state.inTransaction) else UpstreamError)
  {
  }

  lemma DirectTally(w: World, id: uint32, arguments: seq<BinaryValues.Value>, e: Env)
    requires id in w.s.prepared && w.s.pinned.Some? && (w.s.state.autocommit || w.s.tx.Some?)
    ensures var o := ExecuteCommand(w, id, Some(arguments), e);
            ExecutesDirectly(w.s, id, arguments, e, o, TallyOf(w.s.log), TallyOf(o.w.s.log))
  {
    hide Replay, Commits, TallyOf, ExecuteCommand, StatementForExecution, ReturnsRows, Report;
    var (y, ready) := StatementForExecution(w, id, e);
    ExecuteFrom(w, id, arguments, e, y, ready);
    ReadyTally(w, id, e, y, ready);
    if ready {
      var call := ExecutionOf(y.s, id, arguments);
      EmitTally(y, call);
      ReportOutcome(Emit(y, call), ReturnsRows(y.s.prepared[id].query), e);
    }
  }

  lemma ExecuteAgain(w: World, id: uint32, arguments: seq<BinaryValues.Value>, e: Env, x: World, ok: bool)
    requires id in w.s.prepared && !w.s.state.autocommit && w.s.tx.None? && BeginTransaction(w, e) == (x, ok)
    ensures ok && x.s.tx.Some? && x.s.prepared == w.s.prepared ==>
              ExecuteCommand(w, id, Some(arguments), e) == ExecuteCommand(x, id, Some(arguments), e)
    ensures !ok ==> ExecuteCommand(w, id, Some(arguments), e) == Answer(x, e, UpstreamError)
  {
    hide Replay, Commits, BeginTransaction, StatementForExecution, ReturnsRows, ExecutionOf, Report;
  }

  lemma ExecuteTally(w: World, id: uint32, arguments: seq<BinaryValues.Value>, e: Env)
    requires Inv(w.s) && id in w.s.prepared
    ensures var o := ExecuteCommand(w, id, Some(arguments), e);
            Executes(w.s, id, arguments, e, o, TallyOf(w.s.log), TallyOf(o.w.s.log))
  {
    hide Replay, Commits, TallyOf, BeginTransaction, ExecuteCommand, Tracked, ReturnsRows;
    if w.s.state.autocommit || w.s.tx.Some? {
      DirectTally(w, id, arguments, e);
    } else {
      var (x, ok) := BeginTransaction(w, e);
      BeginTally(w, e, x, ok);
      ExecuteAgain(w, id, arguments, e, x, ok);
      if ok { DirectTally(x, id, arguments, e); }
    }
  }

  lemma ExecuteExplained(w: World, id: uint32, arguments: Option<seq<BinaryValues.Value>>, e: Env)
    requires Inv(w.s)
    ensures Explained(w, Execute(id, arguments), e, ExecuteCommand(w, id, arguments, e))
  {
    hide Replay, Commits, TallyOf, Inv, EnsureImplicit, StatementForExecution, ExecutionOf, Report, ReturnsRows, NamesDatabase;
    if id in w.s.prepared && arguments.Some? {
      assert ExecuteCommand(w, id, arguments, e) == ExecuteCommand(w, id, Some(arguments.value), e);
      ExecuteTally(w, id, arguments.value, e);
    }
  }

  lemma CloseTally(w: World, id: uint32)
    ensures var o, t := CloseCommand(w, id), TallyOf(w.s.log);
            && TallyOf(o.w.s.log) == t.(returned := TallyOf(o.w.s.log).returned)
            && t.returned <= TallyOf(o.w.s.log).returned <= t.returned + 1
            && o.reply.Silent? && o.alive
            && (o.w.s.state.warnings, o.w.s.state.lastInsertId) == (w.s.state.warnings, w.s.state.lastInsertId)
  {
    hide Replay, Commits, TallyOf, ReleasePinned;
    if id in w.s.prepared {
      var h := w.s.prepared[id];
      if h.statement.Some? { EmitTally(w, CloseStmts({h.statement.value})); }
      ReleaseTally(Forget(w, id), false);
    }
  }

  lemma CloseExplained(w: World, id: uint32, e: Env)
    ensures Explained(w, CloseStmt(id), e, CloseCommand(w, id))
  {
    hide Replay, Commits, TallyOf, CloseCommand, ReturnsRows, NamesDatabase;
    CloseTally(w, id);
  }

  /** Every command of a session in its invariant is answered by what happened upstream, and by nothing else. */
  lemma RepliesExplained(w: World, command: Command, e: Env)
    requires Inv(w.s)
    ensures Explained(w, command, e, Dispatch(w, command, e))
  {
    hide Replay, Commits, TallyOf, Inv, Explained, QueryCommand, PrepareCommand, ExecuteCommand, CloseCommand;
    match command
    case Query(st) =>
      if Work(command) {
        WorkExplained(w, st, e);
      } else if st.kind.Commit? || st.kind.Rollback? || st.kind.AutocommitOn? {
        if w.s.tx.Some? { EndExplained(w, st, e); } else { EndNothingExplained(w, st, e); }
      } else if st.kind.Begin? {
        BeginExplained(w, st, e);
      } else {
        LocalExplained(w, st, e);
      }
    case Prepare(st) => PrepareExplained(w, st, e);
    case Execute(id, arguments) => ExecuteExplained(w, id, arguments, e);
    case CloseStmt(id) => CloseExplained(w, id, e);
    case _ => PlainExplained(w, command, e);
  }

  /** The commands without statements. */
  lemma PlainExplained(w: World, command: Command, e: Env)
    requires !command.Query? && !command.Prepare? && !command.Execute? && !command.CloseStmt?
    ensures Explained(w, command, e, Dispatch(w, command, e))
  {
    hide Replay, Commits, TallyOf;
  }

  /**
   * After every run, whatever command comes next and whatever upstream answers: the reply, the end of
   * the session, the statement sent, the diagnostics and the fate of the connection are the ones
   * `Explained` names.
   */
  lemma RepliesOverEveryRun(b: Baseline, c: Counters, turns: seq<Turn>, next: Turn)
    requires b.charset == "utf8mb4"
    requires SessionRuns.Prepares(turns) < SessionRuns.PrepareLimit && SessionRuns.ExclusiveRun(World(NewSession(b), c), turns)
    ensures var (x, alive) := RunTurns(World(NewSession(b), c), turns);
            alive ==> Explained(x, next.command, next.e, Dispatch(x, next.command, next.e))
  {
    hide Replay, Commits, RunTurns, Inv, Explained, Dispatch;
    SessionRuns.RunKeeps(b, c, turns);
    var (x, alive) := RunTurns(World(NewSession(b), c), turns);
    if alive { RepliesExplained(x, next.command, next.e); }
  }

  /** Ending the open transaction poisons the session if and only if upstream did not end it as asked. */
  lemma PoisonedIff(w: World, st: Statement, e: Env)
    requires w.s.tx.Some? && (st.kind.Commit? || st.kind.Rollback? || st.kind.AutocommitOn?)
    ensures var t, u := TallyOf(w.s.log), TallyOf(QueryCommand(w, st, e).w.s.log);
            QueryCommand(w, st, e).w.s.state.poisoned
            <==> w.s.state.poisoned || u.commitFailed > t.commitFailed || u.rollbackBroken > t.rollbackBroken
  {
    hide Replay, Commits, TallyOf, FinishTransaction;
    CommitTally(w, e);
    RollbackTally(w, e);
    AutocommitOnTally(w, e);
    var c := if st.kind.Rollback? then RollbackTx(w.s.tx.value, e.rollback) else CommitTx(w.s.tx.value, e.commit);
    var x := Emit(w, c);
    FinishTally(x);
    FinishTally(Bump(x));
    FinishTally(ApplyKind(x, Rollback));
    FinishTally(Bump(ApplyKind(x, Commit)));
  }

  /** A session that ends gives nothing back to the pool: the connection it held is discarded. */
  lemma EndDiscards(w: World, e: Env)
    ensures var t, u := TallyOf(w.s.log), TallyOf(Close(w, e).s.log);
            && u.returned == t.returned
            && u.discarded == t.discarded + (if w.s.pinned.Some? then 1 else 0)
            && u.rolledBack + u.rollbackBroken == t.rolledBack + t.rollbackBroken + (if w.s.tx.Some? then 1 else 0)
            && u.committed == t.committed && u.commitFailed == t.commitFailed && u.sent == t.sent
    ensures CloseStmts(StatementsOf(w.s.prepared, false)) in Close(w, e).s.log
  {
    hide Replay, Commits, TallyOf, ReleasePinned;
    var x := if w.s.tx.Some?
             then var y := Emit(w, RollbackTx(w.s.tx.value, e.rollback)); y.(s := y.s.(tx := None))
             else w;
    if w.s.tx.Some? { EmitTally(w, RollbackTx(w.s.tx.value, e.rollback)); }
    EmitTally(x, CloseStmts(StatementsOf(x.s.prepared, false)));
    var y := Emit(x, CloseStmts(StatementsOf(x.s.prepared, false)));
    ReleaseTally(ForgetAll(y), true);
    assert y.s.log[|y.s.log| - 1] == CloseStmts(StatementsOf(w.s.prepared, false));
    LogGrowth.ReleaseGrows(y, ForgetAll(y), true);
  }
}
