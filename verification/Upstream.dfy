/**
 * The calls a client session makes on the admission channel and on `database/sql`,
 * and the discipline those calls have to follow: a small automaton that accepts a call
 * log exactly when every call is legal where it stands. The automaton knows nothing of
 * the session; the session is proved to produce only accepted logs.
 */
module Upstream {
  import opened Wrappers
  import opened Statements
  import BinaryValues

  type ConnId = nat

  /** An upstream transaction (`*sql.Tx`) with the connection it was begun on. */
  datatype Tx = Tx(id: nat, conn: ConnId)

  /** An upstream statement (`*sql.Stmt`) with its connection and, if it was prepared through a transaction, that one. */
  datatype Stmt = Stmt(id: nat, conn: ConnId, tx: Option<nat>)

  /** What `Tx.Rollback` returned: nil, `sql.ErrTxDone`, or any other error. */
  datatype Ending = Done | AlreadyDone | Broken

  datatype Call =
    | Acquire
    | Release
    | Checkout(conn: ConnId)
    | CloseConn(conn: ConnId, discard: bool)
    | BeginTx(tx: Tx, ok: bool)
    | CommitTx(tx: Tx, ok: bool)
    | RollbackTx(tx: Tx, ending: Ending)
    | PrepareStmt(stmt: Stmt, ok: bool)
    | CloseStmts(stmts: set<Stmt>)
    | Run(conn: ConnId, via: Option<Tx>, sql: string)
    | RunPrepared(stmt: Stmt, via: Option<Tx>, query: Statement, arguments: seq<BinaryValues.Value>)

  /** What a legal log leaves behind. */
  datatype Track = Track(
    begun: nat,             // transactions begun so far
    open: Option<Tx>,       // the transaction that has not ended
    held: set<ConnId>,      // connections checked out and not closed
    slots: nat,             // admission slots taken and not released
    stmts: nat,             // statements prepared so far
    live: set<Stmt>)        // statements that may still be executed

  const FreshTrack := Track(0, None, {}, 0, 0, {})

  /** The open transaction, when it runs on `conn`. */
  function OpenOn(k: Track, conn: ConnId): Option<Tx> {
    if k.open.Some? && k.open.value.conn == conn then k.open else None
  }

  /** A transaction's own statements die with it. */
  function EndTx(k: Track): Track {
    k.(open := None, live := set x | x in k.live && x.tx.None?)
  }

  /** One call, or None when the call is illegal in this state. */
  function Advance(t: Option<Track>, c: Call): Option<Track> {
    if t.None? then None else
    var k := t.value;
    match c
    case Acquire => Some(k.(slots := k.slots + 1))
    case Release => if k.slots == 0 then None else Some(k.(slots := k.slots - 1))
    case Checkout(conn) =>
      // every connection is taken under a slot of its own
      if conn in k.held || |k.held| >= k.slots then None else Some(k.(held := k.held + {conn}))
    case CloseConn(conn, _) =>
      if conn !in k.held || OpenOn(k, conn).Some? then None
      else Some(k.(held := k.held - {conn}, live := set x | x in k.live && x.conn != conn))
    case BeginTx(tx, ok) =>
      if k.open.Some? || tx.conn !in k.held || tx.id != k.begun then None
      else if ok then Some(k.(begun := k.begun + 1, open := Some(tx))) else t
    case CommitTx(tx, _) => if k.open != Some(tx) then None else Some(EndTx(k))
    case RollbackTx(tx, _) => if k.open != Some(tx) then None else Some(EndTx(k))
    case PrepareStmt(stmt, ok) =>
      var own := OpenOn(k, stmt.conn);
      if stmt.conn !in k.held || stmt.id != k.stmts then None
      else if stmt.tx != (if own.Some? then Some(own.value.id) else None) then None
      else if ok then Some(k.(stmts := k.stmts + 1, live := k.live + {stmt})) else t
    case CloseStmts(stmts) => Some(k.(live := k.live - stmts))
    case Run(conn, via, _) =>
      // work on a connection with an open transaction goes through that transaction
      if conn !in k.held || via != OpenOn(k, conn) then None else t
    case RunPrepared(stmt, via, _, _) =>
      if stmt !in k.live || stmt.conn !in k.held then None
      else if stmt.tx.Some? then
        if via.Some? || k.open != Some(Tx(stmt.tx.value, stmt.conn)) then None else t
      else if via != OpenOn(k, stmt.conn) then None else t
  }

  function Replay(log: seq<Call>): Option<Track> {
    if log == [] then Some(FreshTrack)
    else Advance(Replay(log[..|log| - 1]), log[|log| - 1])
  }

  lemma ReplaySnoc(log: seq<Call>, c: Call)
    ensures Replay(log + [c]) == Advance(Replay(log), c)
    ensures Commits(log + [c]) == Commits(log) + CommitsBy(c)
  {
    assert (log + [c])[..|log|] == log;
  }

  predicate Ends(c: Call, id: nat) {
    (c.CommitTx? || c.RollbackTx?) && c.tx.id == id
  }

  /** How many terminal calls a log makes on transaction `id`. */
  function Endings(log: seq<Call>, id: nat): nat {
    if log == [] then 0
    else Endings(log[..|log| - 1], id) + if Ends(log[|log| - 1], id) then 1 else 0
  }

  function CommitsBy(c: Call): nat {
    if c.CommitTx? && c.ok then 1 else 0
  }

  /** How many upstream commits a log saw succeed. */
  function Commits(log: seq<Call>): nat {
    if log == [] then 0 else Commits(log[..|log| - 1]) + CommitsBy(log[|log| - 1])
  }

  /** Whether `c` is work inside transaction `id` or ends it. */
  predicate Concerns(c: Call, id: nat) {
    || Ends(c, id)
    || (c.Run? && c.via.Some? && c.via.value.id == id)
    || (c.RunPrepared? && (c.stmt.tx == Some(id) || (c.via.Some? && c.via.value.id == id)))
    || (c.PrepareStmt? && c.stmt.tx == Some(id))
  }

  function ConnOf(c: Call): Option<ConnId> {
    match c
    case CommitTx(tx, _) => Some(tx.conn)
    case RollbackTx(tx, _) => Some(tx.conn)
    case Run(conn, _, _) => Some(conn)
    case RunPrepared(stmt, _, _, _) => Some(stmt.conn)
    case PrepareStmt(stmt, _) => Some(stmt.conn)
    case CloseConn(conn, _) => Some(conn)
    case _ => None
  }

  /** Every prefix of an accepted log is accepted. */
  lemma {:induction false} PrefixAccepted(log: seq<Call>, n: nat)
    requires n <= |log| && Replay(log).Some?
    ensures Replay(log[..n]).Some?
    decreases |log|
  {
    if n < |log| {
      PrefixAccepted(log[..|log| - 1], n);
      assert log[..|log| - 1][..n] == log[..n];
    } else {
      assert log[..n] == log;
    }
  }

  /**
   * In an accepted log every transaction begun has ended exactly once, except the open one,
   * which has not ended; ids never begun have no terminal call.
   */
  lemma {:induction false} EachTransactionEndsOnce(log: seq<Call>, id: nat)
    requires Replay(log).Some?
    ensures var k := Replay(log).value;
            && (k.open.Some? ==> k.open.value.id < k.begun)
            && Endings(log, id) == if id >= k.begun || (k.open.Some? && k.open.value.id == id) then 0 else 1
  {
    if log != [] {
      EachTransactionEndsOnce(log[..|log| - 1], id);
    }
  }

  /**
   * In an accepted log, a transaction begun at `i` and concerned at a later `j` stayed on its
   * connection: the later call is on the same connection, and nothing between closed that
   * connection or began another transaction.
   */
  lemma {:induction false} TransactionStaysOnItsConnection(log: seq<Call>, i: nat, j: nat, tx: Tx)
    requires Replay(log).Some?
    requires i < j < |log| && log[i] == BeginTx(tx, true) && Concerns(log[j], tx.id)
    ensures ConnOf(log[j]) == Some(tx.conn)
    ensures forall m | i < m < j :: !log[m].BeginTx? && log[m] != CloseConn(tx.conn, true) && log[m] != CloseConn(tx.conn, false) && !Ends(log[m], tx.id)
  {
    hide Replay;
    PrefixAccepted(log, j + 1);
    assert log[..j + 1] == log[..j] + [log[j]];
    ReplaySnoc(log[..j], log[j]);
    PrefixAccepted(log, j);
    OpenSince(log, i, j, tx);
  }

  /** A transaction that can still be concerned at `j` was open at every point since it began. */
  lemma {:induction false} OpenSince(log: seq<Call>, i: nat, j: nat, tx: Tx)
    requires i < j <= |log| && Replay(log[..j]).Some? && log[i] == BeginTx(tx, true)
    ensures var k := Replay(log[..j]).value;
            && tx.id < k.begun
            && (k.open.Some? && k.open.value.id == tx.id ==>
                  && k.open == Some(tx)
                  && forall m | i < m < j :: !log[m].BeginTx? && log[m] != CloseConn(tx.conn, true)
                                             && log[m] != CloseConn(tx.conn, false) && !Ends(log[m], tx.id))
    decreases j
  {
    hide Replay;
    assert log[..j] == log[..j - 1] + [log[j - 1]];
    ReplaySnoc(log[..j - 1], log[j - 1]);
    if j > i + 1 {
      OpenSince(log, i, j - 1, tx);
    }
  }

  /** From its preparation at `i` until `j` a statement was not closed, nor its connection, nor its transaction ended. */
  ghost predicate LiveBetween(log: seq<Call>, i: nat, j: nat, stmt: Stmt)
    requires i < j <= |log|
  {
    && log[i] == PrepareStmt(stmt, true)
    && forall m | i < m < j ::
         && !(log[m].CloseStmts? && stmt in log[m].stmts)
         && !(log[m].CloseConn? && log[m].conn == stmt.conn)
         && !(stmt.tx.Some? && (log[m].CommitTx? || log[m].RollbackTx?))
  }

  lemma {:induction false} LiveSince(log: seq<Call>, j: nat, stmt: Stmt) returns (i: nat)
    requires j <= |log| && Replay(log[..j]).Some? && stmt in Replay(log[..j]).value.live
    ensures i < j && LiveBetween(log, i, j, stmt)
    decreases j
  {
    assert j > 0;
    assert log[..j][..j - 1] == log[..j - 1] && log[..j][j - 1] == log[j - 1];
    if log[j - 1] == PrepareStmt(stmt, true) {
      i := j - 1;
    } else {
      i := LiveSince(log, j - 1, stmt);
    }
  }

  /** A prepared statement is executed in its own transaction, or lent to the one open on its connection. */
  ghost predicate RunsInPlace(log: seq<Call>, j: nat)
    requires j < |log| && log[j].RunPrepared?
  {
    && Replay(log[..j]).Some?
    && var k, stmt, via := Replay(log[..j]).value, log[j].stmt, log[j].via;
    && stmt.conn in k.held
    && (stmt.tx.Some? ==> via.None? && k.open == Some(Tx(stmt.tx.value, stmt.conn)))
    && (stmt.tx.None? ==> via == OpenOn(k, stmt.conn))
    && exists i: nat :: i < j && LiveBetween(log, i, j, stmt)
  }

  /** In an accepted log every execution of a prepared statement is in place and of a live statement. */
  lemma ExecutionsInPlace(log: seq<Call>, j: nat)
    requires Replay(log).Some? && j < |log| && log[j].RunPrepared?
    ensures RunsInPlace(log, j)
  {
    hide Replay;
    PrefixAccepted(log, j + 1);
    assert log[..j + 1] == log[..j] + [log[j]];
    ReplaySnoc(log[..j], log[j]);
    PrefixAccepted(log, j);
    var i := LiveSince(log, j, log[j].stmt);
  }
}
