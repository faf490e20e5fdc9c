# Verification of the pooled MySQL gateway

Database Accelerator puts a pool of upstream MySQL connections behind a MySQL listener. Clients
share the pool: a connection is pinned to a client only while a transaction is open or a prepared
handle is live, and every connection is reset before its next user. This project models that
gateway in Dafny and proves what sharing must not break.

* **Sessions** (`Upstream`, `LogicalState`, `Session`, `SessionInvariant`, `SessionRuns`, `Gateway`,
  `ClientSessions`, `Witnesses`). A session is a state machine whose every upstream answer (admission, checkout,
  begin, commit, rollback, prepare, run, reply written) is the environment's choice. `Session` gives
  the transitions on values, `ClientSessions` and `LogicalState` the objects and loops of the source,
  proved equal to them. Theorems speak of every run, and of every interleaving of any number of clients.
  `PreparedPackets` joins the sessions with the packets and parameters below; `Replies` says, of every
  command of every run, what the client is told, against a tally of the upstream calls, and `Leaks` that no
  upstream statement is left behind.
* **Simulation** (`Simulation`, `LogGrowth`, `Physical`). The pooled gateway against a reference in which
  every client owns a private connection, over any database engine given as functions; `Physical` joins
  it with the reset, so that connections carry what earlier users left and the engine may read it.
* **Admission** (`Admission`). The atomic steps of `acquire` and release as a state machine.
* **Checkout and reset** (`Words`, `Quoting`, `Reset`). An upstream session record, an upstream that may ignore
  or change settings, and what a returned connection is guaranteed to be.
* **Wire formats** (`Bits`, `Bytes`, `Decimal`, `Framing`, `FrameWalk`, `LengthEncoding`, `ResultSet`,
  `BinaryValues`, `DateText`, `BinaryRows`, `Execute`, `Arguments`, `LongDataRuns`, `Handshake`), after the MySQL
  Client/Server Protocol documentation: "MySQL Packets", "Protocol::LengthEncodedInteger", "Text
  Resultset", "Binary Protocol Resultset Row", "COM_STMT_EXECUTE", "COM_STMT_SEND_LONG_DATA",
  "Protocol::HandshakeResponse41". Each decoder is proved inverse to an encoder written from the
  standard, each encoder to a reader.
* **Statement classification** (`Text`, `Words`, `Classify`, `Lexing`, `StatementKinds`): the scanners
  against grammars of comments and literals, the kinds against the words of the statement.
* **The authentication limiter** (`AuthLimiter`, `InterleavedLimiter`, `Lockouts`): the table against the
  history of a host's failures.

`dafny verify dfyconfig.toml` checks the whole project.

## Where a property is not true of the code

Each of these has a concrete run or input and the exact condition under which the code meets the property.

* Classifying the SQL that classification returned may give another kind: `/*'*/CREATE TEMPORARY;;`
  (`TemporarySlipsThrough`, `ReclassifyIff`).
* A refused command may change the session: a SAVEPOINT outside a transaction clears pending
  diagnostics (`RefusedSavepointForgets`, `RefusedChangesNothingIff`). A refused execute packet changes
  no session state but may change its handle's parameters: long data is cleared and a type array may be
  kept (`ExecuteRefusedIff`).
* After a ROLLBACK that breaks upstream the session goes on, marked as in a transaction it does not
  have, and poisoned (`BrokenRollbackLeavesTheFlag`, `RollbackAgreesIff`).
* A handle id that wraps onto a live one loses the live handle (`WrapLosesHandle`, `PrepareKeepsTablesIff`).
* DDL is refused inside a transaction as text and at prepare, yet a definition prepared before can be
  executed inside one (`DefinitionInTransaction`, `DefinitionReachesTransactionIff`). A MySQL server then
  commits on its own, which the commit generation does not count: it counts Commit calls.
* A type array is lost when its execution is refused for a cursor or for too much long data
  (`CursorLosesTypes`, `AnnouncementSticksIff`).
* Type 0 (DECIMAL) cannot be used again without a new type array (`ZeroTypeIsNotReused`, `ArgumentsInvert`).
* A lockout may end early when handshakes of one host overlap: a failure that arrives while the host is
  locked out, after the window has run out, opens a new window and lifts the lockout
  (`LateFailureLiftsLockout`, `RefusedInterleavedIff`); attempts one at a time cannot (`RefusedIff`).
* The raw queued-bytes counter may stand above the limit between an add and its undo
  (`RawCounterMayOvershoot`, `RawCounterWithinLimitIff`); what has passed the check never does.

Some lemmas also say what would happen for values the code does not receive: frame sizes other than
the production one (`EncodeInvertsDecodeIff`), years beyond sixteen bits (`InstantStands`), a limiter
without room (`NoRoomTakesOne`), and an empty remote address as a limiter key (`EmptyKeyMisleads`,
`VictimIsOldestIff`; `KeysOfAddresses` shows that no other address gets that key). A comment in
`reset.go` says that old warnings force a discard; that is up to the server (`OldWarningsDiscardIff`).

SET AUTOCOMMIT=1 with an open transaction commits first, as `docs/SESSION_CONTRACT.md` line 14 says;
the reference of the simulation does the same.

## Model

| member | source | states |
|---|---|---|
| `Simulation.PooledRunMatchesPrivateConnections` | `internal/gateway/gateway.go:437-530` | for any number of clients, any interleaving of their text statements, prepares, executions, closes and departures, and any database engine, as long as upstream does not fail: the pooled gateway answers every accepted command exactly as a reference in which each client owns a private connection, and leaves the same committed store; commands it does not accept have no effect on the reference |
| `Simulation.StepRelated` | `internal/gateway/gateway.go:437-530` | one step of one client keeps the relation between the pool and all private connections, and the two answers are equal |
| `Simulation.SaySimulated` | `internal/gateway/gateway.go:437-530` | one command of one session: same store, same result, same handle id, same status flags as on a private connection when accepted, no change of the store when not; only its own connection's transaction is touched |
| `Simulation.AcceptedExactly` | `internal/gateway/gateway.go:437-530` | which commands are accepted without upstream failures, exactly: BEGIN without an open transaction and with a pin or a slot, DDL without one and with a slot, savepoints inside one, reads and writes inside one or with what they need to run, prepares of the three kinds with a pin or a slot, executions of live handles that decode, the others always |
| `Simulation.LeaveSimulated` | `internal/gateway/gateway.go:412-424` | a client that leaves has its open transaction rolled back, as a closed private connection would, and keeps no connection open |
| `Simulation.ExecuteSimulated` | `internal/gateway/prepared.go:115-171` | an execution runs in the client's open transaction, in one it begins when autocommit is off, or on its own, with the private connection's result, whether or not its statement had to be prepared again |
| `Simulation.PrepareSimulated` | `internal/gateway/prepared.go:36-97` | a prepare shows nothing on the server and gives the handle id a private connection would |
| `Physical.RealRunMatchesPrivateConnections` | `internal/gateway/reset.go:16-111` | the same equality on real connections: every checkout is the reset from whatever the connection was left in, on any honest upstream, and the engine may read the connection's settings; clients are answered as on private connections at the baseline |
| `Physical.StretchServed` | `internal/gateway/reset.go:16-111` | any stretch of a legal call log is served, on connections reset at checkout, exactly as by the one engine of the baseline |
| `LogGrowth.DispatchGrows` | `internal/gateway/gateway.go:270-309` | no command takes anything back from the session's call log |
| `SessionRuns.RunKeeps` | `internal/gateway/gateway.go:207-310` | for every run of commands with fewer than 2^32 prepares and every choice of upstream answers: the session invariant at each command boundary, nothing left at the end, and the shared counters hold exactly this session's share beyond the others' |
| `SessionRuns.ViewsAgreeAtEveryBoundary` | `internal/session/logical.go:166-187` | at every boundary of every run: pinned iff a transaction is open or a handle is live; the two handle tables have the same keys; unless poisoned, the transaction is open iff the logical record says so; Multiplexable only when nothing is pinned, never Replayable |
| `SessionRuns.SlotsAndGaugeBalance` | `internal/gateway/gateway.go:588-643` | between commands one admission slot and one unit of the pinned gauge iff pinned, on every success and error path; an ended session holds none |
| `Replies.RepliesOverEveryRun` | `internal/gateway/gateway.go:437-530` | after every run, for every next command and every answer of upstream: the client is told a result iff exactly its own statement was sent, succeeded and the reply was written; an SQL error iff admission, checkout, begin, prepare, rollback or the statement failed; a refusal, an OK, a handle id or a warning count iff the command and the session's state say so; the session ends iff the client quits or cannot be reached, a commit failed or the hook did |
| `Replies.RepliesExplained` | `internal/gateway/gateway.go:716-832` | the same for one command: reply, statement sent (text, or handle with arguments), diagnostics afterwards, and whether the connection is kept, returned or discarded, against a tally of the upstream calls made |
| `Replies.ExecuteExplained` | `internal/gateway/prepared.go:115-258` | an execution: a failed implicit begin, re-prepare or run is answered by an SQL error, success by the result of that statement with the decoded arguments |
| `Replies.PrepareExplained` | `internal/gateway/prepared.go:36-97` | a prepare: a failed admission, checkout or prepare is answered by an SQL error, and a failed prepare costs the connection when nothing else holds it; success by the next handle id |
| `Replies.EndExplained` | `internal/gateway/gateway.go:664-714` | COMMIT, ROLLBACK and SET AUTOCOMMIT=1 on an open transaction: acknowledged iff upstream ended it as asked, the hook passed and the reply was written |
| `Replies.PoisonedIff` | `internal/gateway/gateway.go:664-714` | ending the open transaction poisons the session iff upstream did not end it as asked |
| `Replies.EndDiscards` | `internal/gateway/gateway.go:412-424` | a session that ends rolls back its open transaction, commits nothing, and discards its connection instead of returning it |
| `SessionRuns.TransactionsOverARun` | `internal/gateway/gateway.go:561-714` | over every run each upstream transaction gets exactly one Commit or Rollback call by the end, all its calls are on the connection it began on, which is not closed in between, and the commit generation counts exactly the Commit calls that succeeded |
| `SessionRuns.HandlesBelongToTheCurrentTransaction` | `internal/gateway/prepared.go:155-171` | over every run every live handle's statement is on the pinned connection and, if bound, in the open transaction; a bound handle without a transaction never occurs |
| `Leaks.NothingLeaks` | `internal/gateway/prepared.go:292-332` | at every command boundary of every run the upstream statements prepared and not closed are exactly those of the live handles; an ended session leaves none |
| `SessionRuns.ExecutionsOverARun` | `internal/gateway/prepared.go:136-171` | every prepared statement any run executes was prepared earlier on the connection it runs on, which is still held, was not closed since, and runs in its own transaction if bound to one, otherwise through the one open on that connection |
| `SessionRuns.DefinitionReachesTransactionIff` | `internal/gateway/prepared.go:115-171` | an execution runs on the pinned connection, and a definition is executed inside a transaction iff its handle was prepared as a definition and a transaction is open or autocommit is off |
| `Witnesses.DefinitionInTransaction` | `internal/gateway/prepared.go:41-43` | concrete run: PREPARE of a definition, BEGIN, EXECUTE runs the definition in the open transaction |
| `Witnesses.RefusedSavepointForgets` | `internal/gateway/gateway.go:437-530` | concrete run: INSERT with a warning, then SAVEPOINT outside a transaction is refused and the warning is gone |
| `Witnesses.WrapLosesHandle` | `internal/gateway/prepared.go:57-79` | a run of 2^32 - 1 prepares and closes, within the session invariant, after which one more prepare drops handle 1 from the table while the logical record keeps it |
| `Upstream.ExecutionsInPlace` | `internal/gateway/prepared.go:155-171` | in a log the upstream automaton accepts every execution is of a live statement and in the right transaction |
| `PreparedPackets.PacketsJoin` | `internal/gateway/gateway.go:270-309` | over every run of client packets the session takes exactly the run of the commands they stand for, and each live handle's parameters are those its own packets lead to |
| `PreparedPackets.ExecuteRefusedIff` | `internal/gateway/prepared.go:115-135` | after every run an execute packet is refused iff it is too short, names no live handle, or does not decode against that handle's own packets; refused, it changes nothing but the parameters |
| `PreparedPackets.ExecuteRuns` | `internal/gateway/prepared.go:115-135` | after every run a well-formed execute packet becomes an execution with exactly its arguments' meanings, streamed ones the join of the chunks sent for that handle since its last clear, iff these kept to the limit and the types are known |
| `PreparedPackets.LongDataAnswered` | `internal/gateway/prepared.go:260-277` | after every run a long-data packet is answered, with a refusal, iff it is too short, names no live handle or no parameter of it; otherwise it is silent |
| `PreparedPackets.Understood` | `internal/gateway/prepared.go:115-135` | every packet is taken for the handle, parameter and data that its bytes name, little endian, and only when it is long enough to name them |
| `SessionRuns.CommitReplyFollowsCommit` | `internal/gateway/gateway.go:664-696` | a success reply that ends an open transaction by COMMIT or SET AUTOCOMMIT=1 is sent iff upstream committed, the hook passed and the reply was written, and then the log shows that commit and the generation moved by one |
| `SessionRuns.RollbackAgreesIff` | `internal/gateway/gateway.go:698-714` | after ROLLBACK of an open transaction the physical and logical views agree iff the upstream rollback did not break; when it broke the session is poisoned |
| `SessionRuns.BrokenRollbackLeavesTheFlag` | `internal/gateway/gateway.go:698-714` | concrete run: BEGIN, then a ROLLBACK that breaks upstream, leaves a live session without a transaction that is still marked as in one |
| `SessionRuns.PrepareKeepsTablesIff` | `internal/gateway/prepared.go:57-79` | a successful prepare keeps the handle tables equal iff the next 32-bit id is not live, so only a wrap onto a live handle breaks it |
| `SessionRuns.RefusedChangesNothingIff` | `internal/gateway/gateway.go:437-530` | a refused command makes no upstream call and moves no counter, and leaves the session untouched iff it is not a SAVEPOINT that clears pending diagnostics |
| `SessionRuns.RefusedPrepared` | `internal/gateway/prepared.go:36-45` | refused prepare and execute commands leave the world unchanged |
| `SessionRuns.DispatchKeeps` | `internal/gateway/gateway.go:270-309` | every command keeps the session invariant, ends the session cleanly or leaves it at a boundary |
| `SessionRuns.TurnKeeps` | `internal/gateway/gateway.go:270-309` | one served command of any session in the invariant, with the close that follows when it ends the session |
| `Gateway.CountersOverEveryInterleaving` | `internal/gateway/gateway.go:350-424` | over every interleaving of any number of clients: slots in use and the pinned gauge equal the number of pinned sessions, the generation the successful commits; with no session left the admission channel is empty |
| `Gateway.NextKeepsBalance` | `internal/gateway/gateway.go:350-424` | every connect and every served command of any client keeps that balance |
| `Gateway.CountersWithFewPrepares` | `internal/gateway/gateway.go:350-424` | the same over every run the pool and the listener permit in which no session serves 2^32 prepares |
| `Gateway.FewPreparesNeverWrap` | `internal/gateway/prepared.go:57-61` | in such a run no handle id wraps onto a live one |
| `Upstream.EachTransactionEndsOnce` | `internal/gateway/gateway.go:561-586` | in a log the upstream automaton accepts, every transaction begun has ended exactly once, except the open one |
| `Upstream.TransactionStaysOnItsConnection` | `internal/gateway/gateway.go:561-586` | in such a log every call that concerns a transaction is on the connection it began on, with no other begin and no close of that connection in between |
| `SessionInvariant.EnsurePinnedKeeps` | `internal/gateway/gateway.go:588-606` | pinning keeps the physical invariant whether it finds a pin, takes one or is denied |
| `SessionInvariant.EnsurePinnedFrame` | `internal/gateway/gateway.go:588-606` | pinning touches only pin, slot and log, creates a pin only with the connection checked out, and leaves the other sessions' share of the counters |
| `SessionInvariant.ReleasePinnedKeeps` | `internal/gateway/gateway.go:629-643` | releasing closes the connection once and returns slot and gauge |
| `SessionInvariant.BeginKeeps` | `internal/gateway/gateway.go:561-586` | BEGIN either opens one transaction on the pinned connection or leaves the session as it was, closing a half-open one |
| `SessionInvariant.InvalidateKeeps` | `internal/gateway/prepared.go:322-332` | invalidating closes exactly the statements bound to the ended transaction and keeps the handles |
| `SessionInvariant.FinishKeeps` | `internal/gateway/gateway.go:652-662` | ending a transaction unbinds its statements and releases the connection iff no handle is live |
| `SessionInvariant.CommitKeeps` | `internal/gateway/gateway.go:664-686` | COMMIT keeps the invariant on every path: failed commit, failed hook, failed write, success |
| `SessionInvariant.RollbackKeeps` | `internal/gateway/gateway.go:698-714` | ROLLBACK keeps the invariant for a rollback that is done, already done or broken |
| `SessionInvariant.BorrowKeeps` | `internal/gateway/gateway.go:716-749` | a statement in autocommit borrows a slot and a connection and returns both |
| `SessionInvariant.RunTextKeeps` | `internal/gateway/gateway.go:716-833` | a text statement keeps the invariant, in a transaction or on a borrowed connection |
| `SessionInvariant.SelectDbKeeps` | `internal/gateway/gateway.go:426-435` | selecting a database changes only the logical record |
| `SessionInvariant.QueryKeeps` | `internal/gateway/gateway.go:437-530` | every text statement kind keeps the invariant and the others' counters |
| `SessionInvariant.ImplicitKeeps` | `internal/gateway/gateway.go:645-650` | with autocommit off the first statement begins a transaction, or fails and leaves the session unpinned |
| `SessionInvariant.PrepareKeeps` | `internal/gateway/prepared.go:36-97` | prepare keeps the invariant on every path, including a failed upstream prepare that unpins |
| `SessionInvariant.RegisterKeeps` | `internal/gateway/prepared.go:57-79` | a statement just prepared gets the next id in both tables and the invariant holds |
| `SessionInvariant.ReadyKeeps` | `internal/gateway/prepared.go:155-171` | re-preparing an invalidated handle binds it to the current connection and transaction |
| `SessionInvariant.ExecuteKeeps` | `internal/gateway/prepared.go:115-153` | execute keeps the invariant on every path |
| `SessionInvariant.CloseCommandKeeps` | `internal/gateway/prepared.go:292-310` | closing a handle closes its statement once and unpins iff it was the last and no transaction is open |
| `SessionInvariant.CloseKeeps` | `internal/gateway/gateway.go:412-424` | session close rolls back, closes every statement, releases the connection and leaves nothing |
| `ClientSessions.ClientSession.Acquire` | `internal/gateway/gateway.go:350-355` | takes a slot iff admitted |
| `ClientSessions.ClientSession.Release` | `internal/gateway/gateway.go:384-386` | returns the slot |
| `ClientSessions.ClientSession.EnsurePinnedConnection` | `internal/gateway/gateway.go:588-606` | equals `EnsurePinned` on the session's value |
| `ClientSessions.ClientSession.ReleasePinnedConnection` | `internal/gateway/gateway.go:629-643` | equals `ReleasePinned` |
| `ClientSessions.ClientSession.Begin` | `internal/gateway/gateway.go:561-586` | equals `BeginTransaction` |
| `ClientSessions.ClientSession.EnsureImplicitTransaction` | `internal/gateway/gateway.go:645-650` | equals `EnsureImplicit` |
| `ClientSessions.ClientSession.InvalidateTransactionPrepared` | `internal/gateway/prepared.go:322-332` | the loop over the handle table equals `Invalidated`: bound statements closed and cleared, the others kept |
| `ClientSessions.ClientSession.Finish` | `internal/gateway/gateway.go:652-662` | equals `FinishTransaction` |
| `ClientSessions.ClientSession.Write` | `internal/gateway/gateway.go:850-853` | reports whether the reply reached the client |
| `ClientSessions.ClientSession.Commit` | `internal/gateway/gateway.go:664-696` | equals `CommitCommand` |
| `ClientSessions.ClientSession.Rollback` | `internal/gateway/gateway.go:698-714` | equals `RollbackCommand` |
| `ClientSessions.ClientSession.SetAutocommitOn` | `internal/gateway/gateway.go:474-491` | equals `AutocommitOnCommand` |
| `ClientSessions.ClientSession.ReportResult` | `internal/gateway/gateway.go:741-748` | equals `Report`, whose answer to success and failure `Replies.RepliesExplained` states |
| `ClientSessions.ClientSession.RunStatement` | `internal/gateway/gateway.go:716-833` | equals `RunText` |
| `ClientSessions.ClientSession.InitDatabase` | `internal/gateway/gateway.go:426-435` | equals `SelectDb` |
| `ClientSessions.ClientSession.Query` | `internal/gateway/gateway.go:437-530` | equals `QueryCommand` for every statement kind |
| `ClientSessions.ClientSession.PrepareOnCurrentConnection` | `internal/gateway/prepared.go:99-104` | prepares through the transaction when there is one |
| `ClientSessions.ClientSession.RegisterHandle` | `internal/gateway/prepared.go:57-79` | equals `Register`, with the 32-bit id that skips zero |
| `ClientSessions.ClientSession.PrepareStatement` | `internal/gateway/prepared.go:36-97` | equals `PrepareCommand` |
| `ClientSessions.ClientSession.ReadyStatement` | `internal/gateway/prepared.go:155-171` | equals `StatementForExecution` |
| `ClientSessions.ClientSession.ExecutePrepared` | `internal/gateway/prepared.go:115-153` | equals `ExecuteCommand` |
| `ClientSessions.ClientSession.ClosePrepared` | `internal/gateway/prepared.go:292-310` | equals `CloseCommand` |
| `ClientSessions.ClientSession.DropHandles` | `internal/gateway/prepared.go:312-320` | the loop empties both handle tables |
| `ClientSessions.ClientSession.CloseAllPrepared` | `internal/gateway/prepared.go:312-320` | equals closing and forgetting every handle |
| `ClientSessions.ClientSession.CloseSession` | `internal/gateway/gateway.go:412-424` | equals `Close` |
| `ClientSessions.ClientSession.HandleCommand` | `internal/gateway/gateway.go:270-309` | equals `Dispatch` |
| `ClientSessions.ClientSession.HandleClient` | `internal/gateway/gateway.go:263-310` | the command loop equals `RunTurns`, so for every script of commands and answers: the invariant while open, nothing left once ended, slot and gauge moved by exactly this session's pin, the generation by exactly its successful commits |
| `LogicalState.Logical.constructor` | `internal/session/logical.go:67-71` | a fresh record of the baseline |
| `LogicalState.Logical.Reset` | `internal/session/logical.go:73-90` | everything back to the baseline |
| `LogicalState.Logical.Apply` | `internal/session/logical.go:92-130` | equals `Applied`: each kind's state change, and the refusals, diagnostics cleared either way |
| `LogicalState.Logical.SelectDatabase` | `internal/session/logical.go:132-138` | accepts any non-empty name |
| `LogicalState.Logical.SetResult` | `internal/session/logical.go:140-143` | stores warnings and last insert id |
| `LogicalState.Logical.AddPrepared` | `internal/session/logical.go:145-154` | adds an id that is not zero and not live, refuses others |
| `LogicalState.Logical.RemovePrepared` | `internal/session/logical.go:156-162` | removes a live id and says whether there was one |
| `LogicalState.Logical.Poison` | `internal/session/logical.go:164` | marks the record |
| `LogicalState.Logical.Reuse` | `internal/session/logical.go:166-187` | the decision and pin reason equal `ReuseOf`, without change |
| `LogicalState.Logical.Disconnect` | `internal/session/logical.go:189-191` | equals a reset |
| `LogicalState.AppliedByPart` | `internal/session/logical.go:92-130` | part by part: every statement clears the diagnostics, SET NAMES alone touches the settings, autocommit and the transaction flag follow their own statements, an unknown kind alone poisons; and which statements are refused |
| `LogicalState.ReuseIff` | `internal/session/logical.go:166-187` | which sessions may share connections, may be replayed, or are pinned, and for which reason first |
| `Admission.BoundsOverEveryInterleaving` | `internal/gateway/gateway.go:350-387` | at every point of every interleaving of the atomic steps of `acquire`, cancellation and release: admission tokens are the holders and within the limit, queue tokens the queued clients and within theirs, the gauge within the queue, the bytes past the check within the byte limit, the raw counter exactly the added bytes and within queue length times limit |
| `Admission.StepKeepsInv` | `internal/gateway/gateway.go:350-387` | every enabled step of every client keeps the counters equal to the sums over the clients' phases |
| `Admission.InvOverEveryInterleaving` | `internal/gateway/gateway.go:350-387` | so do all interleavings |
| `Admission.OnlyAdmissionBlocks` | `internal/gateway/gateway.go:350-387` | a client inside acquire or holding a slot is stuck iff it waits for a full admission channel: no release and no dequeue blocks |
| `Admission.IdleClientOwesNothing` | `internal/gateway/gateway.go:350-387` | when a client is back to idle, after success and release or after any failure, every counter is exactly what the other clients account for |
| `Admission.RawCounterMayOvershoot` | `internal/gateway/gateway.go:367-380` | concrete interleaving, with one slot in use and two requests of three bytes against a limit of four, in which the raw byte counter stands above the limit between an add and its undo |
| `Admission.StepWithinLimitIff` | `internal/gateway/gateway.go:367-374` | from within the limit a step leaves the raw counter within it iff it does not add more than the limit leaves room for |
| `Admission.RawCounterWithinLimitIff` | `internal/gateway/gateway.go:367-374` | over every interleaving the raw counter stays within the limit iff no step adds too much |
| `Admission.OnlyPendingUndoExceeds` | `internal/gateway/gateway.go:367-374` | at every point of every interleaving the raw counter is within the limit unless some client stands between a failed add and its undo |
| `Admission.DecisionsOverEveryInterleaving` | `internal/gateway/gateway.go:350-387` | at every step of every interleaving: a client gets a slot at once iff the others leave one free, is refused iff its request is too large by itself, the others fill the queue, or its bytes and theirs exceed the limit, and waits otherwise; from the queue it leaves with a slot iff it did not give up |
| `Reset.ResetCleans` | `internal/gateway/reset.go:37-106` | for every upstream that rolls back when it says so, every leftover state and every answer: a reset that succeeds leaves no transaction, read-write mode, the baseline's database, autocommit, charset, collation, SQL mode, time zone and a level of the same words as its isolation, and no warnings |
| `Reset.NothingSurvives` | `internal/gateway/reset.go:37-106` | two connections left in any states by any users are indistinguishable after reset, up to the spelling of the isolation level |
| `Reset.LevelRestored` | `internal/gateway/reset.go:83-125` | after a reset that succeeds the connection is at the one of the four isolation levels that the baseline's words name, in whatever spelling |
| `Reset.VerifyIff` | `internal/gateway/reset.go:83-106` | on any upstream the final check passes iff every question was answered, the isolation level under its older name only when the newer is unknown, every setting is the baseline's, the level has its words and no warnings are counted |
| `Reset.CheckoutIsClean` | `internal/gateway/reset.go:16-35` | checkout takes the first offered connection whose reset succeeds, and it is clean; discarded and counted are exactly the connections offered before it, or all when none fits |
| `Reset.ObligingResetIff` | `internal/gateway/reset.go:37-106` | with an upstream that does what each command says, reset succeeds iff the baseline is supported, there is a database to return to or none was chosen, no old warnings stand, and no setting holds a backslash the connection would read as an escape |
| `Reset.ObligingIsHonest` | `internal/gateway/reset.go:37-70` | such an upstream meets the demands the safety theorems make |
| `Reset.OldWarningsDiscardIff` | `internal/gateway/reset.go:60-66` | with a supported baseline old warnings cost the connection iff the server keeps them through statements without tables |
| `Reset.RequireNoResetWarnings` | `internal/gateway/reset.go:72-81` | true iff the count was read and is zero |
| `Reset.VerifyReset` | `internal/gateway/reset.go:83-106` | equals `Verify`, with the older variable name when the newer is unknown |
| `Reset.ResetConnection` | `internal/gateway/reset.go:37-70` | the command loop equals `ResetFrom`, with warnings looked at from the second command on |
| `Reset.Service.Checkout` | `internal/gateway/reset.go:16-35` | the two-attempt loop equals `TryFrom` on the pool's two answers; `resetDiscards` grows by its count, and the connections discarded are exactly those offered before the one returned |
| `Reset.Connection.Discard` | `internal/gateway/reset.go:108-111` | the connection is marked as never to be used again |
| `Quoting.UnquoteQuotedIff` | `internal/gateway/reset.go:139-145` | a MySQL server reads back a quoted name or string iff its quoting has no escapes or every backslash stands before % or _ |
| `Quoting.SafeResetIdentifier` | `internal/gateway/reset.go:127-137` | true iff the name is not empty and made of letters, digits and underscores |
| `Quoting.NormalizedTwice` | `internal/gateway/reset.go:123-125` | normalising an isolation name is idempotent |
| `Quoting.SupportedIsolationStays` | `internal/gateway/reset.go:113-125` | a supported level set under its normalised name and reported with hyphens normalises to the baseline's name |
| `Quoting.IsolationExactly` | `internal/gateway/reset.go:113-125` | each of the four levels is recognised iff the words of the text are its words, in any case and with any hyphens and spaces; every other text is refused |
| `Quoting.SafeIsOneWord` | `internal/gateway/reset.go:42-52` | charset and collation names that pass the check are each one word of the SET NAMES command, without quotes, comment marks or separators |
| `Quoting.NormalizedIff` | `internal/gateway/reset.go:123-125` | two names normalise alike iff they have the same words |
| `Framing.DecodeInvertsEncode` | `internal/protocol/mysql/codec.go:48-100` | for every frame size, start sequence, payload within the limit and trailing bytes: reading what was written gives the payload, the same next sequence mod 256, len/frame + 1 frames, and leaves the trailing bytes |
| `Framing.EncodeInvertsDecodeIff` | `internal/protocol/mysql/codec.go:48-100` | re-encoding an accepted message reproduces the bytes consumed iff every continued frame was exactly full |
| `Framing.ProductionReencodes` | `internal/protocol/mysql/codec.go:37-100` | with the production frame size it always does |
| `Framing.HeadersBounded` | `internal/protocol/mysql/codec.go:48-81` | on any input at most max/frame + 1 headers are read |
| `FrameWalk.ReadExactly` | `internal/protocol/mysql/codec.go:48-81` | on every input, by the lengths and sequence numbers its headers announce: too large iff some header reached in sequence takes the announced total over the limit, out of sequence iff some header reached carries another number than the one due, cut short iff a header or body reached is missing, accepted iff a frame shorter than a full one is reached whole and within the limit |
| `FrameWalk.AcceptedExactly` | `internal/protocol/mysql/codec.go:48-81` | an accepted message is the bodies of its frames in order, never longer than the limit, with the first and the next sequence number, the number of frames and the bytes left |
| `Framing.WriteMessage` | `internal/protocol/mysql/codec.go:84-113` | the loop writes exactly `Encode`, refuses what is too large, and returns the sequence after len/frame + 1 frames |
| `Framing.ReadMessage` | `internal/protocol/mysql/codec.go:48-81` | the loop equals `Decode` on every input, errors included, and counts its headers |
| `LengthEncoding.ReadersAgree` | `internal/gateway/prepared.go:513-549` | the handshake reader and the prepared-path reader accept the same inputs with the same value and position |
| `LengthEncoding.IntStands` | `internal/protocol/mysql/response.go:154-167` | an encoded integer reads back wherever it stands |
| `LengthEncoding.BytesStand` | `internal/protocol/mysql/response.go:149-167` | both readers invert the encoder of byte strings wherever one stands |
| `ResultSet.TableInverts` | `internal/gateway/gateway.go:786-832` | for any result set with at least one column and any number of rows, complete or cut short by an error, the stream reads back to the same columns field by field (45 and 1024 for a zero charset and length), rows, status, and warnings or error, with consecutive sequence numbers mod 256 through fragmentation, and bytes after it untouched |
| `ResultSet.RowIsNoEof` | `internal/protocol/mysql/response.go:137-147` | no text row looks like an EOF or ERR packet, and NULL never collides with a length prefix |
| `ResultSet.ColumnInverts` | `internal/protocol/mysql/response.go:113-135` | a column definition reads back field by field, with charset 45 and length 1024 where they were zero |
| `ResultSet.Send` | `internal/gateway/gateway.go:850-853` | one message appended at the right sequence, or refused when too large |
| `ResultSet.SendAll` | `internal/gateway/gateway.go:800-826` | a loop of messages is the concatenation of their encodings, each starting where the one before ended |
| `ResultSet.WriteBody` | `internal/gateway/gateway.go:808-832` | rows, then EOF, or the error packet of a scan, cursor or warning-count error at the sequence due |
| `ResultSet.WriteDetail` | `internal/gateway/gateway.go:790-832` | columns, EOF, then the body |
| `ResultSet.WriteTable` | `internal/gateway/gateway.go:786-832` | the stream sent is `Wire` of the payloads, iff every payload fits |
| `BinaryValues.IntegerRoundTrip` | `internal/gateway/prepared.go:569-609` | for every width and signedness an integer's text encodes iff it is in range, and decodes to the integer |
| `BinaryValues.WordRoundTrip` | `internal/gateway/prepared.go:397-437` | two's complement of every width is inverted |
| `BinaryValues.TimeKeepsMeaning` | `internal/gateway/prepared.go:661-703` | whatever TIME text is accepted, its wire form decodes to text of the same sign, hours, minutes, seconds and microseconds |
| `BinaryValues.ParseCanonical` | `internal/gateway/prepared.go:661-684` | canonical TIME text parses back to its clock |
| `BinaryValues.ParseClockIff` | `internal/gateway/prepared.go:661-684` | a TIME text is accepted iff it is an optional minus, three digit strings within 32, 8 and 8 bits between colons, and a fraction whose first six characters, filled with zeros, are digits; and then as that clock |
| `BinaryValues.ClockTextExactly` | `internal/gateway/prepared.go:502-510` | the text of a decoded TIME has two digits for each field and six for the fraction |
| `BinaryValues.ClockStands` | `internal/gateway/prepared.go:488-511` | a clock's wire form, through the days and hours split, decodes to its text and is consumed exactly |
| `BinaryValues.InstantStands` | `internal/gateway/prepared.go:464-486` | DATE and DATETIME keep every field at microsecond precision, the year iff it fits sixteen bits |
| `DateText.MomentTextInverts` | `internal/gateway/prepared.go:625-645` | the text of every date, and of every date and time at microsecond precision, parses to that date and time |
| `DateText.ParseMoment` | `internal/gateway/prepared.go:625-645` | whatever text the two layouts accept is a date of the calendar with a year of four digits |
| `Decimal.ParseIntOfFormat` | `internal/gateway/prepared.go:571` | decimal text of a signed integer parses iff in range, to the integer |
| `Decimal.ParseIntIff` | `internal/gateway/prepared.go:571` | a text is read as a signed integer iff it is digits with at most one sign that write that integer within the range |
| `Decimal.ParseUintOfFormat` | `internal/gateway/prepared.go:572` | decimal text of an unsigned integer parses iff in range, to the integer |
| `BinaryRows.RowInverts` | `internal/gateway/prepared.go:551-567` | every encodable row of the binary protocol, with its two reserved bitmap bits, reads back cell for cell, and its first byte is neither that of EOF nor of ERR |
| `BinaryRows.CellStands` | `internal/gateway/prepared.go:569-659` | every encodable column value, dates as times or as text, numbers as text, decodes to its meaning under its type, wherever it stands |
| `BinaryRows.BinaryPreparedRow` | `internal/gateway/prepared.go:551-567` | the loop that sets null bits in place and appends values equals `Row`, and fails iff some value cannot be encoded |
| `Execute.SentStands` | `internal/gateway/prepared.go:390-462` | a value of every parameter type, as a client sends it (one, two, four or eight bytes for the integer types 1, 2 and 13, 3 and 9, 8), decodes to its meaning and is consumed exactly, wherever it stands |
| `Execute.DecodeParameter` | `internal/gateway/prepared.go:390-462` | on arbitrary bytes the position stays within the payload |
| `Arguments.ArgumentsInvert` | `internal/gateway/prepared.go:340-388` | decoding a client's packet gives the meaning of every argument in order, null bits first, long data in place of inline bytes, the packet consumed exactly; without a type array it does so iff no remembered type is 0 |
| `Arguments.AcceptedPacketIsConsumed` | `internal/gateway/prepared.go:340-388` | no proper extension of an accepted packet is accepted, for every statement with parameters |
| `Arguments.UnsignedIsTopBit` | `internal/gateway/prepared.go:357-360` | a parameter is unsigned iff the top bit of its flag byte is set, whatever the other bits |
| `Arguments.ZeroTypeIsNotReused` | `internal/gateway/prepared.go:361-367` | concrete packets: an argument of type 0 decodes with its type array and is refused without it |
| `Arguments.BitmapBit` | `internal/gateway/prepared.go:369-372` | bit i of the null bitmap is argument i's |
| `LongDataRuns.InvOverEveryRun` | `internal/gateway/prepared.go:260-290` | over every run of chunks, executions and resets the byte count is the sum of the stored lengths and within 16 MiB; the overflow mark stands iff the chunks since the last clear exceed the limit together; without it each parameter holds the join of its chunks |
| `LongDataRuns.ExecutionAfterEveryRun` | `internal/gateway/prepared.go:115-135` | after every run a well-formed execution runs with exactly its arguments' meanings, streamed ones the join of all chunks since the last clear, iff these kept to the limit and the needed types are known; otherwise no statement runs |
| `LongDataRuns.RememberedTypes` | `internal/gateway/prepared.go:353-367` | after every run the types are those of the last execution with a type array that was not refused for a cursor or for too much long data |
| `LongDataRuns.AnnouncementSticksIff` | `internal/gateway/prepared.go:115-135` | a packet's type array is what later executions use iff the packet asked for no cursor and its long data kept to the limit, or the types were the same already |
| `LongDataRuns.CursorLosesTypes` | `internal/gateway/prepared.go:124-126` | concrete packet whose type array is lost because it asked for a cursor |
| `LongDataRuns.PreparedStatement.constructor` | `internal/gateway/prepared.go:68-77` | zero types, no long data |
| `LongDataRuns.PreparedStatement.ClearLongData` | `internal/gateway/prepared.go:334-338` | no long data, no error, types kept |
| `LongDataRuns.PreparedStatement.SendLongData` | `internal/gateway/prepared.go:260-277` | appends a chunk or marks the overflow, and ignores parameters that do not exist |
| `LongDataRuns.PreparedStatement.ReadTypeArray` | `internal/gateway/prepared.go:357-360` | the loop reads `ReadTypes` |
| `LongDataRuns.PreparedStatement.ReadValues` | `internal/gateway/prepared.go:368-387` | the loop equals `AllValues` |
| `LongDataRuns.PreparedStatement.DecodeArguments` | `internal/gateway/prepared.go:340-388` | types remembered and arguments equal `Decode` on every payload |
| `LongDataRuns.PreparedStatement.Execute` | `internal/gateway/prepared.go:115-135` | equals `Execution`: long data cleared on every path that reaches it |
| `Classify.ReclassifyIff` | `internal/engine/classify.go:32-122` | the kind of what classification returns is the kind it gave iff cutting one more semicolon uncovers neither the warning count nor a temporary object; without a semicolon left the result is a fixed point |
| `StatementKinds.KindExactly` | `internal/engine/classify.go:32-122` | for every query and every kind, on the words of the statement without outer spaces, one semicolon and leading comments: COMMIT iff the words are COMMIT or COMMIT WORK, and so for BEGIN, ROLLBACK, savepoints, USE, SET NAMES, autocommit on and off, the warning count, reads, writes and definitions; unsupported iff there are several statements or words of no kind; and the text kept |
| `StatementKinds.ReadsIff` | `internal/engine/classify.go:32-45` | trimming, the semicolon, the comments and the upper-cased words are those of the text, and every query is read in one way |
| `StatementKinds.EveryQueryReads` | `internal/engine/classify.go:32-45` | every query has such a reading, so the kinds above are those of all queries |
| `StatementKinds.UnsafeReadIff` | `internal/engine/classify.go:124-142` | a read is refused iff one of eleven functions and clauses occurs in it, a user variable does, or it asks for the connection's diagnostics |
| `StatementKinds.UserVariableIff` | `internal/engine/classify.go:134-137` | an @ is left when pairs are removed iff some run of @ has odd length |
| `Classify.SecondCutDecides` | `internal/engine/classify.go:32-50` | the family of inputs that are classified differently the second time |
| `Classify.TemporarySlipsThrough` | `internal/engine/classify.go:32-122` | concrete input accepted as DDL whose own output is refused |
| `Classify.StripIsIdempotentSuffix` | `internal/engine/classify.go:144-171` | stripping comments gives a suffix of the trimmed input and is idempotent |
| `Classify.StripLeadingComments` | `internal/engine/classify.go:144-171` | the loop terminates and equals `Strip` |
| `Lexing.StripIff` | `internal/engine/classify.go:144-171` | what is left is the text behind the leading spaces and closed comments, and nothing of a comment that is not closed; there is only one such rest |
| `Lexing.UnquotedIff` | `internal/engine/classify.go:173-201` | a position is outside quotes iff plain characters and whole literals, with backslash escapes except between backticks, lead up to it |
| `Classify.HasMultipleStatements` | `internal/engine/classify.go:173-201` | true iff some semicolon outside quotes, by the quote automaton, is followed by more than comments |
| `Lexing.MultipleIff` | `internal/engine/classify.go:173-201` | the automaton finds several statements iff a semicolon outside whole literals has more than spaces and comments behind it |
| `Classify.CountPreparedParameters` | `internal/gateway/prepared.go:705-734` | the number of question marks outside quotes by the same automaton |
| `Lexing.PlaceholderIff` | `internal/gateway/prepared.go:705-734` | the placeholders are the question marks with only plain characters and whole literals before them |
| `Handshake.ParseInverts` | `internal/protocol/mysql/handshake.go:151-256` | for all NUL-free names, authentication bytes and attributes the parser learns every field of the client's encoding, with the default plugin for an empty one, iff the bits can be negotiated, the charset is one of the six, and attributes keep to the limit and have keys; otherwise it refuses with the reason |
| `Handshake.AcceptedIsConsumed` | `internal/protocol/mysql/handshake.go:249-251` | no payload that is longer than an accepted login and starts with it is accepted |
| `Handshake.NegotiatedWithinBoth` | `internal/protocol/mysql/handshake.go:258-275` | what is negotiated is what both sides have; an accepted client has bits 9, 15 and 19, neither 5 nor 26, nothing else beyond the server's bits and the eight tolerated ones, and one of the six charsets |
| `Handshake.HeaderAlone` | `internal/protocol/mysql/handshake.go:151-183` | the 32-byte header alone asks for TLS iff bit 11 is set and offered, and is no login otherwise |
| `Handshake.ValidateIff` | `internal/protocol/mysql/handshake.go:258-284` | the refusal of capability bits and charsets by their protocol numbers |
| `Handshake.NulAuthUnreachable` | `internal/protocol/mysql/handshake.go:193-216` | once capabilities are validated the NUL-terminated form of the authentication data is never read |
| `Handshake.LastValueStays` | `internal/protocol/mysql/handshake.go:234-248` | of several values for one attribute key the last stays |
| `Handshake.ParseResponse` | `internal/protocol/mysql/handshake.go:151-256` | the method with its cursor equals `Parse` on every payload |
| `Handshake.ParseNames` | `internal/protocol/mysql/handshake.go:187-233` | reads user, authentication data, database and plugin as `NamesAt` |
| `Handshake.ParseAttributes` | `internal/protocol/mysql/handshake.go:239-247` | the loop equals `ReadAttributes` |
| `Handshake.ByteCursor.Skip` | `internal/protocol/mysql/handshake.go:321-327` | moves iff enough is left |
| `Handshake.ByteCursor.Byte` | `internal/protocol/mysql/handshake.go:329-336` | the next byte |
| `Handshake.ByteCursor.Uint32` | `internal/protocol/mysql/handshake.go:338-345` | the next four bytes, little endian |
| `Handshake.ByteCursor.Take` | `internal/protocol/mysql/handshake.go:347-354` | the next bytes iff enough are left |
| `Handshake.ByteCursor.NullTerminated` | `internal/protocol/mysql/handshake.go:356-365` | the loop finds the first NUL |
| `Handshake.ByteCursor.LenEncodedBytes` | `internal/protocol/mysql/handshake.go:367-380` | equals `CursorBytes` |
| `Handshake.ByteCursor.LenEncodedInt` | `internal/protocol/mysql/handshake.go:382-411` | equals `CursorInt` |
| `AuthLimiter.FailuresPerWindow` | `internal/gateway/auth_limit.go:44-82` | over every run in time order, with lockout at least the window, any half-open interval of one window lets in, between successes and evictions of a host, at most max(1, 2M-2) failing attempts for a limit of M, which is below 2M |
| `AuthLimiter.MostIsAttained` | `internal/gateway/auth_limit.go:44-82` | that number is reached: for every M of at least two there is a run in time order that lets in 2M-2 within one window |
| `AuthLimiter.RoomOverEveryRun` | `internal/gateway/auth_limit.go:64-82` | the table never holds more than its limit, or one entry when the limit is zero |
| `AuthLimiter.NoRoomTakesOne` | `internal/gateway/auth_limit.go:64-82` | with a limit of zero, which the code never sets, the table would take one entry, so the bound above is exact there too |
| `AuthLimiter.OthersUntouched` | `internal/gateway/auth_limit.go:44-100` | steps of other hosts leave a host's entry alone unless they evict it |
| `AuthLimiter.FindOldest` | `internal/gateway/auth_limit.go:90-100` | the loop over the table in some order returns what `Scan` finds in that order: an entry of the table, and one seen longest ago unless the empty key is strictly the oldest |
| `AuthLimiter.VictimIsOldestIff` | `internal/gateway/auth_limit.go:90-100` | in whatever order the table is visited, the victim is an entry seen longest ago iff the empty key is not strictly the oldest or is visited last |
| `AuthLimiter.EmptyKeyMisleads` | `internal/gateway/auth_limit.go:90-100` | concrete table and order in which the newer entry is evicted |
| `AuthLimiter.KeysOfAddresses` | `internal/gateway/auth_limit.go:102-108` | all ports of a host share one key that no other host has; no address but the empty one gets the empty key, and without it the victim is an oldest entry |
| `InterleavedLimiter.FailuresPerWindowInterleaved` | `internal/gateway/auth_limit.go:44-88` | for every order of checks and outcomes with at most K handshakes of a host undecided at once, any half-open interval of one window counts at most 2(M+K-2) failures between successes and evictions for a limit of M of at least two, and K for a limit of one |
| `InterleavedLimiter.BoundedOverEveryRun` | `internal/gateway/auth_limit.go:44-88` | over every such order the host's entry describes its last window, and once the limit is reached only handshakes already let in can still fail |
| `InterleavedLimiter.MostOverlappingIsAttained` | `internal/gateway/auth_limit.go:44-88` | that number is reached: for every limit and overlap there is such an order that counts it within one window |
| `Lockouts.RefusedIff` | `internal/gateway/auth_limit.go:44-82` | over every run in time order a check is refused iff some failure of the host since it last succeeded or was evicted was at least the configured number of its window and less than a lockout ago; the last failure is such a one then |
| `Lockouts.RememberedIff` | `internal/gateway/auth_limit.go:44-62` | a check leaves the host in the table iff it is locked out or its last window is open |
| `Lockouts.HeardOverEveryRun` | `internal/gateway/auth_limit.go:44-100` | the time that eviction compares is that of the host's last failing attempt or refused check |
| `Lockouts.RefusedInterleavedIff` | `internal/gateway/auth_limit.go:44-82` | with overlapping handshakes, over every order: a check is refused iff the host's last failure reached the limit within its window and is less than a lockout ago |
| `Lockouts.LateFailureLiftsLockout` | `internal/gateway/auth_limit.go:64-82` | a failure that arrives during a lockout, in a new window, lifts the lockout |
| `AuthLimiter.Limiter.constructor` | `internal/gateway/auth_limit.go:33-42` | an empty table |
| `AuthLimiter.Limiter.Allowed` | `internal/gateway/auth_limit.go:44-62` | equals `Allow` |
| `AuthLimiter.Limiter.Failure` | `internal/gateway/auth_limit.go:64-82` | equals `Fail`, evicting what the search finds when a new entry does not fit |
| `AuthLimiter.Limiter.Count` | `internal/gateway/auth_limit.go:64-82` | equals `Counted` |
| `AuthLimiter.Limiter.Succeed` | `internal/gateway/auth_limit.go:84-88` | forgets the host |
| `AuthLimiter.Limiter.EvictOldest` | `internal/gateway/auth_limit.go:90-100` | removes what `FindOldest` finds |

## Left out

- Sockets, TLS upgrade, deadlines, goroutine scheduling, logging and metrics beyond the counters named above.
- `database/sql`, the driver and the server: pools, sessions and engines are parameters; deadlock-induced rollbacks, implicit commits by the server, temporary tables, user variables and locks are outside the session record.
- SHA-1 and the password check, `net.SplitHostPort` (its result is a parameter of `AuthKey`), `SafeConnectionAttributes` and the greeting.
- The transparent relay, the listener, configuration, secrets, command line, HTTP handlers, dashboard, benchmarks, test kit and the process lifecycle: glue or easy members.
- The text of error messages and rejection reasons in sessions; a reply is modelled by its kind and status flags.
- The cancel function of a transaction's context.
- `time.Date` normalisation of out-of-range fields: a moment is its argument list. `strconv.ParseFloat` is a parameter that gives the bits of the number read.
- The stream of `queryPrepared`: the order of messages is that of `rows`, with the rows of module BinaryRows.
- The difference between a nil and an empty byte slice.
- 64-bit wrap-around of the service's counters.
- True MySQL lexing; the classifier is proved against the quote automaton it implements, on code points, with upper case only where it can give an ASCII letter.
- Writer errors inside `writeAll`: a message is written or the session ends.
- Simulation.PooledRunMatchesPrivateConnections: USE, SET NAMES and the warning count are not compared, since COMMIT without a transaction does not clear warnings; executions of definitions inside a transaction, which a server ends on its own, are left out.
- ClientSessions.ClientSession.Acquire: whether a session is admitted is the environment's answer here; the queue and the byte check are module Admission.
- ClientSessions.ClientSession.RunStatement: the messages of a result set and an error between them are one answer and one write here; module ResultSet has them message by message.
- AuthLimiter.FailuresPerWindow: a failing attempt is one step; InterleavedLimiter has overlapping handshakes.
- Reset.Service.Checkout: the pool's two answers are given, and that the pool offers no discarded connection is an assumption of the method.
- BinaryRows.RowInverts: a time value in a column that is not a date is outside the cells; the driver returns times for date columns only.
