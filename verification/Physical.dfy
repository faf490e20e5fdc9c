/**
 * The simulation on real connections: every pooled connection carries a session record, checkout is the
 * reset of module Reset from whatever the record was left in, and the engine may read the record.
 */
module Physical {
  import opened Wrappers
  import opened LogicalState
  import opened Upstream
  import opened Session
  import opened SessionInvariant
  import opened Simulation
  import LogGrowth
  import Quoting
  import Reset

  /** What an engine can see of a connection's session record. */
  datatype Visible = Visible(
    database: string, autocommit: bool, readOnly: bool, charset: string, collation: string,
    sqlMode: string, timeZone: string, isolation: string)

  function SettingsOf(u: Reset.Upstream): Visible {
    Visible(u.database, u.autocommit, u.readOnly, u.charset, u.collation, u.sqlMode, u.timeZone, Quoting.Normalized(u.isolation))
  }

  /** What a private connection opened at the baseline has. */
  function AtBaseline(b: Reset.Baseline): Visible {
    Visible(b.database, true, false, b.charset, b.collation, b.sqlMode, b.timeZone, Quoting.Normalized(b.isolation))
  }

  lemma PristineIsBaseline(u: Reset.Upstream, b: Reset.Baseline)
    requires Reset.Pristine(u, b)
    ensures SettingsOf(u) == AtBaseline(b)
  {
    hide Quoting.Normalized, Quoting.SameWords;
    Quoting.NormalizedIff(u.isolation, b.isolation);
  }

  /** An engine whose every operation may depend on the settings of the connection it runs on. */
  type Family<!S, !T, !R> = Visible -> Engine<S, T, R>

  type Records = map<ConnId, Reset.Upstream>

  /** What the connections checked out were left in, by position in the log. */
  type Leftovers = nat -> Reset.Leftover

  datatype Machine<!S, !T, !R> = Machine(server: Server<S, T, R>, records: Records)

  function RecordsAfter(records: Records, rb: Reset.Baseline, lefts: Leftovers, c: Call, i: nat): Records {
    if c.Checkout? then
      var l := lefts(i);
      records[c.conn := Reset.ResetFrom(l.server, rb, l.state, l.step).state]
    else records
  }

  /** The connection a call works on. */
  function Uses(c: Call): Option<ConnId> {
    match c
    case Checkout(conn) => Some(conn)
    case BeginTx(tx, _) => Some(tx.conn)
    case _ => ConnOf(c)
  }

  /** The engine as the call's connection sees it; a connection never checked out has no settings to speak of. */
  function EngineFor<S, T, R>(family: Family<S, T, R>, records: Records, c: Call): Engine<S, T, R> {
    var conn := Uses(c);
    if conn.Some? && conn.value in records then family(SettingsOf(records[conn.value]))
    else family(Visible("", false, false, "", "", "", "", ""))
  }

  function ServedOn<S, T, R>(family: Family<S, T, R>, rb: Reset.Baseline, lefts: Leftovers, m: Machine<S, T, R>, c: Call, i: nat): Machine<S, T, R> {
    var records := RecordsAfter(m.records, rb, lefts, c, i);
    Machine(Served(EngineFor(family, records, c), m.server, c), records)
  }

  function ServedOnFrom<S, T, R>(family: Family<S, T, R>, rb: Reset.Baseline, lefts: Leftovers, m: Machine<S, T, R>, log: seq<Call>, n: nat): Machine<S, T, R> {
    if |log| <= n then m
    else ServedOn(family, rb, lefts, ServedOnFrom(family, rb, lefts, m, log[..|log| - 1], n), log[|log| - 1], |log| - 1)
  }

  /** Every checkout from position `n` on returned a connection: its reset succeeded, on an upstream that is honest. */
  ghost predicate Returned(rb: Reset.Baseline, lefts: Leftovers, log: seq<Call>, n: nat) {
    forall i | n <= i < |log| && log[i].Checkout? ::
      Reset.Honest(lefts(i).server) && Reset.ResetFrom(lefts(i).server, rb, lefts(i).state, lefts(i).step).ok
  }

  ghost predicate AllPristine(records: Records, rb: Reset.Baseline) {
    forall conn | conn in records :: Reset.Pristine(records[conn], rb)
  }

  lemma {:induction false} OpenIsHeld(log: seq<Call>)
    requires Replay(log).Some?
    ensures Replay(log).value.open.Some? ==> Replay(log).value.open.value.conn in Replay(log).value.held
  {
    if log != [] {
      OpenIsHeld(log[..|log| - 1]);
    }
  }

  /** A legal call works on a connection that is held, or was just checked out. */
  lemma UsesHeld(log: seq<Call>, c: Call)
    requires Replay(log).Some? && Advance(Replay(log), c).Some? && Uses(c).Some? && !c.Checkout? && !c.PrepareStmt?
    ensures Uses(c).value in Replay(log).value.held
  {
    hide Replay;
    OpenIsHeld(log);
  }

  /** One call on connections that are all at the baseline is served as by the one engine of the baseline. */
  lemma OneServed<S, T, R>(family: Family<S, T, R>, rb: Reset.Baseline, lefts: Leftovers, m: Machine<S, T, R>, log: seq<Call>, c: Call)
    requires Replay(log).Some? && Advance(Replay(log), c).Some? && AllPristine(m.records, rb)
    requires Replay(log).value.held <= m.records.Keys && Returned(rb, lefts, log + [c], |log|)
    ensures var x := ServedOn(family, rb, lefts, m, c, |log|);
            && x.server == Served(family(AtBaseline(rb)), m.server, c) && AllPristine(x.records, rb)
            && Advance(Replay(log), c).value.held <= x.records.Keys
  {
    hide Replay, Reset.ResetFrom, Reset.Pristine, Reset.Honest, SettingsOf, AtBaseline;
    var x := ServedOn(family, rb, lefts, m, c, |log|);
    if c.Checkout? {
      assert (log + [c])[|log|] == c;
      var l := lefts(|log|);
      Reset.ResetCleans(l.server, rb, l.state, l.step);
    }
    if Uses(c).Some? && !c.PrepareStmt? {
      if !c.Checkout? {
        UsesHeld(log, c);
      }
      PristineIsBaseline(x.records[Uses(c).value], rb);
    }
  }

  /** A whole stretch of a legal log. */
  lemma {:induction false} StretchServed<S, T, R>(family: Family<S, T, R>, rb: Reset.Baseline, lefts: Leftovers, m: Machine<S, T, R>, log: seq<Call>, n: nat)
    requires n <= |log| && Replay(log).Some? && AllPristine(m.records, rb) && Returned(rb, lefts, log, n)
    requires Replay(log[..n]).Some? && Replay(log[..n]).value.held <= m.records.Keys
    ensures var x := ServedOnFrom(family, rb, lefts, m, log, n);
            && x.server == ServedFrom(family(AtBaseline(rb)), m.server, log, n) && AllPristine(x.records, rb)
            && Replay(log).value.held <= x.records.Keys
            && m.records.Keys <= x.records.Keys
    decreases |log|
  {
    hide Served, Advance, AllPristine, AtBaseline, Returned;
    if |log| == n {
      assert log[..n] == log;
    } else {
      var before, c := log[..|log| - 1], log[|log| - 1];
      assert before[..n] == log[..n] && before + [c] == log;
      PrefixAccepted(log, |log| - 1);
      ReturnedBefore(rb, lefts, log, n);
      StretchServed(family, rb, lefts, m, before, n);
      OneServed(family, rb, lefts, ServedOnFrom(family, rb, lefts, m, before, n), before, c);
    }
  }

  lemma ReturnedBefore(rb: Reset.Baseline, lefts: Leftovers, log: seq<Call>, n: nat)
    requires n < |log| && Returned(rb, lefts, log, n)
    ensures Returned(rb, lefts, log[..|log| - 1], n) && Returned(rb, lefts, log, |log| - 1)
  {
    hide Reset.ResetFrom, Reset.Honest;
  }

  // ---------------------------------------------------------------- the pool on real connections

  datatype RealPool<!S, !T, !R> = RealPool(c: Counters, sessions: map<Client, Session>, machine: Machine<S, T, R>)

  function RealStep<S, T, R>(family: Family<S, T, R>, b: Baseline, rb: Reset.Baseline, p: RealPool<S, T, R>, st: Step, lefts: Leftovers)
    : (RealPool<S, T, R>, Answer<R>)
  {
    match st
    case Join(k) => (p.(sessions := p.sessions[k := NewSession(b)]), NoAnswer)
    case Say(k, command, e) =>
      if k !in p.sessions then (p, NoAnswer) else
      var s := p.sessions[k];
      var o := Dispatch(World(s, p.c), command, e);
      var machine := ServedOnFrom(family, rb, lefts, p.machine, o.w.s.log, |s.log|);
      (RealPool(o.w.c, p.sessions[k := o.w.s], machine), AnswerOf(o.reply, machine.server.result))
    case Leave(k, e) =>
      if k !in p.sessions then (p, NoAnswer) else
      var s := p.sessions[k];
      var x := Close(World(s, p.c), e);
      (RealPool(x.c, p.sessions - {k}, ServedOnFrom(family, rb, lefts, p.machine, x.s.log, |s.log|)), NoAnswer)
  }

  /** The pool with the records forgotten. */
  function Erased<S, T, R>(p: RealPool<S, T, R>): Pool<S, T, R> { Pool(p.c, p.sessions, p.machine.server) }

  /** Every connection a session pins is at the baseline. */
  ghost predicate Backed<S, T, R>(p: RealPool<S, T, R>, rb: Reset.Baseline) {
    && AllPristine(p.machine.records, rb)
    && forall k | k in p.sessions :: p.sessions[k].pinned.Some? ==> p.sessions[k].pinned.value in p.machine.records
  }

  /** Every checkout of the step returned a connection. */
  ghost predicate ReturnedBy<S, T, R>(p: RealPool<S, T, R>, rb: Reset.Baseline, st: Step, lefts: Leftovers) {
    match st
    case Join(_) => true
    case Say(k, command, e) =>
      k in p.sessions ==> Returned(rb, lefts, Dispatch(World(p.sessions[k], p.c), command, e).w.s.log, |p.sessions[k].log|)
    case Leave(k, e) => k in p.sessions ==> Returned(rb, lefts, Close(World(p.sessions[k], p.c), e).s.log, |p.sessions[k].log|)
  }

  /** What the invariant says of the connections a session's log leaves held. */
  lemma HeldByInv(s: Session)
    requires Inv(s)
    ensures Replay(s.log).Some? && Replay(s.log).value.held == if s.pinned.Some? then {s.pinned.value} else {}
  {
    hide Replay;
  }

  lemma SessionStretch<S, T, R>(family: Family<S, T, R>, rb: Reset.Baseline, lefts: Leftovers, p: RealPool<S, T, R>, k: Client, x: World)
    requires Backed(p, rb) && k in p.sessions && Inv(p.sessions[k]) && Replay(x.s.log).Some?
    requires LogGrowth.Grows(World(p.sessions[k], p.c), x) && Returned(rb, lefts, x.s.log, |p.sessions[k].log|)
    ensures var n := |p.sessions[k].log|;
            var m := ServedOnFrom(family, rb, lefts, p.machine, x.s.log, n);
            && m.server == ServedFrom(family(AtBaseline(rb)), p.machine.server, x.s.log, n) && AllPristine(m.records, rb)
            && Replay(x.s.log).value.held <= m.records.Keys && p.machine.records.Keys <= m.records.Keys
  {
    hide Replay, Inv, AllPristine, Returned, AtBaseline, ServedOnFrom, ServedFrom;
    var s := p.sessions[k];
    HeldByInv(s);
    assert x.s.log[..|s.log|] == s.log;
    StretchServed(family, rb, lefts, p.machine, x.s.log, |s.log|);
  }

  lemma SayErases<S, T, R>(family: Family<S, T, R>, b: Baseline, rb: Reset.Baseline, p: RealPool<S, T, R>, r: Reference<S, T>,
                           k: Client, command: Command, e: Env, lefts: Leftovers)
    requires Related(Erased(p), r) && Undisturbed(Erased(p), Say(k, command, e)) && Backed(p, rb) && k in p.sessions && b.charset == "utf8mb4"
    requires ReturnedBy(p, rb, Say(k, command, e), lefts)
    ensures var (x, a) := RealStep(family, b, rb, p, Say(k, command, e), lefts);
            (Erased(x), a) == PoolStep(family(AtBaseline(rb)), b, Erased(p), Say(k, command, e)) && Backed(x, rb)
  {
    hide Replay, Inv, AllPristine, Returned, AtBaseline, ServedOnFrom, ServedFrom, Dispatch, ReferenceStep, Undisturbed, PinsDistinct, Owned;
    var w := World(p.sessions[k], p.c);
    var o := Dispatch(w, command, e);
    StepRelated(family(AtBaseline(rb)), b, Erased(p), r, Say(k, command, e));
    var next := PoolStep(family(AtBaseline(rb)), b, Erased(p), Say(k, command, e)).0;
    assert k in next.sessions && next.sessions[k] == o.w.s && Inv(o.w.s);
    HeldByInv(o.w.s);
    LogGrowth.DispatchGrows(w, command, e);
    SessionStretch(family, rb, lefts, p, k, o.w);
  }

  lemma LeaveErases<S, T, R>(family: Family<S, T, R>, b: Baseline, rb: Reset.Baseline, p: RealPool<S, T, R>, r: Reference<S, T>,
                             k: Client, e: Env, lefts: Leftovers)
    requires Related(Erased(p), r) && Backed(p, rb) && k in p.sessions
    requires ReturnedBy(p, rb, Leave(k, e), lefts)
    ensures var (x, a) := RealStep(family, b, rb, p, Leave(k, e), lefts);
            (Erased(x), a) == PoolStep(family(AtBaseline(rb)), b, Erased(p), Leave(k, e)) && Backed(x, rb)
  {
    hide Replay, AllPristine, Returned, AtBaseline, ServedOnFrom, ServedFrom, Close, PinsDistinct, Owned, Tracked;
    var w := World(p.sessions[k], p.c);
    CloseKeeps(w, e);
    LogGrowth.CloseGrows(w, e);
    SessionStretch(family, rb, lefts, p, k, Close(w, e));
  }

  lemma StepErases<S, T, R>(family: Family<S, T, R>, b: Baseline, rb: Reset.Baseline, p: RealPool<S, T, R>, r: Reference<S, T>, st: Step, lefts: Leftovers)
    requires Related(Erased(p), r) && Undisturbed(Erased(p), st) && Backed(p, rb) && ReturnedBy(p, rb, st, lefts) && b.charset == "utf8mb4"
    ensures var (x, a) := RealStep(family, b, rb, p, st, lefts);
            (Erased(x), a) == PoolStep(family(AtBaseline(rb)), b, Erased(p), st) && Backed(x, rb)
  {
    hide Related, Undisturbed, AllPristine, ReturnedBy, ServedOnFrom, ServedFrom, Dispatch, Close, AtBaseline;
    match st
    case Join(k) =>
    case Say(k, command, e) => if k in p.sessions { SayErases(family, b, rb, p, r, k, command, e, lefts); }
    case Leave(k, e) => if k in p.sessions { LeaveErases(family, b, rb, p, r, k, e, lefts); }
  }

  // ---------------------------------------------------------------- runs

  function RealRun<S, T, R>(family: Family<S, T, R>, b: Baseline, rb: Reset.Baseline, p: RealPool<S, T, R>, steps: seq<(Step, Leftovers)>)
    : (RealPool<S, T, R>, seq<Answer<R>>)
  {
    if steps == [] then (p, []) else
    var (q, answers) := RealRun(family, b, rb, p, steps[..|steps| - 1]);
    var (q', a) := RealStep(family, b, rb, q, steps[|steps| - 1].0, steps[|steps| - 1].1);
    (q', answers + [a])
  }

  ghost predicate ReturnedRun<S, T, R>(family: Family<S, T, R>, b: Baseline, rb: Reset.Baseline, p: RealPool<S, T, R>, steps: seq<(Step, Leftovers)>) {
    steps == [] ||
    (var before, last := steps[..|steps| - 1], steps[|steps| - 1];
     ReturnedRun(family, b, rb, p, before) && ReturnedBy(RealRun(family, b, rb, p, before).0, rb, last.0, last.1))
  }

  function Steps(steps: seq<(Step, Leftovers)>): seq<Step> {
    if steps == [] then [] else Steps(steps[..|steps| - 1]) + [steps[|steps| - 1].0]
  }

  function RealStart<S, T, R>(store: S): RealPool<S, T, R> {
    RealPool(Counters(0, 0, 0), map[], Machine(Server(store, map[], None), map[]))
  }

  /** The real run is the run of module Simulation with the engine of the baseline, step for step. */
  lemma {:induction false} RunErases<S, T, R>(family: Family<S, T, R>, b: Baseline, rb: Reset.Baseline, store: S, steps: seq<(Step, Leftovers)>)
    requires b.charset == "utf8mb4" && UndisturbedRun(family(AtBaseline(rb)), b, Start(store), Steps(steps))
    requires ReturnedRun(family, b, rb, RealStart(store), steps)
    ensures var (x, answers) := RealRun(family, b, rb, RealStart(store), steps);
            (Erased(x), answers) == PoolRun(family(AtBaseline(rb)), b, Start(store), Steps(steps)) && Backed(x, rb)
  {
    hide RealStep, PoolStep, AtBaseline, Backed, ReturnedBy, Undisturbed, Related;
    if steps == [] {
      NothingBacked<S, T, R>(store, rb);
    } else {
      var before := steps[..|steps| - 1];
      assert Steps(steps)[..|Steps(steps)| - 1] == Steps(before);
      RunErases(family, b, rb, store, before);
      PooledRunMatchesPrivateConnections(family(AtBaseline(rb)), b, store, Steps(before));
      var (p, answers) := RealRun(family, b, rb, RealStart(store), before);
      var r := ReferenceRun<S, T, R>(family(AtBaseline(rb)), Reference(store, map[]), Steps(before), Accepted(answers)).0;
      StepErases(family, b, rb, p, r, steps[|steps| - 1].0, steps[|steps| - 1].1);
    }
  }

  lemma NothingBacked<S, T, R>(store: S, rb: Reset.Baseline)
    ensures Backed<S, T, R>(RealStart(store), rb)
  {
  }

  /**
   * For every engine that may read the settings of its connection, every state any connection was left in
   * and every honest upstream: as long as checkouts return connections and upstream does not fail, every
   * client is answered exactly as on a private connection at the baseline, and the store is the same.
   */
  lemma RealRunMatchesPrivateConnections<S, T, R>(family: Family<S, T, R>, b: Baseline, rb: Reset.Baseline, store: S, steps: seq<(Step, Leftovers)>)
    requires b.charset == "utf8mb4" && UndisturbedRun(family(AtBaseline(rb)), b, Start(store), Steps(steps))
    requires ReturnedRun(family, b, rb, RealStart(store), steps)
    ensures var (x, answers) := RealRun(family, b, rb, RealStart(store), steps);
            && |answers| == |Steps(steps)|
            && var (r, expected) := ReferenceRun<S, T, R>(family(AtBaseline(rb)), Reference(store, map[]), Steps(steps), Accepted(answers));
            && answers == expected && x.machine.server.store == r.store
  {
    hide RealRun, PoolRun, ReferenceRun, AtBaseline, Backed, ReturnedRun, UndisturbedRun, Related;
    RunErases(family, b, rb, store, steps);
    PooledRunMatchesPrivateConnections(family(AtBaseline(rb)), b, store, Steps(steps));
  }
}
