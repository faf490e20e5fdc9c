/** Checkout of a pooled upstream connection: reset, verify, discard. */
module Reset {
  import opened Wrappers
  import opened Text
  import opened Quoting

  /** What one user of a connection can leave to the next. */
  datatype Upstream = Upstream(
    open: bool, readOnly: bool, database: string, autocommit: bool, charset: string, collation: string,
    sqlMode: string, timeZone: string, isolation: string, warnings: nat)

  datatype Baseline = Baseline(
    database: string, charset: string, collation: string, sqlMode: string, timeZone: string, isolation: string)

  datatype Command =
    | Rollback
    | AutocommitOn
    | Use(name: string)
    | SetNames(charset: string, collation: string)
    | SetTimeZone(text: string)
    | SetSqlMode(text: string)
    | SetIsolation(level: string)
    | SetReadWrite

  datatype Request =
    | Run(command: Command)
    | CountWarnings
    | SelectFields
    | SelectIsolation(legacy: bool)

  /** `UnknownVariable` is error 1193. */
  datatype Reply = Done | Failed | UnknownVariable

  datatype Answer = Answer(reply: Reply, after: Upstream)

  /** The upstream: how the n-th request on a connection in a given state is answered. */
  type Server = (nat, Upstream, Request) -> Answer

  // ---------------------------------------------------------------- the reset

  datatype Progress = Progress(ok: bool, state: Upstream, step: nat)

  /** The settings every reset ends with. */
  function Tail(b: Baseline, isolation: string): seq<Command> {
    [SetNames(b.charset, b.collation), SetTimeZone(Quoted(b.timeZone, '\'')), SetSqlMode(Quoted(b.sqlMode, '\'')),
     SetIsolation(isolation), SetReadWrite]
  }

  function CommandsFor(b: Baseline, isolation: string): seq<Command> {
    [Rollback, AutocommitOn] + (if b.database != "" then [Use(Quoted(b.database, '`'))] else []) + Tail(b, isolation)
  }

  /** `requireNoResetWarnings`. */
  function NoWarnings(server: Server, u: Upstream, step: nat): Progress {
    var a := server(step, u, CountWarnings);
    Progress(a.reply.Done? && u.warnings == 0, a.after, step + 1)
  }

  /** Commands `index` and up; warnings are looked at after every command but the first. */
  function RunFrom(server: Server, commands: seq<Command>, index: nat, u: Upstream, step: nat): Progress
    requires index <= |commands|
    decreases |commands| - index
  {
    if index == |commands| then Progress(true, u, step)
    else
      var p := RunOne(server, commands[index], index, u, step);
      if !p.ok then p else RunFrom(server, commands, index + 1, p.state, p.step)
  }

  function RunOne(server: Server, command: Command, index: nat, u: Upstream, step: nat): Progress {
    var a := server(step, u, Run(command));
    if !a.reply.Done? then Progress(false, a.after, step + 1)
    else if index > 0 then NoWarnings(server, a.after, step + 1)
    else Progress(true, a.after, step + 1)
  }

  predicate FieldsMatch(u: Upstream, b: Baseline) {
    && u.database == b.database && u.autocommit
    && u.charset == b.charset && u.collation == b.collation
    && u.sqlMode == b.sqlMode && u.timeZone == b.timeZone
  }

  /** Reading the isolation level, under its old name when the new one is unknown. */
  function ReadIsolation(server: Server, u: Upstream, step: nat): Progress {
    var a := server(step, u, SelectIsolation(false));
    if a.reply.UnknownVariable? then
      var again := server(step + 1, a.after, SelectIsolation(true));
      Progress(again.reply.Done?, again.after, step + 2)
    else Progress(a.reply.Done?, a.after, step + 1)
  }

  function Verify(server: Server, b: Baseline, u: Upstream, step: nat): Progress {
    var fields := server(step, u, SelectFields);
    if !fields.reply.Done? then Progress(false, fields.after, step + 1)
    else
      var p := ReadIsolation(server, fields.after, step + 1);
      if !p.ok then p
      else if !FieldsMatch(u, b) || Normalized(p.state.isolation) != Normalized(b.isolation) then p.(ok := false)
      else NoWarnings(server, p.state, p.step)
  }

  /** The baselines a reset can be attempted for. */
  predicate Supported(b: Baseline) {
    ResetIsolation(b.isolation).Some? && Safe(b.charset) && Safe(b.collation)
  }

  /** `resetConnection`. */
  function ResetFrom(server: Server, b: Baseline, u: Upstream, step: nat): Progress {
    if !Supported(b) then Progress(false, u, step)
    else
      var p := RunFrom(server, CommandsFor(b, ResetIsolation(b.isolation).value), 0, u, step);
      if !p.ok then p else Verify(server, b, p.state, p.step)
  }

  // ---------------------------------------------------------------- what a returned connection is

  /** A connection fit for the next user: nothing open, the baseline's settings, the level of the baseline's words. */
  ghost predicate Pristine(u: Upstream, b: Baseline) {
    && u == Upstream(false, false, b.database, true, b.charset, b.collation, b.sqlMode, b.timeZone, u.isolation, 0)
    && SameWords(u.isolation, b.isolation)
  }

  /**
   * What is asked of the upstream: a ROLLBACK it reports as done has closed the transaction, the other
   * requests open none, READ WRITE done is done, and questions are answered from the state and leave it.
   * Settings may be ignored or changed silently.
   */
  ghost predicate Honest(server: Server) {
    forall n, u, q :: HonestAnswer(u, q, server(n, u, q))
  }

  predicate HonestAnswer(u: Upstream, q: Request, a: Answer) {
    match q
    case Run(c) => a.reply.Done? ==>
      && (c.Rollback? || !u.open ==> !a.after.open)
      && (c.SetReadWrite? ==> !a.after.readOnly)
    case CountWarnings => a.after == u
    case _ => a.after == u.(warnings := a.after.warnings)
  }

  lemma {:induction false} CommandsClose(server: Server, commands: seq<Command>, index: nat, u: Upstream, step: nat)
    requires Honest(server) && index < |commands|
    requires commands[0].Rollback? && commands[|commands| - 1].SetReadWrite?
    requires index > 0 ==> !u.open
    ensures var p := RunFrom(server, commands, index, u, step); p.ok ==> !p.state.open && !p.state.readOnly
    decreases |commands| - index
  {
    assert HonestAnswer(u, Run(commands[index]), server(step, u, Run(commands[index])));
    var a := server(step, u, Run(commands[index]));
    assert HonestAnswer(a.after, CountWarnings, server(step + 1, a.after, CountWarnings));
    var p := RunOne(server, commands[index], index, u, step);
    if p.ok && index + 1 < |commands| {
      CommandsClose(server, commands, index + 1, p.state, p.step);
    }
  }

  lemma VerifyJudges(server: Server, b: Baseline, u: Upstream, step: nat)
    requires Honest(server) && !u.open && !u.readOnly && Verify(server, b, u, step).ok
    ensures Pristine(Verify(server, b, u, step).state, b)
  {
    hide Normalized, SameWords;
    var fields := server(step, u, SelectFields);
    assert HonestAnswer(u, SelectFields, fields);
    var a := server(step + 1, fields.after, SelectIsolation(false));
    assert HonestAnswer(fields.after, SelectIsolation(false), a);
    assert HonestAnswer(a.after, SelectIsolation(true), server(step + 2, a.after, SelectIsolation(true)));
    var p := ReadIsolation(server, fields.after, step + 1);
    assert HonestAnswer(p.state, CountWarnings, server(p.step, p.state, CountWarnings));
    NormalizedIff(p.state.isolation, b.isolation);
  }

  /**
   * On any upstream, honest or not: the check after the commands passes if and only if every question was
   * answered (the isolation level under its older name when, and only when, the newer one is unknown), every
   * setting was the baseline's, the level has its words, and no warnings were counted.
   */
  lemma VerifyIff(server: Server, b: Baseline, u: Upstream, step: nat)
    ensures var fields := server(step, u, SelectFields);
            var newer := server(step + 1, fields.after, SelectIsolation(false));
            var older := server(step + 2, newer.after, SelectIsolation(true));
            var (level, n) := if newer.reply.UnknownVariable? then (older, step + 3) else (newer, step + 2);
            Verify(server, b, u, step).ok <==>
              && fields.reply.Done? && level.reply.Done?
              && u.database == b.database && u.autocommit && u.charset == b.charset && u.collation == b.collation
              && u.sqlMode == b.sqlMode && u.timeZone == b.timeZone && SameWords(level.after.isolation, b.isolation)
              && level.after.warnings == 0 && server(n, level.after, CountWarnings).reply.Done?
  {
    hide Normalized, SameWords;
    var fields := server(step, u, SelectFields);
    NormalizedIff(ReadIsolation(server, fields.after, step + 1).state.isolation, b.isolation);
  }

  /** Whatever a connection was left in, a reset that succeeds leaves it pristine. */
  lemma ResetCleans(server: Server, b: Baseline, left: Upstream, step: nat)
    requires Honest(server) && ResetFrom(server, b, left, step).ok
    ensures Pristine(ResetFrom(server, b, left, step).state, b)
  {
    hide Verify, RunFrom, Pristine, Quoted, Safe;
    var commands := CommandsFor(b, ResetIsolation(b.isolation).value);
    CommandsClose(server, commands, 0, left, step);
    var p := RunFrom(server, commands, 0, left, step);
    VerifyJudges(server, b, p.state, p.step);
  }

  /** The level after a reset is the one that the baseline's words name, whatever it was before. */
  lemma LevelRestored(server: Server, b: Baseline, left: Upstream, step: nat)
    requires Honest(server) && ResetFrom(server, b, left, step).ok
    ensures var level := ResetFrom(server, b, left, step).state.isolation;
            && (Names(level, ["READ", "UNCOMMITTED"]) <==> Names(b.isolation, ["READ", "UNCOMMITTED"]))
            && (Names(level, ["READ", "COMMITTED"]) <==> Names(b.isolation, ["READ", "COMMITTED"]))
            && (Names(level, ["REPEATABLE", "READ"]) <==> Names(b.isolation, ["REPEATABLE", "READ"]))
            && (Names(level, ["SERIALIZABLE"]) <==> Names(b.isolation, ["SERIALIZABLE"]))
            && (|| Names(level, ["READ", "UNCOMMITTED"]) || Names(level, ["READ", "COMMITTED"])
                || Names(level, ["REPEATABLE", "READ"]) || Names(level, ["SERIALIZABLE"]))
  {
    hide RunFrom, Verify, CommandsFor, Normalized, Names, SameWords, Safe;
    ResetCleans(server, b, left, step);
    var level := ResetFrom(server, b, left, step).state.isolation;
    NormalizedIff(level, b.isolation);
    IsolationExactly(level);
    IsolationExactly(b.isolation);
  }

  /** Two users' leftovers become indistinguishable, up to how the server spells the isolation level. */
  lemma NothingSurvives(s1: Server, s2: Server, b: Baseline, left1: Upstream, left2: Upstream, n1: nat, n2: nat)
    requires Honest(s1) && Honest(s2) && ResetFrom(s1, b, left1, n1).ok && ResetFrom(s2, b, left2, n2).ok
    ensures var u1, u2 := ResetFrom(s1, b, left1, n1).state, ResetFrom(s2, b, left2, n2).state;
            u1 == u2.(isolation := u1.isolation) && SameWords(u1.isolation, u2.isolation)
  {
    hide ResetFrom, Normalized, SameWords;
    ResetCleans(s1, b, left1, n1);
    ResetCleans(s2, b, left2, n2);
    var u1, u2 := ResetFrom(s1, b, left1, n1).state, ResetFrom(s2, b, left2, n2).state;
    NormalizedIff(u1.isolation, b.isolation);
    NormalizedIff(u2.isolation, b.isolation);
    NormalizedIff(u1.isolation, u2.isolation);
  }

  // ---------------------------------------------------------------- checkout

  /** A connection as the pool hands it out. */
  datatype Leftover = Leftover(server: Server, state: Upstream, step: nat)

  /** The offer taken, its state, and how many connections were discarded. */
  datatype Tried = Tried(taken: Option<nat>, state: Upstream, discards: nat)

  predicate Fits(o: Option<Leftover>, b: Baseline) {
    o.Some? && ResetFrom(o.value.server, b, o.value.state, o.value.step).ok
  }

  /** The loop of `checkout` from offer `i` on: an absent offer is an error of the pool itself. */
  function TryFrom(offers: seq<Option<Leftover>>, b: Baseline, i: nat, discards: nat): Tried
    requires i <= |offers|
    decreases |offers| - i
  {
    if i == |offers| then Tried(None, Upstream(false, false, "", false, "", "", "", "", "", 0), discards)
    else if Fits(offers[i], b) then
      var o := offers[i].value;
      Tried(Some(i), ResetFrom(o.server, b, o.state, o.step).state, discards)
    else TryFrom(offers, b, i + 1, discards + if offers[i].Some? then 1 else 0)
  }

  function Present(offers: seq<Option<Leftover>>): nat {
    if offers == [] then 0
    else Present(offers[..|offers| - 1]) + if offers[|offers| - 1].Some? then 1 else 0
  }

  lemma {:induction false} TryFromTakesFirst(offers: seq<Option<Leftover>>, b: Baseline, i: nat, discards: nat)
    requires i <= |offers| && discards == Present(offers[..i])
    requires forall j | 0 <= j < i :: !Fits(offers[j], b)
    ensures var t := TryFrom(offers, b, i, discards);
            var end := if t.taken.Some? then t.taken.value else |offers|;
            && end <= |offers| && t.discards == Present(offers[..end])
            && (forall j | 0 <= j < end :: !Fits(offers[j], b))
            && (t.taken.Some? ==> end < |offers| && Fits(offers[end], b))
            && (t.taken.Some? ==> t.state == ResetFrom(offers[end].value.server, b, offers[end].value.state, offers[end].value.step).state)
    decreases |offers| - i
  {
    hide Fits, ResetFrom;
    if i < |offers| {
      assert offers[..i + 1][..i] == offers[..i];
      if !Fits(offers[i], b) {
        TryFromTakesFirst(offers, b, i + 1, discards + if offers[i].Some? then 1 else 0);
      }
    } else {
      assert offers[..i] == offers;
    }
  }

  /**
   * Checkout takes the first offer whose reset succeeds, and that connection is pristine; exactly the
   * connections offered before it are discarded and counted, and without one, all offered ones.
   */
  lemma CheckoutIsClean(offers: seq<Option<Leftover>>, b: Baseline)
    requires forall i | 0 <= i < |offers| :: offers[i].Some? ==> Honest(offers[i].value.server)
    ensures var t := TryFrom(offers, b, 0, 0);
            var end := if t.taken.Some? then t.taken.value else |offers|;
            && end <= |offers| && t.discards == Present(offers[..end])
            && (forall j | 0 <= j < end :: !Fits(offers[j], b))
            && (t.taken.Some? ==> end < |offers| && Fits(offers[end], b) && Pristine(t.state, b))
  {
    hide ResetFrom, Pristine, TryFrom, Honest;
    assert offers[..0] == [];
    TryFromTakesFirst(offers, b, 0, 0);
    var t := TryFrom(offers, b, 0, 0);
    if t.taken.Some? {
      var o := offers[t.taken.value].value;
      ResetCleans(o.server, b, o.state, o.step);
    }
  }

  // ---------------------------------------------------------------- an upstream that obliges

  predicate Escapes(sqlMode: string) { !Contains(sqlMode, "NO_BACKSLASH_ESCAPES") }

  /** Whether statements without tables leave the earlier warnings standing differs between servers. */
  function Quiet(sticky: bool, u: Upstream): Upstream {
    if sticky then u else u.(warnings := 0)
  }

  /** What a command does by the rules of SQL; no value for one the server cannot read. */
  function Effect(u: Upstream, c: Command): Option<Upstream> {
    match c
    case Rollback => Some(u.(open := false))
    case AutocommitOn => Some(u.(open := false, autocommit := true))
    case Use(name) => (
      var database := Unquoted(name, '`', false);
      if database.None? then None else Some(u.(database := database.value)))
    case SetNames(charset, collation) => Some(u.(charset := charset, collation := collation))
    case SetTimeZone(text) => (
      var zone := Unquoted(text, '\'', Escapes(u.sqlMode));
      if zone.None? then None else Some(u.(timeZone := zone.value)))
    case SetSqlMode(text) => (
      var mode := Unquoted(text, '\'', Escapes(u.sqlMode));
      if mode.None? then None else Some(u.(sqlMode := mode.value)))
    case SetIsolation(level) => Some(u.(isolation := Replaced(level, ' ', '-')))
    case SetReadWrite => Some(u.(readOnly := false))
  }

  function Oblige(sticky: bool, u: Upstream, q: Request): Answer {
    match q
    case CountWarnings => Answer(Done, u)
    case Run(c) => (
      var after := Effect(u, c);
      if after.None? then Answer(Failed, u)
      else Answer(Done, if c.Rollback? then after.value else Quiet(sticky, after.value)))
    case _ => Answer(Done, Quiet(sticky, u))
  }

  function Obliging(sticky: bool): Server { (n, u, q) => Oblige(sticky, u, q) }

  lemma ObligingIsHonest(sticky: bool)
    ensures Honest(Obliging(sticky))
  {
    hide Unquoted, Escapes, Replaced;
    forall n, u, q
      ensures HonestAnswer(u, q, Obliging(sticky)(n, u, q))
    {
      assert Obliging(sticky)(n, u, q) == Oblige(sticky, u, q);
    }
  }

  /** One command once no warnings stand. */
  lemma ObligingStep(sticky: bool, commands: seq<Command>, index: nat, u: Upstream, step: nat)
    requires 0 < index < |commands| && !commands[index].Rollback?
    requires u.warnings == 0
    ensures var p := RunFrom(Obliging(sticky), commands, index, u, step);
            var after := Effect(u, commands[index]);
            && (after.None? ==> !p.ok)
            && (after.Some? ==> after.value.warnings == 0 && p == RunFrom(Obliging(sticky), commands, index + 1, after.value, step + 2))
  {
    hide Unquoted, Escapes, Replaced;
  }

  function AfterTail(u: Upstream, b: Baseline, isolation: string, zone: string, mode: string): Upstream {
    u.(charset := b.charset, collation := b.collation, timeZone := zone, sqlMode := mode,
       isolation := Replaced(isolation, ' ', '-'), readOnly := false)
  }

  lemma TailRuns(sticky: bool, commands: seq<Command>, i: nat, b: Baseline, isolation: string, u: Upstream, step: nat)
    requires i > 0 && |commands| == i + 5 && commands[i..] == Tail(b, isolation) && u.warnings == 0
    ensures var p := RunFrom(Obliging(sticky), commands, i, u, step);
            var zone, mode := Unquoted(Quoted(b.timeZone, '\''), '\'', Escapes(u.sqlMode)), Unquoted(Quoted(b.sqlMode, '\''), '\'', Escapes(u.sqlMode));
            && (p.ok <==> zone.Some? && mode.Some?)
            && (p.ok ==> p.state == AfterTail(u, b, isolation, zone.value, mode.value))
  {
    hide Unquoted, Quoted, Escapes, Replaced, RunFrom, Obliging;
    assert forall k | 0 <= k < 5 :: commands[i + k] == Tail(b, isolation)[k];
    ObligingStep(sticky, commands, i, u, step);
    var u1 := Effect(u, commands[i]).value;
    ObligingStep(sticky, commands, i + 1, u1, step + 2);
    var zone := Effect(u1, commands[i + 1]);
    if zone.Some? {
      var u2 := zone.value;
      ObligingStep(sticky, commands, i + 2, u2, step + 4);
      var mode := Effect(u2, commands[i + 2]);
      if mode.Some? {
        var u3 := mode.value;
        ObligingStep(sticky, commands, i + 3, u3, step + 6);
        var u4 := Effect(u3, commands[i + 3]).value;
        ObligingStep(sticky, commands, i + 4, u4, step + 8);
        RunEnds(sticky, commands, Effect(u4, commands[i + 4]).value, step + 10);
      }
    }
  }

  lemma RunEnds(sticky: bool, commands: seq<Command>, u: Upstream, step: nat)
    ensures RunFrom(Obliging(sticky), commands, |commands|, u, step) == Progress(true, u, step)
  {
  }

  lemma HeadRuns(sticky: bool, commands: seq<Command>, u: Upstream, step: nat)
    requires |commands| >= 2 && commands[0] == Rollback && commands[1] == AutocommitOn
    ensures var p := RunFrom(Obliging(sticky), commands, 0, u, step);
            if sticky && u.warnings > 0 then !p.ok
            else p == RunFrom(Obliging(sticky), commands, 2, u.(open := false, autocommit := true, warnings := 0), step + 3)
  {
    hide Unquoted, Escapes, Replaced;
    var u1 := u.(open := false);
    assert RunOne(Obliging(sticky), commands[0], 0, u, step) == Progress(true, u1, step + 1);
    assert RunFrom(Obliging(sticky), commands, 0, u, step) == RunFrom(Obliging(sticky), commands, 1, u1, step + 1);
    assert RunOne(Obliging(sticky), commands[1], 1, u1, step + 1).state == Quiet(sticky, u1.(autocommit := true));
  }

  lemma VerifyObliged(sticky: bool, b: Baseline, u: Upstream, step: nat)
    requires u.warnings == 0 && Normalized(u.isolation) == Normalized(b.isolation)
    ensures Verify(Obliging(sticky), b, u, step).ok <==> FieldsMatch(u, b)
  {
    hide Normalized;
  }

  /** The commands of a supported baseline, run on a connection by an obliging upstream. */
  lemma CommandsOblige(sticky: bool, b: Baseline, left: Upstream, step: nat, isolation: string)
    requires !(sticky && left.warnings > 0)
    ensures var p := RunFrom(Obliging(sticky), CommandsFor(b, isolation), 0, left, step);
            var u := left.(open := false, autocommit := true, warnings := 0, database := if b.database != "" then b.database else left.database);
            var zone, mode := Unquoted(Quoted(b.timeZone, '\''), '\'', Escapes(left.sqlMode)), Unquoted(Quoted(b.sqlMode, '\''), '\'', Escapes(left.sqlMode));
            && (p.ok <==> zone.Some? && mode.Some?)
            && (p.ok ==> p.state == AfterTail(u, b, isolation, zone.value, mode.value))
  {
    hide Unquoted, Quoted, Escapes, Replaced, RunFrom, Obliging;
    var commands := CommandsFor(b, isolation);
    HeadRuns(sticky, commands, left, step);
    var u := left.(open := false, autocommit := true, warnings := 0);
    if b.database != "" {
      assert commands[2] == Use(Quoted(b.database, '`'));
      UnquoteQuotedIff(b.database, '`', false);
      ObligingStep(sticky, commands, 2, u, step + 3);
      assert commands[3..] == Tail(b, isolation);
      TailRuns(sticky, commands, 3, b, isolation, u.(database := b.database), step + 5);
    } else {
      assert commands[2..] == Tail(b, isolation);
      TailRuns(sticky, commands, 2, b, isolation, u, step + 3);
    }
  }

  /**
   * With an obliging upstream the reset succeeds if and only if the baseline is supported, a database is
   * there to go back to (or none was chosen), no old warnings stand, and the quoted settings hold no
   * backslash that the connection's SQL mode would read as an escape.
   */
  lemma ObligingResetIff(sticky: bool, b: Baseline, left: Upstream, step: nat)
    ensures ResetFrom(Obliging(sticky), b, left, step).ok
      <==> && Supported(b)
           && (b.database != "" || left.database == "")
           && (sticky ==> left.warnings == 0)
           && (Escapes(left.sqlMode) ==> Plain(b.timeZone) && Plain(b.sqlMode))
  {
    hide Unquoted, Quoted, Escapes, Replaced, RunFrom, Obliging, CommandsFor, Verify, Normalized, Plain, Safe, ResetIsolation;
    if Supported(b) {
      var isolation := ResetIsolation(b.isolation).value;
      if sticky && left.warnings > 0 {
        CommandsStart(b, isolation);
        HeadRuns(sticky, CommandsFor(b, isolation), left, step);
      } else {
        CommandsOblige(sticky, b, left, step, isolation);
        UnquoteQuotedIff(b.timeZone, '\'', Escapes(left.sqlMode));
        UnquoteQuotedIff(b.sqlMode, '\'', Escapes(left.sqlMode));
        var p := RunFrom(Obliging(sticky), CommandsFor(b, isolation), 0, left, step);
        if p.ok {
          SupportedIsolationStays(b.isolation);
          VerifyObliged(sticky, b, p.state, p.step);
        }
      }
    }
  }

  lemma CommandsStart(b: Baseline, isolation: string)
    ensures var c := CommandsFor(b, isolation); |c| >= 2 && c[0] == Rollback && c[1] == AutocommitOn
  {
    hide Quoted;
  }

  /** Whether old warnings cost a connection is up to the server: one that keeps them through SET does, another does not. */
  lemma OldWarningsDiscardIff(sticky: bool, b: Baseline, left: Upstream, step: nat)
    requires Supported(b) && b.database != "" && Plain(b.timeZone) && Plain(b.sqlMode) && left.warnings > 0
    ensures ResetFrom(Obliging(sticky), b, left, step).ok <==> !sticky
  {
    hide ResetFrom, Obliging, Supported, Plain;
    ObligingResetIff(sticky, b, left, step);
  }

  // ---------------------------------------------------------------- the code

  class Connection {
    const server: Server
    var state: Upstream
    var step: nat
    var discarded: bool

    constructor (server: Server, state: Upstream)
      ensures this.server == server && this.state == state && step == 0 && !discarded
    {
      this.server, this.state, step, discarded := server, state, 0, false;
    }

    /** `discardConnection`: the connection is reported bad and closed, and never used again. */
    method Discard()
      modifies this`discarded
      ensures discarded
    {
      discarded := true;
    }

    function Left(): Leftover
      reads this
    {
      Leftover(server, state, step)
    }

    method Ask(q: Request) returns (reply: Reply)
      modifies this`state, this`step
      ensures Answer(reply, state) == server(old(step), old(state), q) && step == old(step) + 1
    {
      var a := server(step, state, q);
      state, step, reply := a.after, step + 1, a.reply;
    }
  }

  method RequireNoResetWarnings(c: Connection) returns (ok: bool)
    modifies c`state, c`step
    ensures Progress(ok, c.state, c.step) == old(NoWarnings(c.server, c.state, c.step))
  {
    var warnings := c.state.warnings;
    var reply := c.Ask(CountWarnings);
    return reply.Done? && warnings == 0;
  }

  method VerifyReset(c: Connection, b: Baseline) returns (ok: bool)
    modifies c`state, c`step
    ensures Progress(ok, c.state, c.step) == old(Verify(c.server, b, c.state, c.step))
  {
    hide Normalized;
    var matched := FieldsMatch(c.state, b);
    var reply := c.Ask(SelectFields);
    if !reply.Done? {
      return false;
    }
    reply := c.Ask(SelectIsolation(false));
    if reply.UnknownVariable? {
      reply := c.Ask(SelectIsolation(true));
    }
    if !reply.Done? {
      return false;
    }
    if !matched || Normalized(c.state.isolation) != Normalized(b.isolation) {
      return false;
    }
    ok := RequireNoResetWarnings(c);
  }

  method ResetConnection(c: Connection, b: Baseline) returns (ok: bool)
    modifies c`state, c`step
    ensures Progress(ok, c.state, c.step) == old(ResetFrom(c.server, b, c.state, c.step))
  {
    hide Quoted, Verify, Safe, ResetIsolation;
    var isolation := ResetIsolation(b.isolation);
    if isolation.None? {
      return false;
    }
    var charsetSafe := SafeResetIdentifier(b.charset);
    var collationSafe := SafeResetIdentifier(b.collation);
    if !charsetSafe || !collationSafe {
      return false;
    }
    var commands := [Rollback, AutocommitOn];
    if b.database != "" {
      commands := commands + [Use(Quoted(b.database, '`'))];
    }
    commands := commands + Tail(b, isolation.value);
    assert commands == CommandsFor(b, isolation.value);
    var index := 0;
    while index < |commands|
      invariant index <= |commands|
      invariant old(RunFrom(c.server, commands, 0, c.state, c.step)) == RunFrom(c.server, commands, index, c.state, c.step)
    {
      var reply := c.Ask(Run(commands[index]));
      if !reply.Done? {
        return false;
      }
      if index > 0 {
        var quiet := RequireNoResetWarnings(c);
        if !quiet {
          return false;
        }
      }
      index := index + 1;
    }
    ok := VerifyReset(c, b);
  }

  class Service {
    const baseline: Baseline
    var resetDiscards: nat

    constructor (baseline: Baseline)
      ensures this.baseline == baseline && resetDiscards == 0
    {
      this.baseline, resetDiscards := baseline, 0;
    }

    /** `offers` are the pool's two answers, without a connection where the pool itself failed; the pool offers no discarded one. */
    method Checkout(offers: seq<Connection?>) returns (r: Connection?)
      requires |offers| == 2 && (offers[0] == null || offers[0] != offers[1])
      requires forall i | 0 <= i < 2 :: offers[i] != null ==> !offers[i].discarded
      modifies this, set i | 0 <= i < 2 && offers[i] != null :: offers[i]
      ensures var t := old(TryFrom(Offered(offers), baseline, 0, 0));
              && resetDiscards == old(resetDiscards) + t.discards
              && (r == null <==> t.taken.None?)
              && (r != null ==> t.taken.value < 2 && r == offers[t.taken.value] && r.state == t.state)
              && forall i | 0 <= i < 2 && offers[i] != null :: offers[i].discarded <==> (t.taken.Some? ==> i < t.taken.value)
    {
      hide ResetFrom;
      ghost var lefts := Offered(offers);
      var attempt := 0;
      while attempt < 2
        invariant attempt <= 2 && resetDiscards >= old(resetDiscards)
        invariant forall j | attempt <= j < 2 :: lefts[j] == if offers[j] == null then None else Some(offers[j].Left())
        invariant forall j | 0 <= j < 2 && offers[j] != null :: offers[j].discarded <==> j < attempt
        invariant TryFrom(lefts, baseline, 0, 0) == TryFrom(lefts, baseline, attempt, resetDiscards - old(resetDiscards))
      {
        var connection := offers[attempt];
        if connection != null {
          var ok := ResetConnection(connection, baseline);
          if ok {
            return connection;
          }
          connection.Discard();
          resetDiscards := resetDiscards + 1;
        }
        attempt := attempt + 1;
      }
      r := null;
    }
  }

  function Offered(offers: seq<Connection?>): seq<Option<Leftover>>
    reads set i | 0 <= i < |offers| && offers[i] != null :: offers[i]
  {
    seq(|offers|, i requires 0 <= i < |offers| reads set j | 0 <= j < |offers| && offers[j] != null :: offers[j] =>
      if offers[i] == null then None else Some(offers[i].Left()))
  }
}
