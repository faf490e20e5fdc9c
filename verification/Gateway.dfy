/** Many sessions over one service: the shared counters over every interleaving of commands. */
module Gateway {
  import opened LogicalState
  import opened Upstream
  import opened Session
  import opened SessionInvariant
  import SessionRuns

  type Client = nat

  /** The open sessions, the shared counters, and how many upstream commits have succeeded in any session. */
  datatype System = System(c: Counters, sessions: map<Client, Session>, committed: int)

  datatype Event =
    | Connect(client: Client)
    | Serve(client: Client, turn: Turn)

  /** What the pool and the listener see to: connections are handed out exclusively, and a client connects once. */
  predicate Possible(y: System, ev: Event) {
    match ev
    case Connect(k) => k !in y.sessions
    case Serve(k, t) =>
      && k in y.sessions
      && (t.e.checkout.Some? ==> forall other | other in y.sessions :: y.sessions[other].pinned != t.e.checkout)
  }

  /** Besides, handle ids have not wrapped onto a live one. */
  predicate Enabled(y: System, ev: Event) {
    Possible(y, ev) && (ev.Serve? && ev.turn.command.Prepare? ==> IdFree(y.sessions[ev.client]))
  }

  /** The session and counters after one served turn. */
  function Served(y: System, k: Client, t: Turn): (World, bool)
    requires k in y.sessions
  {
    var o := Dispatch(World(y.sessions[k], y.c), t.command, t.e);
    (if o.alive then o.w else Close(o.w, t.e), o.alive)
  }

  function Next(y: System, b: Baseline, ev: Event): System
    requires Possible(y, ev)
  {
    match ev
    case Connect(k) => y.(sessions := y.sessions[k := NewSession(b)])
    case Serve(k, t) =>
      var (x, alive) := Served(y, k, t);
      System(x.c,
             if alive then y.sessions[k := x.s] else y.sessions - {k},
             y.committed + Commits(x.s.log) - Commits(y.sessions[k].log))
  }

  function PinnedClients(sessions: map<Client, Session>): set<Client> {
    set k | k in sessions && sessions[k].pinned.Some?
  }

  /** Slots in use and the gauge both count the pinned sessions; the generation counts the commits. */
  ghost predicate Balanced(y: System) {
    && (forall k | k in y.sessions :: Inv(y.sessions[k]))
    && y.c.slots == |PinnedClients(y.sessions)|
    && y.c.pinned == |PinnedClients(y.sessions)|
    && y.c.commitGeneration == y.committed
  }

  /** Two sets of clients that differ at most in one client. */
  lemma DifferAtOne(before: set<Client>, after: set<Client>, k: Client)
    requires before - {k} == after - {k}
    ensures |after| - |before| == Bit(k in after) - Bit(k in before)
  {
    assert before == if k in before then (before - {k}) + {k} else before - {k};
    assert after == if k in after then (after - {k}) + {k} else after - {k};
  }

  lemma ServedKeeps(y: System, k: Client, t: Turn)
    requires Enabled(y, Event.Serve(k, t)) && Inv(y.sessions[k])
    ensures var (x, alive) := Served(y, k, t);
            var pins := Bit(x.s.pinned.Some?) - Bit(y.sessions[k].pinned.Some?);
            && x.c.slots - y.c.slots == pins && x.c.pinned - y.c.pinned == pins
            && x.c.commitGeneration - y.c.commitGeneration == Commits(x.s.log) - Commits(y.sessions[k].log)
            && (if alive then Inv(x.s) else x.s.pinned.None?)
  {
    hide Replay, Commits, Tracked, Dispatch, Close;
    var w := World(y.sessions[k], y.c);
    SessionRuns.DispatchKeeps(w, t.command, t.e);
    var o := Dispatch(w, t.command, t.e);
    if !o.alive { CloseKeeps(o.w, t.e); }
  }

  lemma ServePins(y: System, k: Client, x: Session, alive: bool)
    requires k in y.sessions && (!alive ==> x.pinned.None?)
    ensures var after := if alive then y.sessions[k := x] else y.sessions - {k};
            |PinnedClients(after)| - |PinnedClients(y.sessions)| == Bit(x.pinned.Some?) - Bit(y.sessions[k].pinned.Some?)
  {
    var after := if alive then y.sessions[k := x] else y.sessions - {k};
    var p, q := PinnedClients(y.sessions), PinnedClients(after);
    assert forall j :: j in p - {k} <==> j in q - {k};
    assert p - {k} == q - {k};
    DifferAtOne(p, q, k);
  }

  lemma NextKeepsBalance(y: System, b: Baseline, ev: Event)
    requires Balanced(y) && Enabled(y, ev) && b.charset == "utf8mb4"
    ensures Balanced(Next(y, b, ev))
  {
    hide Replay, Commits, Inv, Served;
    match ev
    case Connect(k) =>
      var z := Next(y, b, ev);
      assert PinnedClients(z.sessions) == PinnedClients(y.sessions);
      FreshIsSound(b);
    case Serve(k, t) =>
      ServedKeeps(y, k, t);
      var (x, alive) := Served(y, k, t);
      ServePins(y, k, x.s, alive);
  }

  lemma FreshIsSound(b: Baseline)
    requires b.charset == "utf8mb4"
    ensures Inv(NewSession(b))
  {
  }

  // ---------------------------------------------------------------- runs

  ghost predicate Run(b: Baseline, states: seq<System>, events: seq<Event>) {
    && |states| == |events| + 1
    && states[0] == System(Counters(0, 0, 0), map[], 0)
    && forall i | 0 <= i < |events| :: Enabled(states[i], events[i]) && states[i + 1] == Next(states[i], b, events[i])
  }

  /**
   * Over every interleaving of every number of clients: admission slots and the pinned gauge both
   * equal the number of pinned sessions, the commit generation equals the successful upstream
   * commits, and when all sessions have ended the admission channel is empty.
   */
  lemma {:induction false} CountersOverEveryInterleaving(b: Baseline, states: seq<System>, events: seq<Event>, i: nat)
    requires b.charset == "utf8mb4" && Run(b, states, events) && i < |states|
    ensures Balanced(states[i])
    ensures states[i].sessions == map[] ==> states[i].c.slots == 0 && states[i].c.pinned == 0
  {
    hide Next, Enabled, Inv;
    if i > 0 {
      CountersOverEveryInterleaving(b, states, events, i - 1);
      NextKeepsBalance(states[i - 1], b, events[i - 1]);
    }
    if states[i].sessions == map[] {
      assert PinnedClients(states[i].sessions) == {};
    }
  }

  // ---------------------------------------------------------------- few prepares

  /** The prepares a client has served since it last connected, before event `n`. */
  function PreparesSince(events: seq<Event>, n: nat, k: Client): nat
    requires n <= |events|
  {
    if n == 0 then 0 else
    match events[n - 1]
    case Connect(j) => if j == k then 0 else PreparesSince(events, n - 1, k)
    case Serve(j, t) => PreparesSince(events, n - 1, k) + if j == k && t.command.Prepare? then 1 else 0
  }

  ghost predicate PossibleRun(b: Baseline, states: seq<System>, events: seq<Event>) {
    && |states| == |events| + 1
    && states[0] == System(Counters(0, 0, 0), map[], 0)
    && forall i | 0 <= i < |events| :: Possible(states[i], events[i]) && states[i + 1] == Next(states[i], b, events[i])
  }

  /** Each session's handle ids are at most its prepares. */
  ghost predicate IdsCounted(y: System, events: seq<Event>, n: nat)
    requires n <= |events|
  {
    forall k | k in y.sessions :: SessionRuns.IdsBelow(y.sessions[k], PreparesSince(events, n, k))
  }

  lemma CountedIsFree(s: Session, prepares: nat)
    requires SessionRuns.IdsBelow(s, prepares) && prepares + 1 < SessionRuns.PrepareLimit
    ensures IdFree(s)
  {
  }

  lemma StepCounts(b: Baseline, y: System, events: seq<Event>, n: nat, m: nat)
    requires m == n + 1 <= |events| && Possible(y, events[n]) && IdsCounted(y, events, n) && Balanced(y) && b.charset == "utf8mb4"
    requires forall k: Client :: PreparesSince(events, m, k) < SessionRuns.PrepareLimit
    ensures Enabled(y, events[n]) && IdsCounted(Next(y, b, events[n]), events, m)
  {
    hide Inv, Dispatch, Close, SessionRuns.IdsBelow;
    match events[n]
    case Connect(k) => FreshCounts(b);
    case Serve(k, t) =>
      var s, prepares := y.sessions[k], PreparesSince(events, n, k);
      assert PreparesSince(events, m, k) == prepares + if t.command.Prepare? then 1 else 0;
      if t.command.Prepare? {
        CountedIsFree(s, prepares);
      }
      SessionRuns.TurnKeeps(World(s, y.c), t, prepares);
  }

  lemma FreshCounts(b: Baseline)
    ensures SessionRuns.IdsBelow(NewSession(b), 0)
  {
  }

  /** Every possible run in which no session serves 2^32 prepares is one the theorems above speak of. */
  lemma {:induction false} FewPreparesNeverWrap(b: Baseline, states: seq<System>, events: seq<Event>, i: nat)
    requires b.charset == "utf8mb4" && PossibleRun(b, states, events) && i < |states|
    requires forall n: nat, k: Client | n <= |events| :: PreparesSince(events, n, k) < SessionRuns.PrepareLimit
    ensures Balanced(states[i]) && IdsCounted(states[i], events, i)
    ensures forall j | 0 <= j < i :: Enabled(states[j], events[j])
  {
    hide Next, Inv, Possible, Enabled, IdsCounted;
    if i == 0 {
      StartCounts(states[0], events);
    } else {
      FewPreparesNeverWrap(b, states, events, i - 1);
      StepCounts(b, states[i - 1], events, i - 1, i);
      NextKeepsBalance(states[i - 1], b, events[i - 1]);
    }
  }

  lemma StartCounts(y: System, events: seq<Event>)
    requires y == System(Counters(0, 0, 0), map[], 0)
    ensures Balanced(y) && IdsCounted(y, events, 0)
  {
    assert PinnedClients(y.sessions) == {};
  }

  /** The counters over every possible run in which no session serves 2^32 prepares. */
  lemma CountersWithFewPrepares(b: Baseline, states: seq<System>, events: seq<Event>, i: nat)
    requires b.charset == "utf8mb4" && PossibleRun(b, states, events) && i < |states|
    requires forall n: nat, k: Client | n <= |events| :: PreparesSince(events, n, k) < SessionRuns.PrepareLimit
    ensures Run(b, states, events) && Balanced(states[i])
    ensures states[i].sessions == map[] ==> states[i].c.slots == 0 && states[i].c.pinned == 0
  {
    hide Next, Inv, Possible, Enabled, IdsCounted, Balanced;
    FewPreparesNeverWrap(b, states, events, |events|);
    CountersOverEveryInterleaving(b, states, events, i);
  }
}
