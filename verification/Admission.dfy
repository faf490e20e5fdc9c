/**
 * `Service.acquire` as interleaved atomic steps of any number of clients over the admission and
 * queue channels and the `waiting` and `queuedBytes` counters. A phase is the point between two
 * atomic operations at which a client stands.
 */
module Admission {

  datatype Limits = Limits(maxUpstream: nat, maxQueued: nat, maxBytes: nat)

  datatype Phase =
    | Idle
    | Trying(request: int)                 // before the non-blocking send on admission
    | Full(request: int)                   // admission was full: before the non-blocking send on queue
    | Queued(bytes: nat)                   // holds a queue token: before queuedBytes.Add
    | Over(bytes: nat)                     // the sum was too large: before the undo
    | Undone                               // bytes taken back: before the receive from queue
    | Passed(bytes: nat)                   // past the byte check: before waiting.Add(1)
    | Waiting(bytes: nat)                  // in the select
    | Leaving(bytes: nat, admitted: bool)  // deferred: before waiting.Add(-1)
    | Paying(bytes: nat, admitted: bool)   // deferred: before queuedBytes.Add(-n)
    | Dequeuing(admitted: bool)            // deferred: before the receive from queue
    | Holding                              // owns a slot until release

  datatype State = State(
    phases: seq<Phase>,
    admission: int,      // tokens in the admission channel
    queue: int,          // tokens in the queue channel
    waiting: int,
    queuedBytes: int)

  datatype Action = Request(bytes: int) | Proceed | Cancel

  function Clamp(request: int): nat { if request < 0 then 0 else request }

  /** Whether client `i` can take the step: a send needs room, a receive needs a token. */
  predicate Enabled(l: Limits, s: State, i: nat, a: Action) {
    && i < |s.phases|
    && match a
       case Request(_) => s.phases[i].Idle?
       case Cancel => s.phases[i].Waiting?
       case Proceed =>
         match s.phases[i]
         case Idle => false
         case Waiting(_) => s.admission < l.maxUpstream
         case Undone | Dequeuing(_) => s.queue > 0
         case Holding => s.admission > 0
         case _ => true
  }

  function At(s: State, i: nat, p: Phase): State
    requires i < |s.phases|
  {
    s.(phases := s.phases[i := p])
  }

  function Step(l: Limits, s: State, i: nat, a: Action): State
    requires Enabled(l, s, i, a)
  {
    match a
    case Request(bytes) => At(s, i, Trying(bytes))
    case Cancel => At(s, i, Leaving(s.phases[i].bytes, false))
    case Proceed =>
      match s.phases[i]
      case Trying(request) =>
        if s.admission < l.maxUpstream then At(s, i, Holding).(admission := s.admission + 1) else At(s, i, Full(request))
      case Full(request) =>
        if Clamp(request) > l.maxBytes || s.queue >= l.maxQueued then At(s, i, Idle)
        else At(s, i, Queued(Clamp(request))).(queue := s.queue + 1)
      case Queued(bytes) =>
        if bytes == 0 then At(s, i, Passed(0))
        else if s.queuedBytes + bytes > l.maxBytes then At(s, i, Over(bytes)).(queuedBytes := s.queuedBytes + bytes)
        else At(s, i, Passed(bytes)).(queuedBytes := s.queuedBytes + bytes)
      case Over(bytes) => At(s, i, Undone).(queuedBytes := s.queuedBytes - bytes)
      case Undone => At(s, i, Idle).(queue := s.queue - 1)
      case Passed(bytes) => At(s, i, Waiting(bytes)).(waiting := s.waiting + 1)
      case Waiting(bytes) => At(s, i, Leaving(bytes, true)).(admission := s.admission + 1)
      case Leaving(bytes, admitted) => At(s, i, Paying(bytes, admitted)).(waiting := s.waiting - 1)
      case Paying(bytes, admitted) => At(s, i, Dequeuing(admitted)).(queuedBytes := s.queuedBytes - bytes)
      case Dequeuing(admitted) => At(s, i, if admitted then Holding else Idle).(queue := s.queue - 1)
      case Holding => At(s, i, Idle).(admission := s.admission - 1)
  }

  // ---------------------------------------------------------------- what a client holds in each phase

  function Slot(p: Phase): int {
    if p.Holding? || ((p.Leaving? || p.Paying? || p.Dequeuing?) && p.admitted) then 1 else 0
  }

  function Token(p: Phase): int {
    if p.Idle? || p.Trying? || p.Full? || p.Holding? then 0 else 1
  }

  function Gauge(p: Phase): int { if p.Waiting? || p.Leaving? then 1 else 0 }

  /** Bytes added to the raw counter and not yet taken back. */
  function Added(p: Phase): int {
    if p.Over? || p.Passed? || p.Waiting? || p.Leaving? || p.Paying? then p.bytes else 0
  }

  /** Bytes of a request past the byte check. */
  function Cleared(p: Phase): int { if p.Over? then 0 else Added(p) }

  function Total(ps: seq<Phase>, f: Phase -> int): int {
    if ps == [] then 0 else f(ps[0]) + Total(ps[1..], f)
  }

  lemma {:induction false} TotalUpdate(ps: seq<Phase>, i: nat, p: Phase, f: Phase -> int)
    requires i < |ps|
    ensures Total(ps[i := p], f) == Total(ps, f) - f(ps[i]) + f(p)
  {
    if i > 0 {
      TotalUpdate(ps[1..], i - 1, p, f);
      assert ps[i := p][1..] == ps[1..][i - 1 := p];
    } else {
      assert ps[0 := p][1..] == ps[1..];
    }
  }

  /** A weight that another one bounds pointwise, up to a factor, is bounded in total. */
  lemma {:induction false} TotalBelow(ps: seq<Phase>, f: Phase -> int, g: Phase -> int, factor: int)
    requires forall p | p in ps :: 0 <= f(p) <= factor * g(p)
    ensures 0 <= Total(ps, f) <= factor * Total(ps, g)
  {
    if ps != [] {
      TotalBelow(ps[1..], f, g, factor);
      assert factor * Total(ps, g) == factor * g(ps[0]) + factor * Total(ps[1..], g);
    }
  }

  lemma {:induction false} TotalAtLeast(ps: seq<Phase>, i: nat, f: Phase -> int)
    requires i < |ps| && forall p | p in ps :: 0 <= f(p)
    ensures f(ps[i]) <= Total(ps, f) && 0 <= Total(ps, f)
  {
    if i > 0 {
      TotalAtLeast(ps[1..], i - 1, f);
    } else if |ps| > 1 {
      TotalAtLeast(ps[1..], 0, f);
    }
  }

  // ---------------------------------------------------------------- the invariant

  predicate Sized(l: Limits, p: Phase) {
    (p.Queued? || p.Over? || p.Passed? || p.Waiting? || p.Leaving? || p.Paying?) ==> p.bytes <= l.maxBytes
  }

  /** Every counter is the sum of what the clients hold, and the bounds hold. */
  ghost predicate Inv(l: Limits, s: State) {
    && (forall p | p in s.phases :: Sized(l, p))
    && s.admission == Total(s.phases, Slot) <= l.maxUpstream
    && s.queue == Total(s.phases, Token) <= l.maxQueued
    && s.waiting == Total(s.phases, Gauge)
    && s.queuedBytes == Total(s.phases, Added)
    && Total(s.phases, Cleared) <= l.maxBytes
  }

  lemma StepKeepsInv(l: Limits, s: State, i: nat, a: Action)
    requires Inv(l, s) && Enabled(l, s, i, a)
    ensures Inv(l, Step(l, s, i, a))
  {
    hide Total;
    var t := Step(l, s, i, a);
    var p := t.phases[i];
    assert t.phases == s.phases[i := p];
    TotalUpdate(s.phases, i, p, Slot);
    TotalUpdate(s.phases, i, p, Token);
    TotalUpdate(s.phases, i, p, Gauge);
    TotalUpdate(s.phases, i, p, Added);
    TotalUpdate(s.phases, i, p, Cleared);
    assert Sized(l, s.phases[i]) && Sized(l, p);
    forall q | q in t.phases
      ensures Sized(l, q)
    {
      assert q in s.phases || q == p;
    }
    if a.Proceed? && s.phases[i].Queued? && p.Passed? && p.bytes > 0 {
      // the sum the atomic add returned bounds all cleared bytes, the racing adds included
      TotalBelow(t.phases, Cleared, Added, 1);
    }
  }

  // ---------------------------------------------------------------- every interleaving

  datatype Move = Move(client: nat, action: Action)

  ghost predicate Run(l: Limits, n: nat, states: seq<State>, moves: seq<Move>) {
    && |states| == |moves| + 1
    && states[0] == State(seq(n, _ => Idle), 0, 0, 0, 0)
    && forall k | 0 <= k < |moves| ::
         Enabled(l, states[k], moves[k].client, moves[k].action)
         && states[k + 1] == Step(l, states[k], moves[k].client, moves[k].action)
  }

  lemma {:induction false} IdleTotals(n: nat, f: Phase -> int)
    requires f(Idle) == 0
    ensures Total(seq(n, _ => Idle), f) == 0
  {
    if n > 0 {
      IdleTotals(n - 1, f);
      assert seq(n, _ => Idle)[1..] == seq(n - 1, _ => Idle);
    }
  }

  lemma {:induction false} InvOverEveryInterleaving(l: Limits, n: nat, states: seq<State>, moves: seq<Move>, k: nat)
    requires Run(l, n, states, moves) && k < |states|
    ensures Inv(l, states[k])
  {
    if k == 0 {
      IdleTotals(n, Slot);
      IdleTotals(n, Token);
      IdleTotals(n, Gauge);
      IdleTotals(n, Added);
      IdleTotals(n, Cleared);
    } else {
      InvOverEveryInterleaving(l, n, states, moves, k - 1);
      StepKeepsInv(l, states[k - 1], moves[k - 1].client, moves[k - 1].action);
    }
  }

  /**
   * At every point of every interleaving: admission tokens are the holders and within the limit,
   * queue tokens the queued clients and within theirs, the gauge within the queue; the cleared
   * bytes within the byte limit, the raw counter exactly the added bytes and within queue times limit.
   */
  lemma BoundsOverEveryInterleaving(l: Limits, n: nat, states: seq<State>, moves: seq<Move>, k: nat)
    requires Run(l, n, states, moves) && k < |states|
    ensures var s := states[k];
            && 0 <= s.admission == Total(s.phases, Slot) <= l.maxUpstream
            && 0 <= s.waiting <= s.queue == Total(s.phases, Token) <= l.maxQueued
            && Total(s.phases, Cleared) <= l.maxBytes
            && 0 <= s.queuedBytes == Total(s.phases, Added) <= l.maxQueued * l.maxBytes
  {
    hide Total, Step, Enabled, Run;
    InvOverEveryInterleaving(l, n, states, moves, k);
    var s := states[k];
    TotalBelow(s.phases, Slot, Slot, 1);
    TotalBelow(s.phases, Gauge, Token, 1);
    forall p | p in s.phases
      ensures 0 <= Added(p) <= l.maxBytes * Token(p)
    {
      assert Sized(l, p);
    }
    TotalBelow(s.phases, Added, Token, l.maxBytes);
    Product(l.maxBytes, Total(s.phases, Token), l.maxQueued);
  }

  lemma Product(a: nat, b: int, c: int)
    requires b <= c
    ensures a * b <= c * a
  {
    assert a * b <= a * c;
  }

  /** No receive can block: a client inside acquire or holding a slot is stuck exactly when it waits for a full channel. */
  lemma OnlyAdmissionBlocks(l: Limits, n: nat, states: seq<State>, moves: seq<Move>, k: nat, i: nat)
    requires Run(l, n, states, moves) && k < |states| && i < |states[k].phases| && !states[k].phases[i].Idle?
    ensures Enabled(l, states[k], i, Proceed) <==> !(states[k].phases[i].Waiting? && states[k].admission == l.maxUpstream)
  {
    InvOverEveryInterleaving(l, n, states, moves, k);
    TotalAtLeast(states[k].phases, i, Slot);
    TotalAtLeast(states[k].phases, i, Token);
  }

  /** The phases of everybody but client `i`. */
  function OtherClients(ps: seq<Phase>, i: nat): seq<Phase>
    requires i < |ps|
  {
    ps[..i] + ps[i + 1..]
  }

  lemma {:induction false} TotalSplit(ps: seq<Phase>, i: nat, f: Phase -> int)
    requires i < |ps|
    ensures Total(ps, f) == f(ps[i]) + Total(OtherClients(ps, i), f)
  {
    if i > 0 {
      TotalSplit(ps[1..], i - 1, f);
      assert OtherClients(ps, i)[1..] == OtherClients(ps[1..], i - 1);
    } else {
      assert OtherClients(ps, 0) == ps[1..];
    }
  }

  /**
   * A client that is idle again, whether its acquire failed or its slot was released, has left
   * every counter exactly as the others alone account for, however they moved meanwhile.
   */
  lemma IdleClientOwesNothing(l: Limits, n: nat, states: seq<State>, moves: seq<Move>, k: nat, i: nat)
    requires Run(l, n, states, moves) && k < |states| && i < |states[k].phases| && states[k].phases[i].Idle?
    ensures var s := states[k];
            var others := OtherClients(s.phases, i);
            && s.admission == Total(others, Slot) && s.queue == Total(others, Token)
            && s.waiting == Total(others, Gauge) && s.queuedBytes == Total(others, Added)
  {
    InvOverEveryInterleaving(l, n, states, moves, k);
    TotalSplit(states[k].phases, i, Slot);
    TotalSplit(states[k].phases, i, Token);
    TotalSplit(states[k].phases, i, Gauge);
    TotalSplit(states[k].phases, i, Added);
  }

  // ---------------------------------------------------------------- who is admitted, who waits and who is refused

  /** What becomes of client `i` by its own step, decided by its request and by what all the others hold. */
  ghost predicate Decided(l: Limits, s: State, t: State, i: nat, a: Action)
    requires i < |s.phases| == |t.phases|
  {
    var others, p, q := OtherClients(s.phases, i), s.phases[i], t.phases[i];
    var slots, tokens, bytes := Total(others, Slot), Total(others, Token), Total(others, Added);
    && OtherClients(t.phases, i) == others
    // admitted at once while a slot is free
    && (p.Trying? ==> q == if slots < l.maxUpstream then Holding else Full(p.request))
    // refused when it is too large by itself or the queue is full, queued otherwise
    && (p.Full? ==> q == if p.request > l.maxBytes || tokens == l.maxQueued then Idle else Queued(if p.request < 0 then 0 else p.request))
    // refused when its bytes and those of all others exceed the limit; a request without bytes never is
    && (p.Queued? ==> q == if p.bytes > 0 && bytes + p.bytes > l.maxBytes then Over(p.bytes) else Passed(p.bytes))
    // admitted from the queue when a slot comes free, or gone without one
    && (p.Waiting? ==> q == Leaving(p.bytes, a.Proceed?) && (a.Proceed? ==> slots < l.maxUpstream))
    && (q.Holding? <==> (p.Trying? && slots < l.maxUpstream) || (p.Dequeuing? && p.admitted))
    && (q.Idle? <==>
          || (p.Full? && (p.request > l.maxBytes || tokens == l.maxQueued))
          || p.Undone? || (p.Dequeuing? && !p.admitted) || p.Holding?)
    && (q.Over? <==> p.Queued? && p.bytes > 0 && bytes + p.bytes > l.maxBytes)
  }

  /** At every step of every interleaving the client is admitted, queued or refused as its request and the others' holdings say. */
  lemma DecisionsOverEveryInterleaving(l: Limits, n: nat, states: seq<State>, moves: seq<Move>, k: nat)
    requires Run(l, n, states, moves) && k < |moves|
    ensures var i := moves[k].client;
            i < |states[k].phases| == |states[k + 1].phases| && Decided(l, states[k], states[k + 1], i, moves[k].action)
  {
    hide Total;
    var s, t, i := states[k], states[k + 1], moves[k].client;
    InvOverEveryInterleaving(l, n, states, moves, k);
    TotalSplit(s.phases, i, Slot);
    TotalSplit(s.phases, i, Token);
    TotalSplit(s.phases, i, Added);
    assert t.phases == s.phases[i := t.phases[i]];
    assert OtherClients(t.phases, i) == OtherClients(s.phases, i);
  }

  // ---------------------------------------------------------------- the raw counter against the limit

  /** The client is about to add more bytes than the limit leaves room for. */
  predicate AddsTooMuch(l: Limits, s: State, i: nat, a: Action) {
    && i < |s.phases| && a.Proceed? && s.phases[i].Queued?
    && s.queuedBytes + s.phases[i].bytes > l.maxBytes
  }

  /** From within the limit a step leaves the raw counter within it exactly when it does not add too much. */
  lemma StepWithinLimitIff(l: Limits, s: State, i: nat, a: Action)
    requires Inv(l, s) && Enabled(l, s, i, a) && s.queuedBytes <= l.maxBytes
    ensures Step(l, s, i, a).queuedBytes <= l.maxBytes <==> !AddsTooMuch(l, s, i, a)
  {
  }

  /** Over every interleaving the raw counter stays within the limit exactly when no step adds too much. */
  lemma {:induction false} RawCounterWithinLimitIff(l: Limits, n: nat, states: seq<State>, moves: seq<Move>)
    requires Run(l, n, states, moves)
    ensures (forall k | 0 <= k < |states| :: states[k].queuedBytes <= l.maxBytes)
      <==> (forall k | 0 <= k < |moves| :: !AddsTooMuch(l, states[k], moves[k].client, moves[k].action))
  {
    hide Step, Enabled, AddsTooMuch;
    if forall k | 0 <= k < |moves| :: !AddsTooMuch(l, states[k], moves[k].client, moves[k].action) {
      forall k | 0 <= k < |states|
        ensures states[k].queuedBytes <= l.maxBytes
      {
        WithinUpTo(l, n, states, moves, k);
      }
    } else {
      var k :| 0 <= k < |moves| && AddsTooMuch(l, states[k], moves[k].client, moves[k].action);
      InvOverEveryInterleaving(l, n, states, moves, k);
      if states[k].queuedBytes <= l.maxBytes {
        StepWithinLimitIff(l, states[k], moves[k].client, moves[k].action);
        assert !(states[k + 1].queuedBytes <= l.maxBytes);
      }
    }
  }

  lemma {:induction false} WithinUpTo(l: Limits, n: nat, states: seq<State>, moves: seq<Move>, k: nat)
    requires Run(l, n, states, moves) && k < |states|
    requires forall j | 0 <= j < |moves| :: !AddsTooMuch(l, states[j], moves[j].client, moves[j].action)
    ensures states[k].queuedBytes <= l.maxBytes
  {
    hide Step, Enabled, AddsTooMuch;
    if k > 0 {
      WithinUpTo(l, n, states, moves, k - 1);
      InvOverEveryInterleaving(l, n, states, moves, k - 1);
      StepWithinLimitIff(l, states[k - 1], moves[k - 1].client, moves[k - 1].action);
    }
  }

  /** At every point of every interleaving, only a client between a failed add and its undo can hold the counter above the limit. */
  lemma OnlyPendingUndoExceeds(l: Limits, n: nat, states: seq<State>, moves: seq<Move>, k: nat)
    requires Run(l, n, states, moves) && k < |states|
    ensures (forall i | 0 <= i < |states[k].phases| :: !states[k].phases[i].Over?) ==> states[k].queuedBytes <= l.maxBytes
  {
    hide Run;
    InvOverEveryInterleaving(l, n, states, moves, k);
    if forall i | 0 <= i < |states[k].phases| :: !states[k].phases[i].Over? {
      TotalBelow(states[k].phases, Added, Cleared, 1);
    }
  }

  lemma Extend(l: Limits, n: nat, states: seq<State>, moves: seq<Move>, m: Move, next: State) returns (longer: seq<State>, more: seq<Move>)
    requires Run(l, n, states, moves) && Enabled(l, states[|moves|], m.client, m.action)
    requires next == Step(l, states[|moves|], m.client, m.action)
    ensures Run(l, n, longer, more) && longer[|more|] == next
  {
    hide Step, Enabled;
    longer, more := states + [next], moves + [m];
  }

  lemma Started(l: Limits) returns (states: seq<State>, moves: seq<Move>)
    ensures Run(l, 3, states, moves) && states[|moves|] == State([Idle, Idle, Idle], 0, 0, 0, 0)
  {
    var start := State(seq(3, _ => Idle), 0, 0, 0, 0);
    states, moves := [start], [];
    assert start.phases == [Idle, Idle, Idle];
  }

  /** One client holds the only slot, and a request of three bytes has passed the check against a limit of four. */
  lemma OnePassed(l: Limits) returns (states: seq<State>, moves: seq<Move>)
    requires l == Limits(1, 2, 4)
    ensures Run(l, 3, states, moves) && states[|moves|] == State([Holding, Passed(3), Idle], 1, 1, 0, 3)
  {
    hide Run;
    states, moves := Started(l);
    states, moves := Extend(l, 3, states, moves, Move(0, Request(0)), State([Trying(0), Idle, Idle], 0, 0, 0, 0));
    states, moves := Extend(l, 3, states, moves, Move(0, Proceed), State([Holding, Idle, Idle], 1, 0, 0, 0));
    states, moves := Extend(l, 3, states, moves, Move(1, Request(3)), State([Holding, Trying(3), Idle], 1, 0, 0, 0));
    states, moves := Extend(l, 3, states, moves, Move(1, Proceed), State([Holding, Full(3), Idle], 1, 0, 0, 0));
    states, moves := Extend(l, 3, states, moves, Move(1, Proceed), State([Holding, Queued(3), Idle], 1, 1, 0, 0));
    states, moves := Extend(l, 3, states, moves, Move(1, Proceed), State([Holding, Passed(3), Idle], 1, 1, 0, 3));
  }

  /** The raw counter may pass the byte limit between an add and its undo: one slot, in use, and two requests of three bytes against a limit of four. */
  lemma RawCounterMayOvershoot() returns (states: seq<State>, moves: seq<Move>)
    ensures Run(Limits(1, 2, 4), 3, states, moves)
    ensures states[|moves|].queuedBytes == 6
  {
    hide Run;
    var l := Limits(1, 2, 4);
    states, moves := OnePassed(l);
    states, moves := Extend(l, 3, states, moves, Move(2, Request(3)), State([Holding, Passed(3), Trying(3)], 1, 1, 0, 3));
    states, moves := Extend(l, 3, states, moves, Move(2, Proceed), State([Holding, Passed(3), Full(3)], 1, 1, 0, 3));
    states, moves := Extend(l, 3, states, moves, Move(2, Proceed), State([Holding, Passed(3), Queued(3)], 1, 2, 0, 3));
    states, moves := Extend(l, 3, states, moves, Move(2, Proceed), State([Holding, Passed(3), Over(3)], 1, 2, 0, 6));
  }
}
