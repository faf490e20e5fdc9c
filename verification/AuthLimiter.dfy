/** The limiter of failing authentications per remote host. */
module AuthLimiter {
  import opened Wrappers

  /** Times and durations in nanoseconds. */
  datatype Attempt = Attempt(failures: nat, windowStart: int, blockedUntil: Option<int>, lastSeen: int)

  datatype Limits = Limits(maxFailures: int, window: nat, lockout: nat, maxEntries: nat)

  type Table = map<string, Attempt>

  /** `allowed`: the table afterwards and the verdict. */
  function Allow(t: Table, l: Limits, key: string, now: int): (Table, bool) {
    if key !in t then (t, true)
    else if t[key].blockedUntil.Some? && now < t[key].blockedUntil.value then (t[key := t[key].(lastSeen := now)], false)
    else if now - t[key].windowStart >= l.window then (t - {key}, true)
    else (t, true)
  }

  predicate Full(t: Table, l: Limits, key: string) { key !in t && |t| >= l.maxEntries }

  function Counted(entry: Option<Attempt>, l: Limits, now: int): Attempt {
    var base := if entry.None? || now - entry.value.windowStart >= l.window then Attempt(0, now, None, now) else entry.value;
    var failures := base.failures + 1;
    Attempt(failures, base.windowStart, if failures >= l.maxFailures then Some(now + l.lockout) else base.blockedUntil, now)
  }

  function Entry(t: Table, key: string): Option<Attempt> { if key in t then Some(t[key]) else None }

  /** `failure`, with the entry evicted when a new one does not fit. */
  function Fail(t: Table, l: Limits, key: string, now: int, victim: string): Table {
    (if Full(t, l, key) then t - {victim} else t)[key := Counted(Entry(t, key), l, now)]
  }

  /** An attempt that fails is a check and, once let in, a failure; others may only check, or succeed. */
  datatype Event =
    | Failing(key: string, now: int, victim: string)
    | Checking(key: string, now: int)
    | Success(key: string, now: int)

  function After(t: Table, l: Limits, e: Event): Table {
    match e
    case Failing(key, now, victim) =>
      var checked := Allow(t, l, key, now);
      if checked.1 then Fail(checked.0, l, key, now, victim) else checked.0
    case Checking(key, now) => Allow(t, l, key, now).0
    case Success(key, _) => t - {key}
  }

  function AfterAll(l: Limits, events: seq<Event>): Table {
    if events == [] then map[] else After(AfterAll(l, events[..|events| - 1]), l, events[|events| - 1])
  }

  predicate InOrder(events: seq<Event>) {
    forall i, j | 0 <= i < j < |events| :: events[i].now <= events[j].now
  }

  // ---------------------------------------------------------------- how many failures get in

  /** The step drops the key's entry otherwise than by its window running out. */
  predicate Forgets(t: Table, l: Limits, e: Event, key: string) {
    || (e.Success? && e.key == key)
    || (e.Failing? && e.key != key && e.victim == key && Evicts(t, l, e))
  }

  predicate Evicts(t: Table, l: Limits, e: Event)
    requires e.Failing?
  {
    var checked := Allow(t, l, e.key, e.now);
    checked.1 && Full(checked.0, l, e.key)
  }

  predicate Admits(t: Table, l: Limits, e: Event, key: string) {
    e.Failing? && e.key == key && Allow(t, l, key, e.now).1
  }

  /** The times of the failing attempts let in for the key since it last succeeded or was evicted. */
  function LetIn(l: Limits, events: seq<Event>, key: string): seq<int> {
    if events == [] then []
    else
      var before, e := events[..|events| - 1], events[|events| - 1];
      var t, times := AfterAll(l, before), LetIn(l, before, key);
      if Forgets(t, l, e, key) then [] else if Admits(t, l, e, key) then times + [e.now] else times
  }

  predicate Sorted(times: seq<int>) {
    forall i, j | 0 <= i < j < |times| :: times[i] <= times[j]
  }

  /** The most failures one window's time can let in. */
  function Most(M: int): int { if M <= 1 then 1 else 2 * M - 2 }

  /** More than `most` times in a row span a window. */
  predicate Spread(times: seq<int>, window: int, most: int) {
    forall i, j | 0 <= i < |times| && 0 <= j < |times| && j - i == most :: times[j] - times[i] >= window
  }

  function Back(M: int): int { if M <= 1 then 1 else M - 1 }

  /** A window of the key may begin at index `s`: `back` times earlier, one window has passed. */
  predicate Fresh(times: seq<int>, s: int, at: int, window: int, back: int) {
    0 <= s - back < |times| ==> times[s - back] + window <= at
  }

  /** The key's entry describes the last window of its times. */
  predicate Describes(entry: Option<Attempt>, times: seq<int>, l: Limits, clock: int) {
    var n, M, W := |times|, l.maxFailures, l.window;
    && Sorted(times) && Spread(times, W, Most(M)) && (n > 0 ==> times[n - 1] <= clock)
    && match entry
       case None => Fresh(times, n, clock, W, Back(M))
       case Some(a) =>
         && 1 <= a.failures <= M && a.failures <= n
         && times[n - a.failures] == a.windowStart
         && Fresh(times, n - a.failures, a.windowStart, W, Back(M))
         && (a.failures < M ==> a.blockedUntil.None?)
         && (a.failures == M ==> a.blockedUntil == Some(times[n - 1] + l.lockout))
  }

  predicate Sensible(l: Limits) { l.maxFailures >= 1 && l.lockout >= l.window }

  lemma DescribesLater(entry: Option<Attempt>, times: seq<int>, l: Limits, clock: int, now: int)
    requires Describes(entry, times, l, clock) && clock <= now
    ensures Describes(entry, times, l, now)
  {
  }

  /** A new window opens at `now`. */
  lemma WindowOpens(entry: Option<Attempt>, times: seq<int>, l: Limits, now: int)
    requires Sensible(l) && Describes(entry, times, l, now)
    requires entry.Some? ==> (entry.value.blockedUntil.Some? ==> now >= entry.value.blockedUntil.value)
    requires entry.Some? ==> now - entry.value.windowStart >= l.window
    ensures Fresh(times, |times|, now, l.window, Back(l.maxFailures))
  {
    if entry.Some? && |times| >= Back(l.maxFailures) {
      var n, f, d := |times|, entry.value.failures, Back(l.maxFailures);
      assert times[n - d] <= times[n - 1];
      assert f < l.maxFailures ==> times[n - d] <= times[n - f];
    }
  }

  lemma SpreadGrows(times: seq<int>, now: int, window: int, most: int)
    requires most >= 1 && Spread(times, window, most)
    requires |times| >= most ==> times[|times| - most] + window <= now
    ensures Spread(times + [now], window, most)
  {
    var longer := times + [now];
    forall i, j | 0 <= i < |longer| && 0 <= j < |longer| && j - i == most
      ensures longer[j] - longer[i] >= window
    {
      if j < |times| {
        assert times[j] - times[i] >= window;
      }
    }
  }

  lemma SortedGrows(times: seq<int>, now: int)
    requires Sorted(times) && (times != [] ==> times[|times| - 1] <= now)
    ensures Sorted(times + [now])
  {
  }

  /** A failing attempt let in at `now` opens a window. */
  lemma FirstCounted(entry: Option<Attempt>, times: seq<int>, l: Limits, now: int)
    requires Sensible(l) && Describes(entry, times, l, now)
    requires entry.Some? ==> (entry.value.blockedUntil.Some? ==> now >= entry.value.blockedUntil.value)
    requires entry.Some? ==> now - entry.value.windowStart >= l.window
    ensures Describes(Some(Counted(entry, l, now)), times + [now], l, now)
  {
    var n, M := |times|, l.maxFailures;
    WindowOpens(entry, times, l, now);
    assert n >= Most(M) ==> times[n - Most(M)] <= times[n - Back(M)];
    SpreadGrows(times, now, l.window, Most(M));
    SortedGrows(times, now);
    hide Sorted, Spread;
  }

  /** A failing attempt let in at `now` is one more in the open window. */
  lemma NextCounted(a: Attempt, times: seq<int>, l: Limits, now: int)
    requires Sensible(l) && Describes(Some(a), times, l, now)
    requires a.blockedUntil.Some? ==> now >= a.blockedUntil.value
    requires now - a.windowStart < l.window
    ensures Describes(Some(Counted(Some(a), l, now)), times + [now], l, now)
  {
    var n, M := |times|, l.maxFailures;
    var s := n - a.failures;
    assert times[s] <= times[n - 1];
    assert a.failures < M;
    assert n >= Most(M) ==> times[n - Most(M)] <= times[s - Back(M)];
    SpreadGrows(times, now, l.window, Most(M));
    SortedGrows(times, now);
    hide Sorted, Spread;
  }

  lemma CountedDescribes(entry: Option<Attempt>, times: seq<int>, l: Limits, now: int)
    requires Sensible(l) && Describes(entry, times, l, now)
    requires entry.Some? ==> (entry.value.blockedUntil.Some? ==> now >= entry.value.blockedUntil.value)
    ensures Describes(Some(Counted(entry, l, now)), times + [now], l, now)
  {
    hide Describes, Counted;
    if entry.None? || now - entry.value.windowStart >= l.window {
      FirstCounted(entry, times, l, now);
    } else {
      NextCounted(entry.value, times, l, now);
    }
  }

  lemma CheckedDescribes(t: Table, l: Limits, key: string, k: string, now: int, times: seq<int>)
    requires Sensible(l) && Describes(Entry(t, k), times, l, now)
    ensures Describes(Entry(Allow(t, l, key, now).0, k), times, l, now)
    ensures Allow(t, l, k, now).1 ==> Entry(Allow(t, l, k, now).0, k).Some? ==>
      (var a := Entry(Allow(t, l, k, now).0, k).value; a.blockedUntil.Some? ==> now >= a.blockedUntil.value)
  {
    hide Sorted, Spread, Fresh;
    if key == k && k in t && Allow(t, l, key, now).1 && now - t[k].windowStart >= l.window {
      WindowOpens(Entry(t, k), times, l, now);
    }
  }

  lemma StepDescribes(t: Table, l: Limits, e: Event, k: string, times: seq<int>)
    requires Sensible(l) && Describes(Entry(t, k), times, l, e.now)
    ensures var next := if Forgets(t, l, e, k) then [] else if Admits(t, l, e, k) then times + [e.now] else times;
            Describes(Entry(After(t, l, e), k), next, l, e.now)
  {
    hide Describes, Counted;
    if e.Success? {
      NothingDescribes(l, e.now);
    } else {
      CheckedDescribes(t, l, e.key, k, e.now, times);
      var checked := Allow(t, l, e.key, e.now);
      if Admits(t, l, e, k) {
        CountedDescribes(Entry(checked.0, k), times, l, e.now);
      } else if e.Failing? && checked.1 {
        NothingDescribes(l, e.now);
      }
    }
  }

  lemma NothingDescribes(l: Limits, clock: int)
    ensures Describes(None, [], l, clock)
  {
  }

  lemma {:induction false} DescribedOverEveryRun(l: Limits, events: seq<Event>, k: string)
    requires Sensible(l) && InOrder(events) && events != []
    ensures Describes(Entry(AfterAll(l, events), k), LetIn(l, events, k), l, events[|events| - 1].now)
  {
    hide Describes, Forgets, Admits, After;
    var before, e := events[..|events| - 1], events[|events| - 1];
    if before == [] {
      NothingDescribes(l, e.now);
    } else {
      DescribedOverEveryRun(l, before, k);
      DescribesLater(Entry(AfterAll(l, before), k), LetIn(l, before, k), l, before[|before| - 1].now, e.now);
    }
    StepDescribes(AfterAll(l, before), l, e, k, LetIn(l, before, k));
  }

  function CountIn(times: seq<int>, from: int, until: int): nat {
    if times == [] then 0
    else CountIn(times[..|times| - 1], from, until) + if from <= times[|times| - 1] < until then 1 else 0
  }

  lemma {:induction false} CountFrom(times: seq<int>, from: int, until: int, first: nat)
    requires first <= |times| && forall i | 0 <= i < first :: times[i] < from
    ensures CountIn(times, from, until) <= |times| - first
  {
    if times != [] {
      var shorter := times[..|times| - 1];
      CountFrom(shorter, from, until, if first == |times| then first - 1 else first);
    }
  }

  function FirstFrom(times: seq<int>, from: int): (i: nat)
    requires Sorted(times)
    ensures i <= |times| && (forall j | 0 <= j < i :: times[j] < from) && (i < |times| ==> times[i] >= from)
  {
    if times == [] || times[|times| - 1] < from then |times| else FirstFrom(times[..|times| - 1], from)
  }

  lemma Narrow(times: seq<int>, i: nat, j: nat, window: int, most: int)
    requires most >= 1 && Sorted(times) && Spread(times, window, most) && i <= j < |times|
    ensures times[j] - times[i] < window ==> j - i < most
  {
    if j - i >= most {
      assert times[i + most] - times[i] >= window && times[i + most] <= times[j];
    }
  }

  lemma {:induction false} SpreadBounds(times: seq<int>, from: int, window: int, most: int)
    requires most >= 1 && Sorted(times) && Spread(times, window, most)
    ensures CountIn(times, from, from + window) <= most
  {
    if times != [] {
      var n := |times|;
      if times[n - 1] >= from + window {
        SpreadBounds(times[..n - 1], from, window, most);
      } else {
        var first := FirstFrom(times, from);
        CountFrom(times, from, from + window, first);
        if first < n {
          Narrow(times, first, n - 1, window, most);
        }
      }
    }
  }

  /**
   * Over every run in time order, between successes and evictions of a host, any half-open interval of
   * one window lets in at most `Most` failing attempts, which is below twice the configured number.
   */
  lemma FailuresPerWindow(l: Limits, events: seq<Event>, key: string, from: int)
    requires l.maxFailures >= 1 && l.lockout >= l.window && InOrder(events)
    ensures CountIn(LetIn(l, events, key), from, from + l.window) <= Most(l.maxFailures) <= 2 * l.maxFailures - 1
  {
    hide LetIn, AfterAll, CountIn, Fresh;
    if events == [] {
      NoneLetIn(l, key, from);
    } else {
      DescribedOverEveryRun(l, events, key);
      SpreadBounds(LetIn(l, events, key), from, l.window, Most(l.maxFailures));
    }
  }

  // ---------------------------------------------------------------- the bound is attained

  function Burst(key: string, at: int, n: nat): seq<Event> {
    if n == 0 then [] else Burst(key, at, n - 1) + [Failing(key, at, key)]
  }

  function Repeated(at: int, n: nat): seq<int> {
    if n == 0 then [] else Repeated(at, n - 1) + [at]
  }

  /** A burst within an open window is let in whole while the limit is not reached. */
  lemma {:induction false} BurstLetIn(l: Limits, events: seq<Event>, key: string, a: Attempt, at: int, n: nat)
    requires Entry(AfterAll(l, events), key) == Some(a) && a.blockedUntil.None?
    requires at - a.windowStart < l.window && a.failures + n <= l.maxFailures
    ensures LetIn(l, events + Burst(key, at, n), key) == LetIn(l, events, key) + Repeated(at, n)
    ensures var entry := Entry(AfterAll(l, events + Burst(key, at, n)), key);
            && entry.Some? && entry.value.failures == a.failures + n && entry.value.windowStart == a.windowStart
            && (a.failures + n < l.maxFailures ==> entry.value.blockedUntil.None?)
    decreases n
  {
    hide LetIn, AfterAll;
    if n == 0 {
      assert events + Burst(key, at, 0) == events;
      assert LetIn(l, events, key) + Repeated(at, 0) == LetIn(l, events, key);
    } else {
      BurstLetIn(l, events, key, a, at, n - 1);
      OneMore(l, events + Burst(key, at, n - 1), key, at);
      assert events + Burst(key, at, n) == events + Burst(key, at, n - 1) + [Failing(key, at, key)];
      assert LetIn(l, events, key) + Repeated(at, n) == LetIn(l, events, key) + Repeated(at, n - 1) + [at];
    }
  }

  /** One failing attempt on an entry that is not blocked. */
  lemma OneMore(l: Limits, events: seq<Event>, key: string, at: int)
    requires Entry(AfterAll(l, events), key).Some? ==> Entry(AfterAll(l, events), key).value.blockedUntil.None?
    ensures var longer := events + [Failing(key, at, key)];
            var entry := Entry(AfterAll(l, events), key);
            && LetIn(l, longer, key) == LetIn(l, events, key) + [at]
            && Entry(AfterAll(l, longer), key) == Some(Counted(entry, l, at))
  {
    hide Counted;
    var longer := events + [Failing(key, at, key)];
    assert longer[..|events|] == events;
    var t := AfterAll(l, events);
    var checked := Allow(t, l, key, at);
    assert checked.1;
    SameCount(Entry(t, key), Entry(checked.0, key), l, at);
  }

  lemma SameCount(entry: Option<Attempt>, checked: Option<Attempt>, l: Limits, at: int)
    requires checked == entry || (checked == None && entry.Some? && at - entry.value.windowStart >= l.window)
    ensures Counted(entry, l, at) == Counted(checked, l, at)
  {
  }

  lemma {:induction false} CountRepeated(times: seq<int>, at: int, n: nat, from: int, until: int)
    requires from <= at < until
    ensures CountIn(times + Repeated(at, n), from, until) == CountIn(times, from, until) + n
  {
    if n == 0 {
      assert times + [] == times;
    } else {
      CountRepeated(times, at, n - 1, from, until);
      var longer := times + Repeated(at, n);
      assert longer[..|longer| - 1] == times + Repeated(at, n - 1);
    }
  }

  /** A first failure, more just before its window ends, and a full window straight after. */
  function Worst(l: Limits, key: string): seq<Event>
    requires l.maxFailures >= 2
  {
    Burst(key, 0, 1) + Burst(key, l.window - 1, l.maxFailures - 2) + Burst(key, l.window, l.maxFailures)
  }

  /** `Most` cannot be lowered: a run in time order lets in that many within one window. */
  lemma MostIsAttained(l: Limits, key: string)
    requires l.maxFailures >= 2 && l.window >= 2
    ensures InOrder(Worst(l, key))
    ensures CountIn(LetIn(l, Worst(l, key), key), l.window - 1, l.window - 1 + l.window) == Most(l.maxFailures)
  {
    hide Burst, Repeated, LetIn, AfterAll, Counted, CountIn, InOrder;
    var M, W := l.maxFailures, l.window;
    WorstInOrder(l, key);
    var first := Burst(key, 0, 1);
    Starts(l, key);
    var second := first + Burst(key, W - 1, M - 2);
    BurstLetIn(l, first, key, Attempt(1, 0, None, 0), W - 1, M - 2);
    OneMore(l, second, key, W);
    var third := second + [Failing(key, W, key)];
    var a := AfterAll(l, third)[key];
    Reopens(l, Entry(AfterAll(l, second), key), W);
    BurstLetIn(l, third, key, a, W, M - 1);
    SplitBurst(key, W, M);
    assert second + ([Failing(key, W, key)] + Burst(key, W, M - 1)) == third + Burst(key, W, M - 1);
    CountStart(W);
    CountRepeated([0], W - 1, M - 2, W - 1, W - 1 + W);
    var times := [0] + Repeated(W - 1, M - 2);
    CountRepeated(times, W, 1, W - 1, W - 1 + W);
    OneRepeated(W);
    CountRepeated(times + [W], W, M - 1, W - 1, W - 1 + W);
  }

  lemma Starts(l: Limits, key: string)
    requires l.maxFailures >= 2
    ensures LetIn(l, Burst(key, 0, 1), key) == [0]
    ensures Entry(AfterAll(l, Burst(key, 0, 1)), key) == Some(Attempt(1, 0, None, 0))
  {
    OneMore(l, [], key, 0);
    assert Burst(key, 0, 1) == [] + [Failing(key, 0, key)];
  }

  lemma Reopens(l: Limits, entry: Option<Attempt>, at: int)
    requires l.maxFailures >= 2 && entry.Some? && at - entry.value.windowStart >= l.window
    ensures Counted(entry, l, at) == Attempt(1, at, None, at)
  {
  }

  lemma {:induction false} SplitBurst(key: string, at: int, n: nat)
    requires n >= 1
    ensures Burst(key, at, n) == [Failing(key, at, key)] + Burst(key, at, n - 1)
  {
    if n > 1 {
      SplitBurst(key, at, n - 1);
    }
  }

  lemma CountStart(W: int)
    requires W >= 2
    ensures CountIn([0], W - 1, W - 1 + W) == 0
  {
  }

  lemma OneRepeated(at: int)
    ensures Repeated(at, 1) == [at]
  {
    assert Repeated(at, 0) == [];
  }

  lemma {:induction false} BurstAt(key: string, at: int, n: nat)
    ensures |Burst(key, at, n)| == n && forall i | 0 <= i < n :: Burst(key, at, n)[i].now == at
  {
    if n > 0 {
      BurstAt(key, at, n - 1);
    }
  }

  lemma WorstInOrder(l: Limits, key: string)
    requires l.maxFailures >= 2 && l.window >= 2
    ensures InOrder(Worst(l, key))
  {
    hide Burst;
    BurstAt(key, 0, 1);
    BurstAt(key, l.window - 1, l.maxFailures - 2);
    BurstAt(key, l.window, l.maxFailures);
  }

  lemma NoneLetIn(l: Limits, key: string, from: int)
    ensures CountIn(LetIn(l, [], key), from, from + l.window) == 0
  {
  }

  // ---------------------------------------------------------------- how many hosts are remembered

  /** A victim is an entry of the table it is taken from. */
  predicate VictimThere(t: Table, l: Limits, e: Event) {
    e.Failing? && Evicts(t, l, e) ==> (var checked := Allow(t, l, e.key, e.now).0; checked != map[] ==> e.victim in checked)
  }

  predicate VictimsThere(l: Limits, events: seq<Event>) {
    events == [] || (VictimsThere(l, events[..|events| - 1]) && VictimThere(AfterAll(l, events[..|events| - 1]), l, events[|events| - 1]))
  }

  function Room(l: Limits): nat { if l.maxEntries == 0 then 1 else l.maxEntries }

  lemma Removed(t: Table, key: string)
    ensures key in t ==> |t - {key}| == |t| - 1
    ensures key !in t ==> t - {key} == t
  {
    assert (t - {key}).Keys == t.Keys - {key};
    assert |t.Keys| == |t| && |(t - {key}).Keys| == |t - {key}|;
  }

  lemma Added(t: Table, key: string, a: Attempt)
    ensures |t[key := a]| == if key in t then |t| else |t| + 1
  {
    assert t[key := a].Keys == t.Keys + {key};
    assert |t.Keys| == |t| && |t[key := a].Keys| == |t[key := a]|;
  }

  lemma CheckKeepsSize(t: Table, l: Limits, key: string, now: int)
    ensures |Allow(t, l, key, now).0| <= |t|
  {
    Removed(t, key);
    if key in t {
      Added(t, key, t[key].(lastSeen := now));
    }
  }

  lemma FailKeepsRoom(t: Table, l: Limits, key: string, now: int, victim: string)
    requires |t| <= Room(l) && (Full(t, l, key) && t != map[] ==> victim in t)
    ensures |Fail(t, l, key, now, victim)| <= Room(l)
  {
    hide Counted;
    var counted := Counted(Entry(t, key), l, now);
    if Full(t, l, key) {
      Removed(t, victim);
      Added(t - {victim}, key, counted);
    } else {
      Added(t, key, counted);
    }
  }

  lemma StepKeepsRoom(t: Table, l: Limits, e: Event)
    requires |t| <= Room(l) && VictimThere(t, l, e)
    ensures |After(t, l, e)| <= Room(l)
  {
    hide Allow, Fail, Full;
    CheckKeepsSize(t, l, e.key, e.now);
    Removed(t, e.key);
    if e.Failing? && Allow(t, l, e.key, e.now).1 {
      FailKeepsRoom(Allow(t, l, e.key, e.now).0, l, e.key, e.now, e.victim);
    }
  }

  lemma {:induction false} RoomOverEveryRun(l: Limits, events: seq<Event>)
    requires VictimsThere(l, events)
    ensures |AfterAll(l, events)| <= Room(l)
  {
    if events != [] {
      RoomOverEveryRun(l, events[..|events| - 1]);
      StepKeepsRoom(AfterAll(l, events[..|events| - 1]), l, events[|events| - 1]);
    }
  }

  /** Without room for one entry the table still takes one. */
  lemma NoRoomTakesOne(key: string)
    ensures var l, events := Limits(5, 60, 60, 0), [Failing(key, 0, key)];
            VictimsThere(l, events) && |AfterAll(l, events)| == 1 > l.maxEntries
  {
    var l, events := Limits(5, 60, 60, 0), [Failing(key, 0, key)];
    assert events[..0] == [] && AfterAll(l, []) == map[];
    assert Allow(map[], l, key, 0) == (map[], true);
    Removed(map[], key);
    Added(map[], key, Counted(None, l, 0));
  }

  /** Steps of other hosts leave a host's entry alone unless they evict it. */
  lemma OthersUntouched(t: Table, l: Limits, e: Event, key: string)
    requires e.key != key && !Forgets(t, l, e, key)
    ensures Entry(After(t, l, e), key) == Entry(t, key)
  {
    hide Counted;
    CheckLeaves(t, l, e.key, e.now, key);
  }

  lemma CheckLeaves(t: Table, l: Limits, key: string, now: int, other: string)
    requires other != key
    ensures Entry(Allow(t, l, key, now).0, other) == Entry(t, other)
  {
  }

  // ---------------------------------------------------------------- the limiter itself

  /** An order in which a range over the table may visit its keys. */
  predicate Orders(order: seq<string>, t: Table) {
    && (forall i, j | 0 <= i < j < |order| :: order[i] != order[j])
    && (forall k | k in order :: k in t)
    && (forall k | k in t :: k in order)
  }

  /** The search of `evictOldest`: the key it holds after the visits, and that key's time. */
  function Scan(t: Table, order: seq<string>): (string, int)
    requires forall k | k in order :: k in t
  {
    if order == [] then ("", 0) else
    var (best, oldest) := Scan(t, order[..|order| - 1]);
    var key := order[|order| - 1];
    if best == "" || t[key].lastSeen < oldest then (key, t[key].lastSeen) else (best, oldest)
  }

  predicate IsOldest(t: Table, key: string) {
    key in t && forall k | k in t :: t[key].lastSeen <= t[k].lastSeen
  }

  /** The empty key is in the table and every other entry was seen later. */
  predicate EmptyIsOldest(t: Table) {
    "" in t && forall k | k in t && k != "" :: t[""].lastSeen < t[k].lastSeen
  }

  /** The empty key was visited and every other visited key was seen later. */
  predicate EmptyLeads(t: Table, visited: seq<string>)
    requires forall k | k in visited :: k in t
  {
    "" in visited && forall k | k in visited && k != "" :: t[""].lastSeen < t[k].lastSeen
  }

  /** What the search holds after some visits. */
  predicate Holds(t: Table, visited: seq<string>, best: string, oldest: int)
    requires forall k | k in visited :: k in t
  {
    && (visited == [] ==> best == "")
    && (visited != [] ==> best in visited && oldest == t[best].lastSeen)
    && (visited != [] && !EmptyLeads(t, visited) ==> best != "" && forall k | k in visited :: oldest <= t[k].lastSeen)
    && (EmptyLeads(t, visited) ==> (best == "" <==> visited[|visited| - 1] == ""))
  }

  lemma {:induction false} ScanFinds(t: Table, order: seq<string>)
    requires forall k | k in order :: k in t
    requires forall i, j | 0 <= i < j < |order| :: order[i] != order[j]
    ensures Holds(t, order, Scan(t, order).0, Scan(t, order).1)
  {
    hide Scan;
    if order == [] {
      ScanNothing(t);
    } else {
      hide Holds;
      var before, key := order[..|order| - 1], order[|order| - 1];
      assert order == before + [key];
      ScanFinds(t, before);
      ScanOne(t, before, key);
      ScanStep(t, before, key, Scan(t, before).0, Scan(t, before).1);
    }
  }

  lemma ScanStep(t: Table, before: seq<string>, key: string, best: string, oldest: int)
    requires key in t && key !in before && forall k | k in before :: k in t
    requires Holds(t, before, best, oldest)
    ensures best == "" || t[key].lastSeen < oldest ==> Holds(t, before + [key], key, t[key].lastSeen)
    ensures !(best == "" || t[key].lastSeen < oldest) ==> Holds(t, before + [key], best, oldest)
  {
    assert forall k :: k in before + [key] <==> k in before || k == key;
    if EmptyLeads(t, before) && !EmptyLeads(t, before + [key]) {
      assert t[key].lastSeen <= t[""].lastSeen;
    }
  }

  /**
   * The entry evicted is one seen longest ago, in whatever order the table is visited, if and only if
   * the empty key is not the one seen longest ago, or is visited last.
   */
  lemma VictimIsOldestIff(t: Table, order: seq<string>)
    requires t != map[] && Orders(order, t)
    ensures var victim := Scan(t, order).0;
            && victim in t
            && (IsOldest(t, victim) <==> !EmptyIsOldest(t) || order[|order| - 1] == "")
  {
    hide Scan;
    var k :| k in t;
    assert k in order;
    assert EmptyLeads(t, order) <==> EmptyIsOldest(t);
    ScanFinds(t, order);
  }

  /** The empty key seen at 0 and another host at 5, visited in this order: the newer one is evicted. */
  lemma EmptyKeyMisleads(a: Attempt, b: Attempt)
    requires a.lastSeen == 0 && b.lastSeen == 5
    ensures var t: Table := map["" := a, "192.0.2.1" := b];
            var order := ["", "192.0.2.1"];
            Orders(order, t) && Scan(t, order).0 == "192.0.2.1" && !IsOldest(t, "192.0.2.1")
  {
    var t: Table := map["" := a, "192.0.2.1" := b];
    var order := ["", "192.0.2.1"];
    assert |order[0]| != |order[1]|;
    assert order[..1] == [""] && [""][..0] == [];
    assert Scan(t, [""]) == ("", 0);
    assert "" in t && t[""] == a;
  }

  /** `authKey`, given what splitting host and port returned. */
  function AuthKey(remote: string, host: Option<string>): string {
    if host.Some? && host.value != "" then host.value else remote
  }

  /**
   * All ports of one host share its key and no other host has it; no address but the empty one gets the
   * empty key, so the search over keys of real addresses is not misled.
   */
  lemma KeysOfAddresses(remote: string, host: Option<string>, otherRemote: string, otherHost: Option<string>, t: Table, order: seq<string>)
    requires remote != ""
    ensures AuthKey(remote, host) != ""
    ensures host.Some? && otherHost.Some? && host.value != "" && otherHost.value != "" ==>
              (AuthKey(remote, host) == AuthKey(otherRemote, otherHost) <==> host == otherHost)
    ensures host.None? && otherHost.None? ==> (AuthKey(remote, host) == AuthKey(otherRemote, otherHost) <==> remote == otherRemote)
    ensures t != map[] && Orders(order, t) && "" !in t ==> IsOldest(t, Scan(t, order).0)
  {
    hide Scan;
    if t != map[] && Orders(order, t) && "" !in t {
      VictimIsOldestIff(t, order);
    }
  }

  method FindOldest(attempts: Table) returns (oldestKey: string, ghost order: seq<string>)
    ensures Orders(order, attempts) && oldestKey == Scan(attempts, order).0
    ensures attempts != map[] ==> oldestKey in attempts && (!EmptyIsOldest(attempts) ==> IsOldest(attempts, oldestKey))
  {
    hide Scan;
    oldestKey := "";
    var oldest := 0;
    var left := attempts.Keys;
    order := [];
    ScanNothing(attempts);
    while left != {}
      invariant forall k | k in order :: k in attempts && k !in left
      invariant forall k | k in attempts :: k in order || k in left
      invariant left <= attempts.Keys
      invariant forall i, j | 0 <= i < j < |order| :: order[i] != order[j]
      invariant (oldestKey, oldest) == Scan(attempts, order)
      decreases |left|
    {
      var key :| key in left;
      ScanOne(attempts, order, key);
      if oldestKey == "" || attempts[key].lastSeen < oldest {
        oldestKey, oldest := key, attempts[key].lastSeen;
      }
      left := left - {key};
      order := order + [key];
    }
    if attempts != map[] {
      VictimIsOldestIff(attempts, order);
    }
  }

  lemma ScanNothing(t: Table)
    ensures Scan(t, []) == ("", 0)
  {
  }

  lemma ScanOne(t: Table, order: seq<string>, key: string)
    requires key in t && forall k | k in order :: k in t
    ensures var (best, oldest) := Scan(t, order);
            Scan(t, order + [key]) == if best == "" || t[key].lastSeen < oldest then (key, t[key].lastSeen) else (best, oldest)
  {
    assert (order + [key])[..|order|] == order;
  }

  class Limiter {
    var attempts: Table
    const limits: Limits

    constructor (limits: Limits)
      ensures attempts == map[] && this.limits == limits
    {
      attempts := map[];
      this.limits := limits;
    }

    method Allowed(key: string, now: int) returns (ok: bool)
      modifies this
      ensures (attempts, ok) == Allow(old(attempts), limits, key, now)
    {
      if key !in attempts {
        return true;
      }
      var attempt := attempts[key];
      if attempt.blockedUntil.Some? && now < attempt.blockedUntil.value {
        attempts := attempts[key := attempt.(lastSeen := now)];
        return false;
      }
      if now - attempt.windowStart >= limits.window {
        attempts := attempts - {key};
      }
      return true;
    }

    /** `order` is how the search for a victim visited the table, when one was needed. */
    method Failure(key: string, now: int) returns (ghost victim: string, ghost order: seq<string>)
      modifies this
      ensures attempts == Fail(old(attempts), limits, key, now, victim)
      ensures Full(old(attempts), limits, key) ==> Orders(order, old(attempts)) && victim == Scan(old(attempts), order).0
    {
      hide Counted, Scan, Orders;
      victim, order := key, [];
      var entry := if key in attempts then Some(attempts[key]) else None;
      if entry.None? && |attempts| >= limits.maxEntries {
        victim, order := EvictOldest();
      }
      var attempt := Count(entry, now);
      attempts := attempts[key := attempt];
    }

    /** One more failure in the entry's window, or the first of a new one. */
    method Count(entry: Option<Attempt>, now: int) returns (attempt: Attempt)
      ensures attempt == Counted(entry, limits, now)
    {
      if entry.None? || now - entry.value.windowStart >= limits.window {
        attempt := Attempt(0, now, None, now);
      } else {
        attempt := entry.value;
      }
      attempt := attempt.(failures := attempt.failures + 1, lastSeen := now);
      if attempt.failures >= limits.maxFailures {
        attempt := attempt.(blockedUntil := Some(now + limits.lockout));
      }
    }

    method Succeed(key: string)
      modifies this
      ensures attempts == old(attempts) - {key}
    {
      attempts := attempts - {key};
    }

    method EvictOldest() returns (oldestKey: string, ghost order: seq<string>)
      modifies this
      ensures Orders(order, old(attempts)) && oldestKey == Scan(old(attempts), order).0
      ensures attempts == old(attempts) - {oldestKey}
    {
      hide Scan, Orders;
      oldestKey, order := FindOldest(attempts);
      attempts := attempts - {oldestKey};
    }
  }
}
