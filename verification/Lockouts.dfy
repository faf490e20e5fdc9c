/** When the limiter refuses a host, said on the times of its failures alone. */
module Lockouts {
  import opened Wrappers
  import opened AuthLimiter
  import opened InterleavedLimiter

  /** The first failure of the window that failure `i` falls into: a window opens at a failure and lasts `window`. */
  function Opener(times: seq<int>, window: nat, i: nat): (s: nat)
    requires i < |times|
    ensures s <= i
  {
    if i == 0 then 0 else
    var s := Opener(times, window, i - 1);
    if times[i] - times[s] >= window then i else s
  }

  /** Failure `i` is the how-manieth of its window. */
  function Rank(times: seq<int>, window: nat, i: nat): nat
    requires i < |times|
  {
    i - Opener(times, window, i) + 1
  }

  /** Some failure reached the limit within its window, and its lockout is not over. */
  predicate LockedOut(times: seq<int>, l: Limits, now: int) {
    exists i | 0 <= i < |times| :: Rank(times, l.window, i) >= l.maxFailures && now < times[i] + l.lockout
  }

  /** The same of the last failure alone. */
  predicate LockedByLast(times: seq<int>, l: Limits, now: int) {
    times != [] && Rank(times, l.window, |times| - 1) >= l.maxFailures && now < times[|times| - 1] + l.lockout
  }

  /** The event drops the host's entry: a success, or another host's failure that needed the room. */
  predicate Dropped(l: Limits, before: seq<Event>, e: Event, key: string) {
    if e.key == key then e.Success?
    else key in AfterAll(l, before) && key !in AfterAll(l, before + [e])
  }

  /** The times of the host's failures since its entry was last dropped; an attempt while it is locked out never gets to fail. */
  function History(l: Limits, events: seq<Event>, key: string): seq<int> {
    if events == [] then [] else
    var before, e := events[..|events| - 1], events[|events| - 1];
    var times := History(l, before, key);
    if Dropped(l, before, e, key) then []
    else if e.Failing? && e.key == key && !LockedOut(times, l, e.now) then times + [e.now]
    else times
  }

  // ---------------------------------------------------------------- the entry against the history

  /** Every lockout before index `s` was over at `at`. */
  predicate Over(times: seq<int>, l: Limits, s: nat, at: int)
    requires s <= |times|
  {
    forall i | 0 <= i < s :: Rank(times, l.window, i) >= l.maxFailures ==> times[i] + l.lockout <= at
  }

  /** The entry is the last window of the failures. */
  predicate Last(a: Attempt, times: seq<int>, l: Limits) {
    && times != []
    && var n, s := |times|, Opener(times, l.window, |times| - 1);
    && a.windowStart == times[s] && a.failures == n - s
    && a.blockedUntil == if n - s >= l.maxFailures then Some(times[n - 1] + l.lockout) else None
  }

  /** No window is open at `clock`. */
  predicate Idle(times: seq<int>, l: Limits, clock: int) {
    times != [] ==> clock - times[Opener(times, l.window, |times| - 1)] >= l.window
  }

  predicate Tracks(entry: Option<Attempt>, times: seq<int>, l: Limits, clock: int) {
    && Sorted(times) && (times != [] ==> times[|times| - 1] <= clock)
    && match entry
       case None => Idle(times, l, clock) && Over(times, l, |times|, clock)
       case Some(a) =>
         Last(a, times, l) && var s := Opener(times, l.window, |times| - 1); Over(times, l, s, times[s])
  }

  lemma {:induction false} OpenerStays(times: seq<int>, window: nat, i: nat, now: int)
    requires i < |times|
    ensures Opener(times + [now], window, i) == Opener(times, window, i)
  {
    if i > 0 { OpenerStays(times, window, i - 1, now); }
  }

  lemma OpenerNext(times: seq<int>, window: nat, now: int)
    ensures var n := |times|;
            Opener(times + [now], window, n) ==
              if n == 0 then 0
              else if now - times[Opener(times, window, n - 1)] >= window then n else Opener(times, window, n - 1)
  {
    if times != [] { OpenerStays(times, window, |times| - 1, now); }
  }

  lemma OverStays(times: seq<int>, l: Limits, s: nat, at: int, now: int)
    requires s <= |times| && Over(times, l, s, at)
    ensures Over(times + [now], l, s, at)
  {
    forall i | 0 <= i < s
      ensures Rank(times + [now], l.window, i) == Rank(times, l.window, i)
    {
      OpenerStays(times, l.window, i, now);
    }
  }

  lemma {:induction false} SameOpener(times: seq<int>, window: nat, i: nat, j: nat)
    requires i <= j < |times| && Opener(times, window, j) <= i
    ensures Opener(times, window, i) == Opener(times, window, j)
    decreases j
  {
    if i < j { SameOpener(times, window, i, j - 1); }
  }

  /** Refused means locked out, and it is the last failure that locks. */
  lemma Verdict(entry: Option<Attempt>, times: seq<int>, l: Limits, now: int)
    requires Tracks(entry, times, l, now)
    ensures LockedOut(times, l, now) <==> entry.Some? && entry.value.blockedUntil.Some? && now < entry.value.blockedUntil.value
    ensures LockedOut(times, l, now) <==> LockedByLast(times, l, now)
  {
    hide Opener;
    var n := |times|;
    if entry.Some? && times != [] {
      var s := Opener(times, l.window, n - 1);
      assert times[s] <= times[n - 1];
      forall i | 0 <= i < n && Rank(times, l.window, i) >= l.maxFailures && now < times[i] + l.lockout
        ensures Rank(times, l.window, n - 1) >= l.maxFailures && now < times[n - 1] + l.lockout
      {
        SameOpener(times, l.window, i, n - 1);
        assert i < n - 1 ==> times[i] <= times[n - 1];
      }
    }
  }

  lemma TracksLater(entry: Option<Attempt>, times: seq<int>, l: Limits, clock: int, now: int)
    requires Tracks(entry, times, l, clock) && clock <= now
    ensures Tracks(entry, times, l, now)
  {
    hide Opener;
  }

  /** A window that has run out and is not locked may be forgotten. */
  lemma TracksNothing(a: Attempt, times: seq<int>, l: Limits, now: int)
    requires Tracks(Some(a), times, l, now) && now - a.windowStart >= l.window
    requires a.blockedUntil.Some? ==> now >= a.blockedUntil.value
    ensures Tracks(None, times, l, now)
  {
    Verdict(Some(a), times, l, now);
    forall i | 0 <= i < |times| && Rank(times, l.window, i) >= l.maxFailures
      ensures times[i] + l.lockout <= now
    {
    }
  }

  lemma TracksCheck(t: Table, l: Limits, key: string, k: string, now: int, times: seq<int>)
    requires Tracks(Entry(t, k), times, l, now)
    ensures Tracks(Entry(Allow(t, l, key, now).0, k), times, l, now)
    ensures Allow(t, l, k, now).1 <==> !LockedOut(times, l, now)
  {
    hide Opener, LockedOut, LockedByLast, Sorted, Over;
    Verdict(Entry(t, k), times, l, now);
    if k in t && now - t[k].windowStart >= l.window && Allow(t, l, k, now).1 { TracksNothing(t[k], times, l, now); }
  }

  /** One more failure, the first of a window or not. */
  lemma TracksFailure(entry: Option<Attempt>, times: seq<int>, l: Limits, now: int)
    requires Tracks(entry, times, l, now) && !LockedOut(times, l, now)
    ensures Tracks(Some(Counted(entry, l, now)), times + [now], l, now)
  {
    hide Opener;
    OpenerNext(times, l.window, now);
    SortedGrows(times, now);
    Verdict(entry, times, l, now);
    if times != [] {
      var s := Opener(times, l.window, |times| - 1);
      if now - times[s] >= l.window {
        OverAll(times, l, now);
        OverStays(times, l, |times|, now, now);
      } else {
        OverStays(times, l, s, times[s], now);
      }
    }
  }

  lemma OverAll(times: seq<int>, l: Limits, now: int)
    requires !LockedOut(times, l, now)
    ensures Over(times, l, |times|, now)
  {
  }

  lemma TracksStart(l: Limits, clock: int)
    ensures Tracks(None, [], l, clock)
  {
  }

  lemma TracksStep(l: Limits, before: seq<Event>, e: Event, key: string)
    requires Tracks(Entry(AfterAll(l, before), key), History(l, before, key), l, e.now)
    ensures Tracks(Entry(AfterAll(l, before + [e]), key), History(l, before + [e], key), l, e.now)
  {
    hide Tracks, LockedOut, Counted;
    var events, t, times := before + [e], AfterAll(l, before), History(l, before, key);
    assert events[..|events| - 1] == before;
    TracksStart(l, e.now);
    TracksCheck(t, l, e.key, key, e.now, times);
    if e.Failing? && Allow(t, l, e.key, e.now).1 {
      var checked := Allow(t, l, e.key, e.now).0;
      if e.key == key {
        TracksFailure(Entry(checked, key), times, l, e.now);
      } else if key in checked && key !in AfterAll(l, events) {
        CheckLeaves(t, l, e.key, e.now, key);
      }
    }
  }

  lemma {:induction false} TracksEveryRun(l: Limits, events: seq<Event>, key: string, now: int)
    requires InOrder(events) && (events != [] ==> events[|events| - 1].now <= now)
    ensures Tracks(Entry(AfterAll(l, events), key), History(l, events, key), l, now)
    decreases |events|
  {
    hide Tracks, After, Dropped, LockedOut;
    if events == [] {
      TracksStart(l, now);
    } else {
      var before, e := events[..|events| - 1], events[|events| - 1];
      TracksEveryRun(l, before, key, e.now);
      assert before + [e] == events;
      TracksStep(l, before, e, key);
      TracksLater(Entry(AfterAll(l, events), key), History(l, events, key), l, e.now, now);
    }
  }

  /**
   * Over every run in time order, a check is refused if and only if some failure of the host since its
   * entry was last dropped was at least the configured number of its window and less than a lockout ago;
   * and the last failure is such a one then.
   */
  lemma RefusedIff(l: Limits, events: seq<Event>, key: string, now: int)
    requires InOrder(events) && (events != [] ==> events[|events| - 1].now <= now)
    ensures !Allow(AfterAll(l, events), l, key, now).1 <==> LockedOut(History(l, events, key), l, now)
    ensures LockedOut(History(l, events, key), l, now) <==> LockedByLast(History(l, events, key), l, now)
  {
    hide Tracks, AfterAll, History, LockedOut, LockedByLast;
    TracksEveryRun(l, events, key, now);
    TracksCheck(AfterAll(l, events), l, key, key, now, History(l, events, key));
    Verdict(Entry(AfterAll(l, events), key), History(l, events, key), l, now);
  }

  /** A check leaves the host in the table if and only if it is locked out or its last window is still open. */
  lemma RememberedIff(l: Limits, events: seq<Event>, key: string, now: int)
    requires InOrder(events) && (events != [] ==> events[|events| - 1].now <= now)
    ensures var times := History(l, events, key);
            key in Allow(AfterAll(l, events), l, key, now).0 <==>
              LockedOut(times, l, now) || (times != [] && now - times[Opener(times, l.window, |times| - 1)] < l.window)
  {
    hide AfterAll, History, LockedOut, LockedByLast, Opener, Sorted, Over;
    TracksEveryRun(l, events, key, now);
    Verdict(Entry(AfterAll(l, events), key), History(l, events, key), l, now);
  }

  /** When the host was last heard of: its last attempt to fail, or its last refused check. */
  function Heard(l: Limits, events: seq<Event>, key: string): Option<int> {
    if events == [] then None else
    var before, e := events[..|events| - 1], events[|events| - 1];
    if e.key == key && (e.Failing? || (e.Checking? && LockedOut(History(l, before, key), l, e.now))) then Some(e.now)
    else Heard(l, before, key)
  }

  /** What the search for the oldest entry compares is when each host was last heard of. */
  lemma {:induction false} HeardOverEveryRun(l: Limits, events: seq<Event>, key: string)
    requires InOrder(events) && key in AfterAll(l, events)
    ensures Some(AfterAll(l, events)[key].lastSeen) == Heard(l, events, key)
    decreases |events|
  {
    hide History, LockedOut, InOrder;
    if events != [] {
      var before, e := events[..|events| - 1], events[|events| - 1];
      OrderBefore(events);
      var t := AfterAll(l, before);
      if e.key == key {
        TracksEveryRun(l, before, key, e.now);
        TracksCheck(t, l, key, key, e.now, History(l, before, key));
        if e.Checking? && Allow(t, l, key, e.now).1 { HeardOverEveryRun(l, before, key); }
      } else {
        OthersUntouched(t, l, e, key);
        HeardOverEveryRun(l, before, key);
      }
    }
  }

  lemma OrderBefore(events: seq<Event>)
    requires InOrder(events) && events != []
    ensures var before := events[..|events| - 1];
            InOrder(before) && (before != [] ==> before[|before| - 1].now <= events[|events| - 1].now)
  {
  }

  // ---------------------------------------------------------------- overlapping handshakes

  predicate TimeOrdered(hs: seq<Happening>) {
    forall i, j | 0 <= i < j < |hs| :: hs[i].now <= hs[j].now
  }

  /** The entry against the failures when they may also come during a lockout. */
  predicate Keeps(entry: Option<Attempt>, times: seq<int>, l: Limits, clock: int) {
    && (times != [] ==> times[|times| - 1] <= clock)
    && match entry
       case None => Idle(times, l, clock) && !LockedByLast(times, l, clock)
       case Some(a) => Last(a, times, l)
  }

  lemma KeepsCheck(t: Table, l: Limits, key: string, k: string, now: int, times: seq<int>)
    requires Keeps(Entry(t, k), times, l, now)
    ensures Keeps(Entry(Allow(t, l, key, now).0, k), times, l, now)
    ensures Allow(t, l, k, now).1 <==> !LockedByLast(times, l, now)
  {
    hide Opener;
  }

  lemma KeepsFailure(entry: Option<Attempt>, times: seq<int>, l: Limits, now: int)
    requires Keeps(entry, times, l, now)
    ensures Keeps(Some(Counted(entry, l, now)), times + [now], l, now)
  {
    hide Opener;
    OpenerNext(times, l.window, now);
  }

  lemma KeepsStep(t: Table, l: Limits, h: Happening, key: string, times: seq<int>)
    requires Keeps(Entry(t, key), times, l, h.now)
    ensures Keeps(Entry(Follow(t, l, h), key),
                  if Drops(t, l, h, key) then [] else if h.Failed? && h.key == key then times + [h.now] else times, l, h.now)
  {
    hide Keeps, Counted;
    KeepsNothing(l, h.now);
    if h.Check? {
      KeepsCheck(t, l, h.key, key, h.now, times);
    } else if h.Failed? && h.key == key {
      KeepsFailure(Entry(t, key), times, l, h.now);
    }
  }

  lemma KeepsNothing(l: Limits, clock: int)
    ensures Keeps(None, [], l, clock)
  {
  }

  lemma KeepsLater(entry: Option<Attempt>, times: seq<int>, l: Limits, clock: int, now: int)
    requires Keeps(entry, times, l, clock) && clock <= now
    ensures Keeps(entry, times, l, now)
  {
    hide Opener;
  }

  lemma {:induction false} KeepsEveryRun(l: Limits, hs: seq<Happening>, key: string, now: int)
    requires TimeOrdered(hs) && (hs != [] ==> hs[|hs| - 1].now <= now)
    ensures Keeps(Entry(FollowAll(l, hs), key), Failures(l, hs, key), l, now)
    decreases |hs|
  {
    hide Keeps, Follow, Drops;
    if hs == [] {
      KeepsNothing(l, now);
    } else {
      var before, h := hs[..|hs| - 1], hs[|hs| - 1];
      KeepsEveryRun(l, before, key, h.now);
      KeepsStep(FollowAll(l, before), l, h, key, Failures(l, before, key));
      KeepsLater(Entry(FollowAll(l, hs), key), Failures(l, hs, key), l, h.now, now);
    }
  }

  /**
   * With handshakes that overlap, over every order of events in time order: a check is refused if and
   * only if the host's last failure reached the limit within its window and is less than a lockout ago.
   * So the host is let in although an earlier lockout still runs exactly when its last failure opened or
   * continued a window that has not reached the limit.
   */
  lemma RefusedInterleavedIff(l: Limits, hs: seq<Happening>, key: string, now: int)
    requires TimeOrdered(hs) && (hs != [] ==> hs[|hs| - 1].now <= now)
    ensures var times, ok := Failures(l, hs, key), Allow(FollowAll(l, hs), l, key, now).1;
            && (!ok <==> LockedByLast(times, l, now))
            && (ok && LockedOut(times, l, now)
                <==> LockedOut(times, l, now) && Rank(times, l.window, |times| - 1) < l.maxFailures)
  {
    hide Keeps, FollowAll, Failures, Opener;
    KeepsEveryRun(l, hs, key, now);
    var times := Failures(l, hs, key);
    KeepsCheck(FollowAll(l, hs), l, key, key, now, times);
    LastIsLatest(l, hs, key);
    if LockedOut(times, l, now) {
      var i :| 0 <= i < |times| && Rank(times, l.window, i) >= l.maxFailures && now < times[i] + l.lockout;
      assert i < |times| - 1 ==> times[i] <= times[|times| - 1];
    }
  }

  lemma {:induction false} LastIsLatest(l: Limits, hs: seq<Happening>, key: string)
    requires TimeOrdered(hs)
    ensures var times := Failures(l, hs, key);
            Sorted(times) && (times != [] ==> hs != [] && times[|times| - 1] <= hs[|hs| - 1].now)
    decreases |hs|
  {
    hide Drops, FollowAll;
    if hs != [] {
      var before := hs[..|hs| - 1];
      LastIsLatest(l, before, key);
      SortedGrows(Failures(l, before, key), hs[|hs| - 1].now);
    }
  }

  const Two := Limits(2, 10, 100, 8)

  /** Three handshakes let in together; the third fails when the window of the first two is over. */
  const Late := [Check("h", 0), Check("h", 0), Check("h", 0), Failed("h", 0, "h"), Failed("h", 0, "h"), Failed("h", 10, "h")]

  lemma LateTable()
    ensures FollowAll(Two, Late[..3]) == map[] && FollowAll(Two, Late[..4]) == map["h" := Attempt(1, 0, None, 0)]
    ensures FollowAll(Two, Late[..5]) == map["h" := Attempt(2, 0, Some(100), 0)]
    ensures FollowAll(Two, Late) == map["h" := Attempt(1, 10, None, 10)]
    ensures FollowAll(Two, []) == FollowAll(Two, Late[..1]) == FollowAll(Two, Late[..2]) == map[]
  {
    LatePrefixes();
    assert FollowAll(Two, Late[..1]) == map[];
    assert FollowAll(Two, Late[..2]) == map[];
    assert FollowAll(Two, Late[..3]) == map[];
    assert FollowAll(Two, Late[..4]) == map["h" := Attempt(1, 0, None, 0)];
    assert FollowAll(Two, Late[..5]) == map["h" := Attempt(2, 0, Some(100), 0)];
  }

  lemma LatePrefixes()
    ensures Late[..1][..0] == [] && Late[..2][..1] == Late[..1] && Late[..3][..2] == Late[..2]
    ensures Late[..4][..3] == Late[..3] && Late[..5][..4] == Late[..4]
  {
  }

  lemma LateHistory()
    ensures Failures(Two, Late, "h") == [0, 0, 10]
  {
    hide FollowAll;
    LatePrefixes();
    LateTable();
    assert Failures(Two, Late[..1], "h") == [];
    assert Failures(Two, Late[..2], "h") == [];
    assert Failures(Two, Late[..3], "h") == [];
    assert Failures(Two, Late[..4], "h") == [0];
    assert Failures(Two, Late[..5], "h") == [0, 0];
  }

  lemma LateOrderly()
    ensures Orderly(Two, Late, "h", 3)
  {
    hide FollowAll;
    LatePrefixes();
    LateTable();
    assert Undecided(Two, Late[..1], "h") == 1;
    assert Undecided(Two, Late[..2], "h") == 2;
    assert Undecided(Two, Late[..3], "h") == 3;
    assert Undecided(Two, Late[..4], "h") == 2;
    assert Undecided(Two, Late[..5], "h") == 1;
    assert Undecided(Two, Late, "h") == 0;
    hide Undecided;
    assert Orderly(Two, Late[..1], "h", 3);
    assert Orderly(Two, Late[..2], "h", 3);
    assert Orderly(Two, Late[..3], "h", 3);
    assert Orderly(Two, Late[..4], "h", 3);
    assert Orderly(Two, Late[..5], "h", 3);
  }

  /** A late failure opens a new window and thereby lifts a lockout that still had most of its time to run. */
  lemma LateFailureLiftsLockout()
    ensures TimeOrdered(Late) && Orderly(Two, Late, "h", 3)
    ensures !Allow(FollowAll(Two, Late[..5]), Two, "h", 9).1
    ensures Allow(FollowAll(Two, Late), Two, "h", 10).1 && LockedOut(Failures(Two, Late, "h"), Two, 10)
  {
    hide FollowAll, Failures, Orderly;
    LateTable();
    LateHistory();
    LateOrderly();
    assert Opener([0, 0, 10], 10, 1) == 0;
    assert Rank([0, 0, 10], 10, 1) == 2;
  }
}
