/** The limiter when handshakes of one host overlap: checks and outcomes in any order. */
module InterleavedLimiter {
  import opened Wrappers
  import opened AuthLimiter

  /** A handshake is checked first and, if let in, fails or succeeds later. */
  datatype Happening =
    | Check(key: string, now: int)
    | Failed(key: string, now: int, victim: string)
    | Passed(key: string, now: int)

  function Follow(t: Table, l: Limits, h: Happening): Table {
    match h
    case Check(key, now) => Allow(t, l, key, now).0
    case Failed(key, now, victim) => Fail(t, l, key, now, victim)
    case Passed(key, _) => t - {key}
  }

  function FollowAll(l: Limits, hs: seq<Happening>): Table {
    if hs == [] then map[] else Follow(FollowAll(l, hs[..|hs| - 1]), l, hs[|hs| - 1])
  }

  /** How the number of handshakes of the key let in and not yet decided moves. */
  function Moves(t: Table, l: Limits, h: Happening, key: string): int {
    if h.key != key then 0
    else if h.Check? then if Allow(t, l, key, h.now).1 then 1 else 0
    else -1
  }

  function Undecided(l: Limits, hs: seq<Happening>, key: string): int {
    if hs == [] then 0
    else
      var before := hs[..|hs| - 1];
      Undecided(l, before, key) + Moves(FollowAll(l, before), l, hs[|hs| - 1], key)
  }

  /** In time order, every outcome after a check that let the handshake in, never more than `most` of the key undecided. */
  predicate Orderly(l: Limits, hs: seq<Happening>, key: string, most: int) {
    hs == [] ||
    (var before, h := hs[..|hs| - 1], hs[|hs| - 1];
     && Orderly(l, before, key, most)
     && (before != [] ==> before[|before| - 1].now <= h.now)
     && 0 <= Undecided(l, hs, key) <= most)
  }

  /** The step drops the key's entry otherwise than by its window running out. */
  predicate Drops(t: Table, l: Limits, h: Happening, key: string) {
    || (h.Passed? && h.key == key)
    || (h.Failed? && h.key != key && h.victim == key && Full(t, l, h.key))
  }

  /** The times of the key's failures since it last succeeded or was evicted. */
  function Failures(l: Limits, hs: seq<Happening>, key: string): seq<int> {
    if hs == [] then []
    else
      var before, h := hs[..|hs| - 1], hs[|hs| - 1];
      var times := Failures(l, before, key);
      if Drops(FollowAll(l, before), l, h, key) then [] else if h.Failed? && h.key == key then times + [h.now] else times
  }

  /** The most failures one window can count: the limit, and the handshakes let in before it was reached. */
  function PerWindow(l: Limits, overlap: int): int { l.maxFailures + overlap - 1 }

  /** The most failures one window's time can count. */
  function MostOverlapping(l: Limits, overlap: int): int {
    if l.maxFailures == 1 then overlap else 2 * (l.maxFailures + overlap - 2)
  }

  // ---------------------------------------------------------------- a limit of two or more

  ghost predicate Accounts(entry: Option<Attempt>, times: seq<int>, undecided: int, l: Limits, overlap: int, clock: int) {
    var n, M, W, B := |times|, l.maxFailures, l.window, PerWindow(l, overlap);
    && Sorted(times) && Spread(times, W, 2 * B - 2) && (n > 0 ==> times[n - 1] <= clock)
    && match entry
       case None => Fresh(times, n, clock, W, B - 1)
       case Some(a) =>
         && 1 <= a.failures <= n
         && times[n - a.failures] == a.windowStart
         && Fresh(times, n - a.failures, a.windowStart, W, B - 1)
         && (a.failures < M ==> a.blockedUntil.None?)
         && (a.failures >= M ==> a.blockedUntil == Some(times[n - 1] + l.lockout) && a.failures + undecided <= B)
  }

  lemma AccountsLater(entry: Option<Attempt>, times: seq<int>, undecided: int, l: Limits, overlap: int, clock: int, now: int)
    requires Accounts(entry, times, undecided, l, overlap, clock) && clock <= now
    ensures Accounts(entry, times, undecided, l, overlap, now)
  {
  }

  /** Once an entry's window has run out a new one may begin, if a handshake is left to begin it or the lockout is over. */
  lemma WindowOver(a: Attempt, times: seq<int>, undecided: int, l: Limits, overlap: int, now: int)
    requires Sensible(l) && l.maxFailures >= 2 && overlap >= 1 && 0 <= undecided && Accounts(Some(a), times, undecided, l, overlap, now)
    requires now - a.windowStart >= l.window
    requires undecided >= 1 || (a.blockedUntil.Some? ==> now >= a.blockedUntil.value)
    ensures Fresh(times, |times|, now, l.window, PerWindow(l, overlap) - 1)
  {
    var n, d := |times|, PerWindow(l, overlap) - 1;
    if n >= d {
      assert times[n - d] <= times[n - 1];
      if a.failures <= d {
        assert times[n - d] <= times[n - a.failures];
      }
    }
  }

  lemma CheckAccounts(t: Table, l: Limits, now: int, key: string, times: seq<int>, undecided: int, overlap: int)
    requires Sensible(l) && l.maxFailures >= 2 && overlap >= 1 && 0 <= undecided && Accounts(Entry(t, key), times, undecided, l, overlap, now)
    ensures var (u, ok) := Allow(t, l, key, now);
            Accounts(Entry(u, key), times, undecided + (if ok then 1 else 0), l, overlap, now)
  {
    hide Sorted, Spread, Fresh;
    if key in t {
      var a := t[key];
      StillBlocked(a, times, undecided, l, overlap, now);
      if Allow(t, l, key, now).1 && now - a.windowStart >= l.window {
        WindowOver(a, times, undecided, l, overlap, now);
      }
    }
  }

  /** Within its window an entry that reached the limit is blocked. */
  lemma StillBlocked(a: Attempt, times: seq<int>, undecided: int, l: Limits, overlap: int, now: int)
    requires Sensible(l) && Accounts(Some(a), times, undecided, l, overlap, now)
    ensures a.failures >= l.maxFailures && now - a.windowStart < l.window ==> a.blockedUntil.Some? && now < a.blockedUntil.value
  {
    var n := |times|;
    assert times[n - a.failures] <= times[n - 1];
  }

  lemma FirstFailure(entry: Option<Attempt>, times: seq<int>, undecided: int, l: Limits, overlap: int, now: int)
    requires Sensible(l) && l.maxFailures >= 2 && 1 <= undecided <= overlap && Accounts(entry, times, undecided, l, overlap, now)
    requires entry.Some? ==> now - entry.value.windowStart >= l.window
    ensures Accounts(Some(Counted(entry, l, now)), times + [now], undecided - 1, l, overlap, now)
  {
    var n, B := |times|, PerWindow(l, overlap);
    if entry.Some? {
      WindowOver(entry.value, times, undecided, l, overlap, now);
    }
    FreshSpread(times, now, l.window, B - 1, 2 * B - 2, n);
    SortedGrows(times, now);
    hide Sorted, Spread;
  }

  /** Far enough behind a fresh start the times are a window past. */
  lemma FreshSpread(times: seq<int>, now: int, window: int, back: int, most: int, s: nat)
    requires Sorted(times) && Spread(times, window, most) && 1 <= back && s <= |times| && |times| - most <= s - back
    requires Fresh(times, s, now, window, back) && most >= 1
    ensures Spread(times + [now], window, most)
  {
    var n := |times|;
    if n >= most {
      assert times[n - most] <= times[s - back];
    }
    SpreadGrows(times, now, window, most);
  }

  lemma NextFailure(a: Attempt, times: seq<int>, undecided: int, l: Limits, overlap: int, now: int)
    requires Sensible(l) && l.maxFailures >= 2 && 1 <= undecided <= overlap && Accounts(Some(a), times, undecided, l, overlap, now)
    requires now - a.windowStart < l.window
    ensures Accounts(Some(Counted(Some(a), l, now)), times + [now], undecided - 1, l, overlap, now)
  {
    var n, B := |times|, PerWindow(l, overlap);
    var s := n - a.failures;
    assert times[s] <= now;
    assert a.failures <= B - 1;
    FreshSpread(times, now, l.window, B - 1, 2 * B - 2, s);
    SortedGrows(times, now);
    hide Sorted, Spread;
  }

  lemma FailureAccounts(entry: Option<Attempt>, times: seq<int>, undecided: int, l: Limits, overlap: int, now: int)
    requires Sensible(l) && l.maxFailures >= 2 && 1 <= undecided <= overlap && Accounts(entry, times, undecided, l, overlap, now)
    ensures Accounts(Some(Counted(entry, l, now)), times + [now], undecided - 1, l, overlap, now)
  {
    hide Accounts, Counted;
    if entry.None? || now - entry.value.windowStart >= l.window {
      FirstFailure(entry, times, undecided, l, overlap, now);
    } else {
      NextFailure(entry.value, times, undecided, l, overlap, now);
    }
  }

  // ---------------------------------------------------------------- a limit of one

  /** With a limit of one every failure blocks: `g` failures came since a check was last let in past a lockout. */
  ghost predicate Strict(entry: Option<Attempt>, times: seq<int>, undecided: int, l: Limits, overlap: int, clock: int) {
    var n, W := |times|, l.window;
    && Sorted(times) && Spread(times, W, overlap) && (n > 0 ==> times[n - 1] <= clock)
    && match entry
       case None => Fresh(times, n, clock, W, 1)
       case Some(a) =>
         && n >= 1 && a.blockedUntil == Some(times[n - 1] + l.lockout) && a.windowStart <= times[n - 1]
         && exists g: nat :: Since(times, undecided, W, overlap, g)
  }

  predicate Since(times: seq<int>, undecided: int, window: int, overlap: int, g: nat) {
    1 <= g <= |times| && g + undecided <= overlap && Fresh(times, |times| - g, times[|times| - g], window, 1)
  }

  lemma StrictLater(entry: Option<Attempt>, times: seq<int>, undecided: int, l: Limits, overlap: int, clock: int, now: int)
    requires Strict(entry, times, undecided, l, overlap, clock) && clock <= now
    ensures Strict(entry, times, undecided, l, overlap, now)
  {
  }

  lemma CheckStrict(t: Table, l: Limits, now: int, key: string, times: seq<int>, undecided: int, overlap: int)
    requires Sensible(l) && l.maxFailures == 1 && Strict(Entry(t, key), times, undecided, l, overlap, now)
    ensures var (u, ok) := Allow(t, l, key, now);
            Strict(Entry(u, key), times, undecided + (if ok then 1 else 0), l, overlap, now)
  {
    hide Sorted, Spread, Since;
  }

  /** One more failure after `g` others, all later than a window past the one before them. */
  lemma StrictSpread(times: seq<int>, now: int, window: int, overlap: int, g: nat)
    requires Sorted(times) && Spread(times, window, overlap) && (times != [] ==> times[|times| - 1] <= now)
    requires g <= |times| && g < overlap && Fresh(times, |times| - g, if g == 0 then now else times[|times| - g], window, 1)
    ensures Spread(times + [now], window, overlap)
  {
    var n := |times|;
    if n >= overlap {
      assert times[n - overlap] <= times[n - g - 1];
      if g > 0 {
        assert times[n - g] <= times[n - 1];
      }
    }
    SpreadGrows(times, now, window, overlap);
  }

  lemma SinceGrows(times: seq<int>, now: int, undecided: int, window: int, overlap: int, g: nat)
    requires g <= |times| && g + undecided <= overlap
    requires Fresh(times, |times| - g, if g == 0 then now else times[|times| - g], window, 1)
    ensures Since(times + [now], undecided - 1, window, overlap, g + 1)
  {
  }

  lemma FailureStrict(entry: Option<Attempt>, times: seq<int>, undecided: int, l: Limits, overlap: int, now: int)
    requires Sensible(l) && l.maxFailures == 1 && 1 <= undecided <= overlap && Strict(entry, times, undecided, l, overlap, now)
    ensures Strict(Some(Counted(entry, l, now)), times + [now], undecided - 1, l, overlap, now)
  {
    var g: nat := 0;
    if entry.Some? {
      g :| Since(times, undecided, l.window, overlap, g);
    }
    hide Sorted, Spread;
    StrictSpread(times, now, l.window, overlap, g);
    SinceGrows(times, now, undecided, l.window, overlap, g);
    hide Since, Fresh;
    SortedGrows(times, now);
  }

  // ---------------------------------------------------------------- every run

  ghost predicate Bounded(entry: Option<Attempt>, times: seq<int>, undecided: int, l: Limits, overlap: int, clock: int) {
    if l.maxFailures == 1 then Strict(entry, times, undecided, l, overlap, clock)
    else Accounts(entry, times, undecided, l, overlap, clock)
  }

  lemma StartBounded(undecided: int, l: Limits, overlap: int, clock: int)
    ensures Bounded(None, [], undecided, l, overlap, clock)
  {
  }

  lemma BoundedLater(entry: Option<Attempt>, times: seq<int>, undecided: int, l: Limits, overlap: int, clock: int, now: int)
    requires Bounded(entry, times, undecided, l, overlap, clock) && clock <= now
    ensures Bounded(entry, times, undecided, l, overlap, now)
  {
    hide Accounts, Strict;
    if l.maxFailures == 1 {
      StrictLater(entry, times, undecided, l, overlap, clock, now);
    } else {
      AccountsLater(entry, times, undecided, l, overlap, clock, now);
    }
  }

  lemma OwnStepBounded(t: Table, l: Limits, h: Happening, times: seq<int>, undecided: int, overlap: int)
    requires Sensible(l) && overlap >= 1 && 0 <= undecided <= overlap && 0 <= undecided + Moves(t, l, h, h.key) <= overlap && !h.Passed?
    requires Bounded(Entry(t, h.key), times, undecided, l, overlap, h.now)
    ensures Bounded(Entry(Follow(t, l, h), h.key), if h.Failed? then times + [h.now] else times, undecided + Moves(t, l, h, h.key), l, overlap, h.now)
  {
    hide Accounts, Strict, Counted;
    if h.Check? {
      if l.maxFailures == 1 {
        CheckStrict(t, l, h.now, h.key, times, undecided, overlap);
      } else {
        CheckAccounts(t, l, h.now, h.key, times, undecided, overlap);
      }
    } else if l.maxFailures == 1 {
      FailureStrict(Entry(t, h.key), times, undecided, l, overlap, h.now);
    } else {
      FailureAccounts(Entry(t, h.key), times, undecided, l, overlap, h.now);
    }
  }

  lemma StepBounded(t: Table, l: Limits, h: Happening, key: string, times: seq<int>, undecided: int, overlap: int)
    requires Sensible(l) && overlap >= 1 && 0 <= undecided <= overlap && 0 <= undecided + Moves(t, l, h, key) <= overlap
    requires Bounded(Entry(t, key), times, undecided, l, overlap, h.now)
    ensures var next := if Drops(t, l, h, key) then [] else if h.Failed? && h.key == key then times + [h.now] else times;
            Bounded(Entry(Follow(t, l, h), key), next, undecided + Moves(t, l, h, key), l, overlap, h.now)
  {
    hide Bounded, Counted;
    StartBounded(undecided + Moves(t, l, h, key), l, overlap, h.now);
    if h.key == key {
      if !h.Passed? {
        OwnStepBounded(t, l, h, times, undecided, overlap);
      }
    } else if h.Check? {
      CheckLeaves(t, l, h.key, h.now, key);
    }
  }

  lemma {:induction false} BoundedOverEveryRun(l: Limits, hs: seq<Happening>, key: string, overlap: int)
    requires Sensible(l) && overlap >= 1 && Orderly(l, hs, key, overlap) && hs != []
    ensures Bounded(Entry(FollowAll(l, hs), key), Failures(l, hs, key), Undecided(l, hs, key), l, overlap, hs[|hs| - 1].now)
  {
    hide Bounded, Drops, Moves, Follow;
    var before, h := hs[..|hs| - 1], hs[|hs| - 1];
    if before == [] {
      StartBounded(0, l, overlap, h.now);
    } else {
      BoundedOverEveryRun(l, before, key, overlap);
      BoundedLater(Entry(FollowAll(l, before), key), Failures(l, before, key), Undecided(l, before, key), l, overlap,
                   before[|before| - 1].now, h.now);
    }
    StepBounded(FollowAll(l, before), l, h, key, Failures(l, before, key), Undecided(l, before, key), overlap);
  }

  lemma BoundedCount(entry: Option<Attempt>, times: seq<int>, undecided: int, l: Limits, overlap: int, clock: int, from: int)
    requires l.maxFailures >= 1 && overlap >= 1 && Bounded(entry, times, undecided, l, overlap, clock)
    ensures CountIn(times, from, from + l.window) <= MostOverlapping(l, overlap)
  {
    hide CountIn, Fresh, Since;
    SpreadBounds(times, from, l.window, MostOverlapping(l, overlap));
  }

  /**
   * Over every order of checks and outcomes in which at most `overlap` handshakes of a host are let in and
   * undecided at once, any half-open interval of one window counts, between successes and evictions of
   * the host, at most 2 (M + overlap - 2) failures for a limit of M, and `overlap` for a limit of one.
   */
  lemma FailuresPerWindowInterleaved(l: Limits, hs: seq<Happening>, key: string, overlap: int, from: int)
    requires l.maxFailures >= 1 && l.lockout >= l.window && overlap >= 1 && Orderly(l, hs, key, overlap)
    ensures CountIn(Failures(l, hs, key), from, from + l.window) <= MostOverlapping(l, overlap)
  {
    hide Failures, FollowAll, CountIn, Bounded, Orderly, Undecided;
    if hs == [] {
      NoFailures(l, key, from);
    } else {
      BoundedOverEveryRun(l, hs, key, overlap);
      BoundedCount(Entry(FollowAll(l, hs), key), Failures(l, hs, key), Undecided(l, hs, key), l, overlap, hs[|hs| - 1].now, from);
    }
  }

  lemma NoFailures(l: Limits, key: string, from: int)
    ensures CountIn(Failures(l, [], key), from, from + l.window) == 0
  {
  }

  // ---------------------------------------------------------------- the bound is attained

  /** The run so far ends by `at`, with `u` handshakes undecided and an entry of `f` failures in the window from `ws`. */
  ghost predicate Stage(l: Limits, hs: seq<Happening>, key: string, overlap: int, at: int, f: int, ws: int, u: int) {
    && Orderly(l, hs, key, overlap) && (hs != [] ==> hs[|hs| - 1].now <= at) && Undecided(l, hs, key) == u
    && var entry := Entry(FollowAll(l, hs), key);
    entry.Some? && entry.value.failures == f && entry.value.windowStart == ws && (f < l.maxFailures ==> entry.value.blockedUntil.None?)
  }

  lemma Appended(l: Limits, hs: seq<Happening>, key: string, h: Happening)
    requires h.key == key
    ensures var t, longer := FollowAll(l, hs), hs + [h];
            && FollowAll(l, longer) == Follow(t, l, h) && Undecided(l, longer, key) == Undecided(l, hs, key) + Moves(t, l, h, key)
            && (h.Check? ==> Failures(l, longer, key) == Failures(l, hs, key))
            && (h.Failed? ==> Failures(l, longer, key) == Failures(l, hs, key) + [h.now])
  {
    hide Follow, Moves;
    assert (hs + [h])[..|hs|] == hs;
  }

  lemma StillOrderly(l: Limits, hs: seq<Happening>, key: string, overlap: int, h: Happening)
    requires Orderly(l, hs, key, overlap) && (hs != [] ==> hs[|hs| - 1].now <= h.now)
    requires 0 <= Undecided(l, hs + [h], key) <= overlap
    ensures Orderly(l, hs + [h], key, overlap)
  {
    hide Undecided;
    assert (hs + [h])[..|hs|] == hs;
  }

  lemma OneCheck(l: Limits, hs: seq<Happening>, key: string, overlap: int, at: int, f: int, ws: int, u: int) returns (next: seq<Happening>)
    requires Stage(l, hs, key, overlap, at, f, ws, u) && f < l.maxFailures && at - ws < l.window && 0 <= u < overlap
    ensures Stage(l, next, key, overlap, at, f, ws, u + 1) && Failures(l, next, key) == Failures(l, hs, key)
  {
    hide FollowAll, Undecided, Failures, Orderly;
    next := hs + [Check(key, at)];
    Appended(l, hs, key, Check(key, at));
    StillOrderly(l, hs, key, overlap, Check(key, at));
  }

  lemma OneFailure(l: Limits, hs: seq<Happening>, key: string, overlap: int, at: int, f: int, ws: int, u: int) returns (next: seq<Happening>)
    requires Stage(l, hs, key, overlap, at, f, ws, u) && at - ws < l.window && 1 <= u <= overlap
    ensures Stage(l, next, key, overlap, at, f + 1, ws, u - 1) && Failures(l, next, key) == Failures(l, hs, key) + [at]
  {
    hide FollowAll, Undecided, Failures, Orderly;
    next := hs + [Failed(key, at, key)];
    Appended(l, hs, key, Failed(key, at, key));
    StillOrderly(l, hs, key, overlap, Failed(key, at, key));
  }

  /** A handshake left over from a window that has run out begins the next one. */
  lemma Leftover(l: Limits, hs: seq<Happening>, key: string, overlap: int, now: int, f: int, ws: int, u: int, at: int) returns (next: seq<Happening>)
    requires Stage(l, hs, key, overlap, now, f, ws, u) && now <= at && at - ws >= l.window && 1 <= u <= overlap && l.maxFailures >= 2
    ensures Stage(l, next, key, overlap, at, 1, at, u - 1) && Failures(l, next, key) == Failures(l, hs, key) + [at]
  {
    hide FollowAll, Undecided, Failures, Orderly;
    next := hs + [Failed(key, at, key)];
    Appended(l, hs, key, Failed(key, at, key));
    StillOrderly(l, hs, key, overlap, Failed(key, at, key));
  }

  lemma {:induction false} Checks(l: Limits, hs: seq<Happening>, key: string, overlap: int, at: int, f: int, ws: int, u: int, n: nat) returns (next: seq<Happening>)
    requires Stage(l, hs, key, overlap, at, f, ws, u) && f < l.maxFailures && at - ws < l.window && 0 <= u && u + n <= overlap
    ensures Stage(l, next, key, overlap, at, f, ws, u + n) && Failures(l, next, key) == Failures(l, hs, key)
    decreases n
  {
    hide Stage, Failures;
    next := hs;
    if n > 0 {
      next := Checks(l, hs, key, overlap, at, f, ws, u, n - 1);
      next := OneCheck(l, next, key, overlap, at, f, ws, u + n - 1);
    }
  }

  lemma {:induction false} ManyFailures(l: Limits, hs: seq<Happening>, key: string, overlap: int, at: int, f: int, ws: int, u: int, n: nat) returns (next: seq<Happening>)
    requires Stage(l, hs, key, overlap, at, f, ws, u) && at - ws < l.window && n <= u <= overlap
    ensures Stage(l, next, key, overlap, at, f + n, ws, u - n) && Failures(l, next, key) == Failures(l, hs, key) + Repeated(at, n)
    decreases n
  {
    hide Stage, Failures;
    next := hs;
    if n == 0 {
      assert Failures(l, hs, key) + Repeated(at, 0) == Failures(l, hs, key);
    } else {
      next := ManyFailures(l, hs, key, overlap, at, f, ws, u, n - 1);
      next := OneFailure(l, next, key, overlap, at, f + n - 1, ws, u - n + 1);
      assert Failures(l, hs, key) + Repeated(at, n) == Failures(l, hs, key) + Repeated(at, n - 1) + [at];
    }
  }

  /** Handshakes one after the other, each checked and failed. */
  lemma {:induction false} Rounds(l: Limits, hs: seq<Happening>, key: string, overlap: int, now: int, at: int, f: int, ws: int, n: nat) returns (next: seq<Happening>)
    requires Stage(l, hs, key, overlap, now, f, ws, 0) && now <= at && at - ws < l.window && f + n <= l.maxFailures && overlap >= 1
    ensures Stage(l, next, key, overlap, at, f + n, ws, 0) && Failures(l, next, key) == Failures(l, hs, key) + Repeated(at, n)
    decreases n
  {
    hide Failures;
    next := hs;
    if n == 0 {
      assert Failures(l, hs, key) + Repeated(at, 0) == Failures(l, hs, key);
    } else {
      next := Rounds(l, hs, key, overlap, now, at, f, ws, n - 1);
      hide Stage;
      next := OneCheck(l, next, key, overlap, at, f + n - 1, ws, 0);
      next := OneFailure(l, next, key, overlap, at, f + n - 1, ws, 1);
      assert Failures(l, hs, key) + Repeated(at, n) == Failures(l, hs, key) + Repeated(at, n - 1) + [at];
    }
  }

  /** The run so far has only let handshakes in. */
  lemma {:induction false} OnlyChecks(l: Limits, key: string, overlap: int, n: nat) returns (hs: seq<Happening>)
    requires n <= overlap
    ensures Orderly(l, hs, key, overlap) && FollowAll(l, hs) == map[] && Undecided(l, hs, key) == n && Failures(l, hs, key) == []
    ensures hs != [] ==> hs[|hs| - 1].now == 0
    decreases n
  {
    hide FollowAll, Undecided, Failures, Orderly;
    if n == 0 {
      hs := [];
      NothingYet(l, key, overlap);
    } else {
      var before := OnlyChecks(l, key, overlap, n - 1);
      hs := before + [Check(key, 0)];
      Appended(l, before, key, Check(key, 0));
      StillOrderly(l, before, key, overlap, Check(key, 0));
    }
  }

  lemma NothingYet(l: Limits, key: string, overlap: int)
    ensures Orderly(l, [], key, overlap) && FollowAll(l, []) == map[] && Undecided(l, [], key) == 0 && Failures(l, [], key) == []
  {
  }

  /** After some checks from an empty table, the first failure opens the first window. */
  lemma Opening(l: Limits, key: string, overlap: int, n: nat) returns (hs: seq<Happening>)
    requires 1 <= n <= overlap && l.maxFailures >= 1
    ensures Stage(l, hs, key, overlap, 0, 1, 0, n - 1) && Failures(l, hs, key) == [0]
  {
    hide FollowAll, Undecided, Failures, Orderly;
    var before := OnlyChecks(l, key, overlap, n);
    hs := before + [Failed(key, 0, key)];
    Appended(l, before, key, Failed(key, 0, key));
    StillOrderly(l, before, key, overlap, Failed(key, 0, key));
  }

  /** The first window of the worst run: a failure at 0, all it can take just before it ends, and one handshake left. */
  lemma FirstWindow(l: Limits, key: string, overlap: int) returns (hs: seq<Happening>)
    requires l.maxFailures >= 2 && l.window >= 2 && overlap >= 1
    ensures Stage(l, hs, key, overlap, l.window - 1, l.maxFailures + overlap - 2, 0, 1)
    ensures Failures(l, hs, key) == [0] + Repeated(l.window - 1, l.maxFailures - 2) + Repeated(l.window - 1, overlap - 1)
  {
    hide Stage, Failures, Repeated;
    var M, at := l.maxFailures, l.window - 1;
    hs := Opening(l, key, overlap, 1);
    hs := Rounds(l, hs, key, overlap, 0, at, 1, 0, M - 2);
    hs := Checks(l, hs, key, overlap, at, M - 1, 0, 0, overlap);
    hs := ManyFailures(l, hs, key, overlap, at, M - 1, 0, overlap, overlap - 1);
  }

  /** `MostOverlapping` cannot be lowered: for every limit and overlap there is an orderly run that reaches it. */
  lemma MostOverlappingIsAttained(l: Limits, key: string, overlap: int) returns (hs: seq<Happening>, from: int)
    requires l.maxFailures >= 1 && l.window >= 2 && overlap >= 1
    ensures Orderly(l, hs, key, overlap)
    ensures CountIn(Failures(l, hs, key), from, from + l.window) == MostOverlapping(l, overlap)
  {
    hide Failures, Repeated, CountIn, FollowAll, Undecided, Orderly;
    var M, W := l.maxFailures, l.window;
    if M == 1 {
      hs := Opening(l, key, overlap, overlap);
      hs := ManyFailures(l, hs, key, overlap, 0, 1, 0, overlap - 1, overlap - 1);
      from := 0;
      CountOne(W);
      CountRepeated([0], 0, overlap - 1, 0, W);
    } else {
      hs := FirstWindow(l, key, overlap);
      var first := Failures(l, hs, key);
      hs := Leftover(l, hs, key, overlap, W - 1, M + overlap - 2, 0, 1, W);
      hs := Rounds(l, hs, key, overlap, W, W, 1, W, M - 2);
      hs := Checks(l, hs, key, overlap, W, M - 1, W, 0, overlap);
      hs := ManyFailures(l, hs, key, overlap, W, M - 1, W, overlap, overlap);
      from := W - 1;
      var until := W - 1 + W;
      CountStart(W);
      CountRepeated([0], W - 1, M - 2, from, until);
      CountRepeated([0] + Repeated(W - 1, M - 2), W - 1, overlap - 1, from, until);
      OneRepeated(W);
      CountRepeated(first, W, 1, from, until);
      CountRepeated(first + [W], W, M - 2, from, until);
      CountRepeated(first + [W] + Repeated(W, M - 2), W, overlap, from, until);
    }
  }

  lemma CountOne(W: int)
    requires W >= 1
    ensures CountIn([0], 0, W) == 1
  {
    assert CountIn([0][..0], 0, W) == 0;
  }
}
