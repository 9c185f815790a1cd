/** The sliding-window limiter of `WebSocketClient`: it remembers only the timestamps of the last second. */
module RateLimit {
  import opened Common

  const WINDOW := 1000

  /** How many of the first `n` timestamps lie in the half-open window `(t - 1000, t]`. */
  function CountTo(log: seq<int>, n: nat, t: int): nat
    requires n <= |log|
  {
    if n == 0 then 0 else CountTo(log, n - 1, t) + if t - WINDOW < log[n - 1] <= t then 1 else 0
  }

  function InWindow(log: seq<int>, t: int): nat {
    CountTo(log, |log|, t)
  }

  /** `filter((ts) => ts > windowStart)` of the first `n` timestamps. */
  function FilterTo(timestamps: seq<int>, n: nat, windowStart: int): seq<int>
    requires n <= |timestamps|
  {
    if n == 0 then [] else
      FilterTo(timestamps, n - 1, windowStart) + if timestamps[n - 1] > windowStart then [timestamps[n - 1]] else []
  }

  function Recent(timestamps: seq<int>, windowStart: int): seq<int> {
    FilterTo(timestamps, |timestamps|, windowStart)
  }

  ghost predicate NonDecreasing(times: seq<int>) {
    forall i, j :: 0 <= i < j < |times| ==> times[i] <= times[j]
  }

  ghost predicate UpTo(log: seq<int>, t: int) {
    forall i :: 0 <= i < |log| ==> log[i] <= t
  }

  lemma {:induction false} Prefix(log: seq<int>, x: int, n: nat, t: int, windowStart: int)
    requires n <= |log|
    ensures CountTo(log + [x], n, t) == CountTo(log, n, t)
    ensures FilterTo(log + [x], n, windowStart) == FilterTo(log, n, windowStart)
  {
    if n > 0 {
      Prefix(log, x, n - 1, t, windowStart);
    }
  }

  lemma InWindowSnoc(log: seq<int>, x: int, t: int)
    ensures InWindow(log + [x], t) == InWindow(log, t) + if t - WINDOW < x <= t then 1 else 0
  {
    Prefix(log, x, |log|, t, 0);
  }

  lemma RecentSnoc(log: seq<int>, x: int, windowStart: int)
    ensures Recent(log + [x], windowStart) == Recent(log, windowStart) + if x > windowStart then [x] else []
  {
    Prefix(log, x, |log|, 0, windowStart);
  }

  lemma {:induction false} RecentAgain(log: seq<int>, n: nat, a: int, b: int)
    requires n <= |log| && a <= b
    ensures Recent(FilterTo(log, n, a), b) == FilterTo(log, n, b)
  {
    if n > 0 {
      RecentAgain(log, n - 1, a, b);
      if log[n - 1] > a {
        RecentSnoc(FilterTo(log, n - 1, a), log[n - 1], b);
      } else {
        assert FilterTo(log, n, a) == FilterTo(log, n - 1, a);
      }
    }
  }

  lemma {:induction false} RecentCount(log: seq<int>, n: nat, now: int)
    requires n <= |log| && UpTo(log, now)
    ensures |FilterTo(log, n, now - WINDOW)| == CountTo(log, n, now)
  {
    if n > 0 {
      RecentCount(log, n - 1, now);
    }
  }

  // ----- in plain numbers -----

  /** Positions of the first `n` timestamps that lie in the second up to `t`. */
  ghost function SecondUpTo(log: seq<int>, n: nat, t: int): set<nat>
    requires n <= |log|
  {
    set i: nat | i < n && t - 1000 < log[i] <= t
  }

  lemma {:induction false} WindowMeans(log: seq<int>, n: nat, t: int)
    requires n <= |log|
    ensures CountTo(log, n, t) == |SecondUpTo(log, n, t)|
  {
    if n > 0 {
      WindowMeans(log, n - 1, t);
      OneMorePosition(SecondUpTo(log, n - 1, t), n - 1, t - 1000 < log[n - 1] <= t, SecondUpTo(log, n, t));
    }
  }

  /** Positions of the first `n` timestamps that are later than a second before `now`. */
  ghost function SecondBefore(log: seq<int>, n: nat, now: int): set<nat>
    requires n <= |log|
  {
    set i: nat | i < n && log[i] > now - 1000
  }

  lemma {:induction false} RecentMeans(log: seq<int>, n: nat, now: int)
    requires n <= |log|
    ensures |FilterTo(log, n, now - WINDOW)| == |SecondBefore(log, n, now)|
  {
    if n > 0 {
      RecentMeans(log, n - 1, now);
      OneMorePosition(SecondBefore(log, n - 1, now), n - 1, log[n - 1] > now - 1000, SecondBefore(log, n, now));
    }
  }

  lemma {:induction false} RecentElements(log: seq<int>, n: nat, now: int)
    requires n <= |log|
    ensures forall x :: x in FilterTo(log, n, now - WINDOW) <==> x > now - 1000 && x in log[..n]
  {
    if n > 0 {
      RecentElements(log, n - 1, now);
      assert log[..n] == log[..n - 1] + [log[n - 1]];
    }
  }

  // ----- two limiters -----

  /** A limiter that never forgets: a request is accepted when the second up to it holds fewer than `max`. */
  function Admit(log: seq<int>, now: int, max: nat): seq<int> {
    if InWindow(log, now) < max then log + [now] else log
  }

  /** What it has accepted after `n` requests. */
  function Accepted(times: seq<int>, n: nat, max: nat): seq<int>
    requires n <= |times|
  {
    if n == 0 then [] else Admit(Accepted(times, n - 1, max), times[n - 1], max)
  }

  /** The source's own bookkeeping: what was accepted, and the timestamps it still holds. */
  datatype Memory = Memory(accepted: seq<int>, kept: seq<int>)

  /** Whether there is room in the window, and the timestamps held afterwards. */
  function Check(kept: seq<int>, now: int, max: nat): (bool, seq<int>) {
    var recent := Recent(kept, now - WINDOW);
    if |recent| < max then (true, recent + [now]) else (false, recent)
  }

  function Remember(m: Memory, now: int, max: nat): Memory {
    var (allowed, kept) := Check(m.kept, now, max);
    Memory(if allowed then m.accepted + [now] else m.accepted, kept)
  }

  function Forgetful(times: seq<int>, n: nat, max: nat): Memory
    requires n <= |times|
  {
    if n == 0 then Memory([], []) else Remember(Forgetful(times, n - 1, max), times[n - 1], max)
  }

  lemma {:induction false} ForgetfulPrefix(times: seq<int>, x: int, n: nat, max: nat)
    requires n <= |times|
    ensures Forgetful(times + [x], n, max) == Forgetful(times, n, max)
  {
    if n > 0 {
      ForgetfulPrefix(times, x, n - 1, max);
    }
  }

  lemma AskedOnce(times: seq<int>, now: int, max: nat)
    ensures Forgetful(times + [now], |times| + 1, max) == Remember(Forgetful(times, |times|, max), now, max)
  {
    ForgetfulPrefix(times, now, |times|, max);
  }

  class Limiter {
    const maxRequestsPerSecond: nat
    var requestTimestamps: seq<int>

    /** Every time it was asked, and every time it said yes. */
    var asked: seq<int>
    var accepted: seq<int>

    ghost predicate Valid()
      reads this
    {
      Memory(accepted, requestTimestamps) == Forgetful(asked, |asked|, maxRequestsPerSecond)
    }

    constructor (max: nat)
      ensures Valid() && maxRequestsPerSecond == max && asked == []
    {
      maxRequestsPerSecond, requestTimestamps, asked, accepted := max, [], [], [];
    }

    method CheckRateLimit(now: int) returns (allowed: bool)
      requires Valid()
      modifies this
      ensures Valid() && asked == old(asked) + [now]
      ensures allowed <==> |Recent(old(requestTimestamps), now - WINDOW)| < maxRequestsPerSecond
      ensures allowed <==> |SecondBefore(old(requestTimestamps), |old(requestTimestamps)|, now)| < maxRequestsPerSecond
      ensures forall x :: x in requestTimestamps <==>
        (x in old(requestTimestamps) && x > now - 1000) || (allowed && x == now)
      ensures accepted == old(accepted) + if allowed then [now] else []
    {
      AskedOnce(asked, now, maxRequestsPerSecond);
      RecentMeans(requestTimestamps, |requestTimestamps|, now);
      RecentElements(requestTimestamps, |requestTimestamps|, now);
      assert requestTimestamps[..|requestTimestamps|] == requestTimestamps;
      var kept := Prune(requestTimestamps, now - WINDOW);
      requestTimestamps, asked := kept, asked + [now];
      if |requestTimestamps| >= maxRequestsPerSecond {
        return false;
      }
      requestTimestamps, accepted := requestTimestamps + [now], accepted + [now];
      allowed := true;
    }

    static method Prune(timestamps: seq<int>, windowStart: int) returns (kept: seq<int>)
      ensures kept == Recent(timestamps, windowStart)
    {
      kept := [];
      for i := 0 to |timestamps|
        invariant kept == FilterTo(timestamps, i, windowStart)
      {
        if timestamps[i] > windowStart {
          kept := kept + [timestamps[i]];
        }
      }
    }
  }

  /** In every run the object decides like its bookkeeping, and unless the clock comes back, no one-second window holds
      more than `max` accepted requests. */
  method Simulate(max: nat, times: seq<int>) returns (accepted: seq<int>)
    ensures accepted == Forgetful(times, |times|, max).accepted
    ensures NoReturn(times) ==> forall t :: |SecondUpTo(accepted, |accepted|, t)| <= max
    ensures NonDecreasing(times) ==> forall t :: |SecondUpTo(accepted, |accepted|, t)| <= max
  {
    var limiter := new Limiter(max);
    for i := 0 to |times|
      invariant fresh(limiter) && limiter.Valid() && limiter.maxRequestsPerSecond == max
      invariant limiter.asked == times[..i]
    {
      var _ := limiter.CheckRateLimit(times[i]);
      assert times[..i + 1] == times[..i] + [times[i]];
    }
    assert times[..|times|] == times;
    accepted := limiter.accepted;
    if NonDecreasing(times) {
      ForwardNeverReturns(times);
    }
    if NoReturn(times) {
      forall t ensures |SecondUpTo(accepted, |accepted|, t)| <= max {
        WindowNeverOverflows(times, |times|, max, t);
        WindowMeans(accepted, |accepted|, t);
      }
    }
  }

  // ----- forgetting is harmless while the clock does not go back -----

  lemma {:induction false} LogIsBounded(times: seq<int>, n: nat, max: nat, t: int)
    requires n <= |times| && forall i :: 0 <= i < n ==> times[i] <= t
    ensures UpTo(Accepted(times, n, max), t)
  {
    if n > 0 {
      LogIsBounded(times, n - 1, max, t);
    }
  }

  /** Discarding at an earlier window start loses nothing that the current window needs. */
  lemma Decide(log: seq<int>, start: int, now: int)
    requires UpTo(log, now) && start <= now - WINDOW
    ensures Recent(Recent(log, start), now - WINDOW) == Recent(log, now - WINDOW)
    ensures |Recent(log, now - WINDOW)| == InWindow(log, now)
    ensures Recent(log + [now], now - WINDOW) == Recent(log, now - WINDOW) + [now]
  {
    RecentAgain(log, |log|, start, now - WINDOW);
    RecentCount(log, |log|, now);
    RecentSnoc(log, now, now - WINDOW);
  }

  /** The forgetful limiter has accepted what the other one has, and holds what it needs from `start` on. */
  ghost predicate Agree(m: Memory, log: seq<int>, start: int) {
    m.accepted == log && m.kept == Recent(log, start)
  }

  lemma SameDecision(m: Memory, log: seq<int>, start: int, now: int, max: nat)
    requires Agree(m, log, start) && UpTo(log, now) && start <= now - WINDOW
    ensures Agree(Remember(m, now, max), Admit(log, now, max), now - WINDOW)
  {
    Decide(log, start, now);
  }

  /** Where the window of the last of `n` requests began; before any request, where the first one's will. */
  function Horizon(times: seq<int>, n: nat): int
    requires n <= |times|
  {
    if times == [] then 0 else times[if n == 0 then 0 else n - 1] - WINDOW
  }

  /** With a non-decreasing clock the forgetful limiter decides like the one that never forgets. */
  lemma {:induction false} ForgettingIsHarmless(times: seq<int>, n: nat, max: nat)
    requires NonDecreasing(times) && n <= |times|
    ensures Agree(Forgetful(times, n, max), Accepted(times, n, max), Horizon(times, n))
  {
    if n > 0 {
      var now := times[n - 1];
      ForgettingIsHarmless(times, n - 1, max);
      LogIsBounded(times, n - 1, max, now);
      SameDecision(Forgetful(times, n - 1, max), Accepted(times, n - 1, max), Horizon(times, n - 1), now, max);
    }
  }

  // ----- no window overflows -----

  /** Once the clock has been a full second past a request, no later request comes within a second of it. */
  ghost predicate NoReturn(times: seq<int>) {
    forall i, j, k :: 0 <= i < j < k < |times| && times[i] + WINDOW <= times[j] ==>
      times[k] >= times[i] + WINDOW || times[k] + WINDOW <= times[i]
  }

  lemma ForwardNeverReturns(times: seq<int>)
    requires NonDecreasing(times)
    ensures NoReturn(times)
  {
  }

  /** The timestamps that the filter removes. */
  function StaleTo(timestamps: seq<int>, n: nat, windowStart: int): seq<int>
    requires n <= |timestamps|
  {
    if n == 0 then [] else
      StaleTo(timestamps, n - 1, windowStart) + if timestamps[n - 1] <= windowStart then [timestamps[n - 1]] else []
  }

  /** Everything forgotten so far. */
  function Dropped(times: seq<int>, n: nat, max: nat): seq<int>
    requires n <= |times|
  {
    if n == 0 then [] else
      var kept := Forgetful(times, n - 1, max).kept;
      Dropped(times, n - 1, max) + StaleTo(kept, |kept|, times[n - 1] - WINDOW)
  }

  lemma {:induction false} InWindowJoin(a: seq<int>, b: seq<int>, t: int)
    ensures InWindow(a + b, t) == InWindow(a, t) + InWindow(b, t)
  {
    if b == [] {
      assert a + b == a;
    } else {
      var n := |b| - 1;
      InWindowJoin(a, b[..n], t);
      assert a + b == (a + b[..n]) + [b[n]] && b == b[..n] + [b[n]];
      InWindowSnoc(a + b[..n], b[n], t);
      InWindowSnoc(b[..n], b[n], t);
    }
  }

  lemma {:induction false} FilterSplits(timestamps: seq<int>, n: nat, windowStart: int, t: int)
    requires n <= |timestamps|
    ensures CountTo(timestamps, n, t) == InWindow(FilterTo(timestamps, n, windowStart), t) + InWindow(StaleTo(timestamps, n, windowStart), t)
  {
    if n > 0 {
      FilterSplits(timestamps, n - 1, windowStart, t);
      InWindowSnoc(FilterTo(timestamps, n - 1, windowStart), timestamps[n - 1], t);
      InWindowSnoc(StaleTo(timestamps, n - 1, windowStart), timestamps[n - 1], t);
      assert FilterTo(timestamps, n - 1, windowStart) + [] == FilterTo(timestamps, n - 1, windowStart);
      assert StaleTo(timestamps, n - 1, windowStart) + [] == StaleTo(timestamps, n - 1, windowStart);
    }
  }

  /** What was accepted is what is held and what was forgotten. */
  lemma {:induction false} Conservation(times: seq<int>, n: nat, max: nat, t: int)
    requires n <= |times|
    ensures InWindow(Forgetful(times, n, max).accepted, t)
         == InWindow(Forgetful(times, n, max).kept, t) + InWindow(Dropped(times, n, max), t)
  {
    if n > 0 {
      var m, now := Forgetful(times, n - 1, max), times[n - 1];
      Conservation(times, n - 1, max, t);
      OneRequest(m, now, max, t);
      InWindowJoin(Dropped(times, n - 1, max), StaleTo(m.kept, |m.kept|, now - WINDOW), t);
    }
  }

  /** One request moves timestamps from held to forgotten, and adds the same to accepted and held. */
  lemma OneRequest(m: Memory, now: int, max: nat, t: int)
    ensures var m' := Remember(m, now, max);
      InWindow(m'.accepted, t) + InWindow(m.kept, t)
      == InWindow(m.accepted, t) + InWindow(m'.kept, t) + InWindow(StaleTo(m.kept, |m.kept|, now - WINDOW), t)
  {
    FilterSplits(m.kept, |m.kept|, now - WINDOW, t);
    InWindowSnoc(m.accepted, now, t);
    InWindowSnoc(Recent(m.kept, now - WINDOW), now, t);
  }

  /** Every element is one of the first `n` timestamps. */
  ghost predicate DrawnFrom(times: seq<int>, n: nat, s: seq<int>)
    requires n <= |times|
  {
    forall x :: x in s ==> exists i :: 0 <= i < n && times[i] == x
  }

  /** Every element is a timestamp that the clock was later a full second past. */
  ghost predicate Outlived(times: seq<int>, n: nat, s: seq<int>)
    requires n <= |times|
  {
    forall x :: x in s ==> exists i, j :: 0 <= i < j < n && times[i] == x && x + WINDOW <= times[j]
  }

  lemma {:induction false} FilterElements(timestamps: seq<int>, n: nat, windowStart: int)
    requires n <= |timestamps|
    ensures forall x :: x in FilterTo(timestamps, n, windowStart) ==> x in timestamps
    ensures forall x :: x in StaleTo(timestamps, n, windowStart) ==> x in timestamps && x <= windowStart
  {
    if n > 0 {
      FilterElements(timestamps, n - 1, windowStart);
    }
  }

  lemma {:induction false} Held(times: seq<int>, n: nat, max: nat)
    requires n <= |times|
    ensures DrawnFrom(times, n, Forgetful(times, n, max).kept)
  {
    if n > 0 {
      var kept := Forgetful(times, n - 1, max).kept;
      Held(times, n - 1, max);
      FilterElements(kept, |kept|, times[n - 1] - WINDOW);
    }
  }

  lemma {:induction false} DroppedAreOutlived(times: seq<int>, n: nat, max: nat)
    requires n <= |times|
    ensures Outlived(times, n, Dropped(times, n, max))
  {
    if n > 0 {
      var kept := Forgetful(times, n - 1, max).kept;
      DroppedAreOutlived(times, n - 1, max);
      Held(times, n - 1, max);
      StaleAreOutlived(times, n, kept);
    }
  }

  lemma StaleAreOutlived(times: seq<int>, n: nat, kept: seq<int>)
    requires 0 < n <= |times| && DrawnFrom(times, n - 1, kept)
    ensures Outlived(times, n, StaleTo(kept, |kept|, times[n - 1] - WINDOW))
  {
    FilterElements(kept, |kept|, times[n - 1] - WINDOW);
    var stale := StaleTo(kept, |kept|, times[n - 1] - WINDOW);
    forall x | x in stale
      ensures exists i, j :: 0 <= i < j < n && times[i] == x && x + WINDOW <= times[j]
    {
      var i :| 0 <= i < n - 1 && times[i] == x;
      assert x + WINDOW <= times[n - 1];
    }
  }

  lemma {:induction false} NoneInside(s: seq<int>, n: nat, t: int)
    requires n <= |s| && forall x :: x in s ==> !(t - WINDOW < x <= t)
    ensures CountTo(s, n, t) == 0
  {
    if n > 0 {
      NoneInside(s, n - 1, t);
      assert s[n - 1] in s;
    }
  }

  lemma {:induction false} CountIsBounded(s: seq<int>, n: nat, t: int)
    requires n <= |s|
    ensures CountTo(s, n, t) <= n
  {
    if n > 0 {
      CountIsBounded(s, n - 1, t);
    }
  }

  /** Unless the clock comes back, no one-second window, wherever it lies, holds more than `max` accepted requests. */
  lemma {:induction false} WindowNeverOverflows(times: seq<int>, n: nat, max: nat, t: int)
    requires n <= |times| && NoReturn(times)
    ensures InWindow(Forgetful(times, n, max).accepted, t) <= max
  {
    if n > 0 {
      var m, now := Forgetful(times, n - 1, max), times[n - 1];
      WindowNeverOverflows(times, n - 1, max, t);
      InWindowSnoc(m.accepted, now, t);
      if t - WINDOW < now <= t {
        ForgottenIsOutside(times, n, max, t);
        CountIsBounded(Recent(m.kept, now - WINDOW), |Recent(m.kept, now - WINDOW)|, t);
      }
    }
  }

  /** A window around the current request holds nothing that was accepted and is forgotten. */
  lemma ForgottenIsOutside(times: seq<int>, n: nat, max: nat, t: int)
    requires 0 < n <= |times| && NoReturn(times) && t - WINDOW < times[n - 1] <= t
    ensures var m := Forgetful(times, n - 1, max);
      InWindow(m.accepted, t) == InWindow(Recent(m.kept, times[n - 1] - WINDOW), t)
  {
    var kept, now := Forgetful(times, n - 1, max).kept, times[n - 1];
    Conservation(times, n - 1, max, t);
    FilterSplits(kept, |kept|, now - WINDOW, t);
    DroppedIsOutside(times, n, max, t);
    StaleIsOutside(kept, now, t);
  }

  lemma DroppedIsOutside(times: seq<int>, n: nat, max: nat, t: int)
    requires 0 < n <= |times| && NoReturn(times) && t - WINDOW < times[n - 1] <= t
    ensures InWindow(Dropped(times, n - 1, max), t) == 0
  {
    DroppedAreOutlived(times, n - 1, max);
    OutlivedIsOutside(times, n, Dropped(times, n - 1, max), t);
  }

  lemma OutlivedIsOutside(times: seq<int>, n: nat, s: seq<int>, t: int)
    requires 0 < n <= |times| && NoReturn(times) && Outlived(times, n - 1, s) && t - WINDOW < times[n - 1] <= t
    ensures InWindow(s, t) == 0
  {
    forall x | x in s ensures !(t - WINDOW < x <= t) {
      var i, j :| 0 <= i < j < n - 1 && times[i] == x && x + WINDOW <= times[j];
      assert times[n - 1] >= x + WINDOW || times[n - 1] + WINDOW <= x;
    }
    NoneInside(s, |s|, t);
  }

  lemma StaleIsOutside(kept: seq<int>, now: int, t: int)
    requires t - WINDOW < now <= t
    ensures InWindow(StaleTo(kept, |kept|, now - WINDOW), t) == 0
  {
    var stale := StaleTo(kept, |kept|, now - WINDOW);
    FilterElements(kept, |kept|, now - WINDOW);
    NoneInside(stale, |stale|, t);
  }

  // ----- a clock that comes back -----

  lemma RecentOne(x: int, windowStart: int)
    ensures Recent([x], windowStart) == if x > windowStart then [x] else []
  {
    assert FilterTo([x], 0, windowStart) == [];
  }

  lemma TwoAtOnce(a: int)
    ensures Remember(Memory([], []), a, 2) == Memory([a], [a])
    ensures Remember(Memory([a], [a]), a, 2) == Memory([a, a], [a, a])
  {
    RecentOne(a, a - WINDOW);
  }

  lemma ThenForgotten(a: int, b: int)
    requires a + WINDOW <= b
    ensures Remember(Memory([a, a], [a, a]), b, 2) == Memory([a, a, b], [b])
  {
    RecentOne(a, b - WINDOW);
    RecentSnoc([a], a, b - WINDOW);
    assert [a] + [a] == [a, a];
    assert Recent([a, a], b - WINDOW) == [];
  }

  lemma ThenAccepted(a: int, b: int, c: int)
    requires c - WINDOW < b
    ensures Remember(Memory([a, a, b], [b]), c, 2) == Memory([a, a, b, c], [b, c])
  {
    RecentOne(b, c - WINDOW);
  }

  /** Two requests at `a`, one after the clock is a full second past `a`, and one when it is back within a second of `a`:
      three of them lie in one second and pass a limit of two. */
  lemma ClockComingBack(a: int, b: int, c: int)
    requires a + WINDOW <= b && c - WINDOW < a < c + WINDOW
    ensures InWindow(Forgetful([a, a, b, c], 4, 2).accepted, if a < c then c else a) == 3
  {
    TwoAtOnce(a);
    ThenForgotten(a, b);
    ThenAccepted(a, b, c);
    FourSteps([a, a, b, c], 2);
    ThreeInside(a, b, c, if a < c then c else a);
  }

  lemma FourSteps(times: seq<int>, max: nat)
    requires |times| == 4
    ensures Forgetful(times, 2, max) == Remember(Remember(Memory([], []), times[0], max), times[1], max)
    ensures Forgetful(times, 4, max) == Remember(Remember(Forgetful(times, 2, max), times[2], max), times[3], max)
  {
    assert Forgetful(times, 1, max) == Remember(Forgetful(times, 0, max), times[0], max);
    assert Forgetful(times, 2, max) == Remember(Forgetful(times, 1, max), times[1], max);
    assert Forgetful(times, 3, max) == Remember(Forgetful(times, 2, max), times[2], max);
  }

  lemma ThreeInside(a: int, b: int, c: int, t: int)
    requires t - WINDOW < a <= t && t - WINDOW < c <= t && b > t
    ensures InWindow([a, a, b, c], t) == 3
  {
    var log := [a, a, b, c];
    assert CountTo(log, 1, t) == 1;
    assert CountTo(log, 2, t) == 2;
    assert CountTo(log, 3, t) == 2;
  }

  // ----- which clocks keep the limit -----

  /** A run under a clock with these readings: any number of requests at each of them, in order. */
  ghost predicate Drawn(run: seq<int>, readings: seq<int>, at: seq<nat>) {
    && |at| == |run|
    && (forall i, j :: 0 <= i < j < |at| ==> at[i] <= at[j])
    && (forall i :: 0 <= i < |at| ==> at[i] < |readings| && run[i] == readings[at[i]])
  }

  ghost predicate LimitHolds(run: seq<int>, max: nat, t: int) {
    InWindow(Forgetful(run, |run|, max).accepted, t) <= max
  }

  /** A clock keeps every limit, whatever requests come at its readings, if and only if it never comes back within a second
      of a reading that it had been a full second past. */
  lemma LimitHoldsExactlyWhen(readings: seq<int>)
    ensures (forall run, at, max, t :: Drawn(run, readings, at) ==> LimitHolds(run, max, t)) <==> NoReturn(readings)
  {
    if NoReturn(readings) {
      forall run, at, max, t | Drawn(run, readings, at) ensures LimitHolds(run, max, t) {
        WindowNeverOverflows(run, |run|, max, t);
      }
    } else {
      var i, j, k :| 0 <= i < j < k < |readings| && readings[i] + WINDOW <= readings[j]
        && readings[k] < readings[i] + WINDOW && readings[i] < readings[k] + WINDOW;
      BreakingRun(readings, i, j, k);
    }
  }

  lemma BreakingRun(readings: seq<int>, i: nat, j: nat, k: nat)
    requires i < j < k < |readings| && readings[i] + WINDOW <= readings[j]
    requires readings[k] < readings[i] + WINDOW && readings[i] < readings[k] + WINDOW
    ensures exists run, at, max, t :: Drawn(run, readings, at) && !LimitHolds(run, max, t)
  {
    var a, b, c := readings[i], readings[j], readings[k];
    var run, at: seq<nat>, max: nat := [a, a, b, c], [i, i, j, k], 2;
    ClockComingBack(a, b, c);
    assert Drawn(run, readings, at);
    assert !LimitHolds(run, max, if a < c then c else a);
  }
}
