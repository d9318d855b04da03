/** The login limiter of one Global account: a sliding day with a cap, and a minimum interval. */
module LoginLimiter {
  import opened Common

  /** Instants and durations in nanoseconds. */
  const SECOND: nat := 1_000_000_000
  const DAY: nat := 86_400 * SECOND

  datatype Config = Config(intervalSeconds: nat, maxPerDay: nat)

  ghost predicate ConfigOk(c: Config) {
    c.intervalSeconds <= 86_400 && 1 <= c.maxPerDay <= 100
  }

  function Interval(c: Config): nat {
    c.intervalSeconds * SECOND
  }

  // ---- What is allowed, in terms of every attempt ever made ----

  ghost predicate Sorted(log: seq<nat>) {
    forall i, j :: 0 <= i < j < |log| ==> log[i] <= log[j]
  }

  /** The attempts of the day that ends at `t`. */
  ghost function Within(log: seq<nat>, t: nat): set<nat> {
    set i: nat | i < |log| && log[i] + DAY > t
  }

  ghost predicate Allowed(log: seq<nat>, c: Config, t: nat) {
    && |Within(log, t)| < c.maxPerDay
    && (log != [] ==> log[|log| - 1] + Interval(c) <= t)
  }

  /** Attempts keep their distance, and any `maxPerDay + 1` of them span a day. */
  ghost predicate Spaced(log: seq<nat>, c: Config) {
    && (forall i, j :: 0 <= i < j < |log| ==> log[i] + Interval(c) <= log[j])
    && (forall i, j :: 0 <= i < j < |log| && j - i >= c.maxPerDay ==> log[i] + DAY <= log[j])
  }

  /** The indices from `lo` to below `hi`. */
  ghost function Range(lo: nat, hi: nat): (r: set<nat>)
    ensures forall i :: i in r <==> lo <= i < hi
  {
    if lo >= hi then {} else Range(lo, hi - 1) + {hi - 1}
  }

  lemma {:induction false} RangeSize(lo: nat, hi: nat)
    requires lo <= hi
    ensures |Range(lo, hi)| == hi - lo
    decreases hi
  {
    if lo < hi {
      RangeSize(lo, hi - 1);
    }
  }

  lemma WithinAtMost(log: seq<nat>, t: nat, n: nat)
    requires n <= |log| && forall i :: 0 <= i < |log| - n ==> log[i] + DAY <= t
    ensures |Within(log, t)| <= n
  {
    hide Range;
    RangeSize(|log| - n, |log|);
    SubsetSize(Within(log, t), Range(|log| - n, |log|));
  }

  lemma WithinAtLeast(log: seq<nat>, t: nat, n: nat)
    requires n <= |log| && forall i :: |log| - n <= i < |log| ==> log[i] + DAY > t
    ensures |Within(log, t)| >= n
  {
    hide Range;
    RangeSize(|log| - n, |log|);
    SubsetSize(Range(|log| - n, |log|), Within(log, t));
  }

  /** Any half-open window of a day holds at most the daily maximum. */
  lemma DailyCap(log: seq<nat>, c: Config, start: nat)
    requires ConfigOk(c) && Spaced(log, c)
    ensures |set i: nat | i < |log| && start <= log[i] < start + 86_400_000_000_000| <= c.maxPerDay
  {
    hide Range;
    var window := set i: nat | i < |log| && start <= log[i] < start + DAY;
    if window != {} {
      var first := Least(window);
      assert forall i :: i in window ==> i in Range(first, first + c.maxPerDay);
      RangeSize(first, first + c.maxPerDay);
      SubsetSize(window, Range(first, first + c.maxPerDay));
    }
  }

  /** An allowed attempt keeps the spacing. */
  lemma AllowedKeepsSpacing(log: seq<nat>, c: Config, t: nat)
    requires ConfigOk(c) && Spaced(log, c) && Allowed(log, c, t)
    ensures Spaced(log + [t], c)
  {
    hide Within, Interval;
    var next := log + [t];
    forall i | 0 <= i < |log| ensures log[i] + Interval(c) <= t && (i + c.maxPerDay <= |log| ==> log[i] + DAY <= t) {
      assert i < |log| - 1 ==> log[i] + Interval(c) <= log[|log| - 1];
      if i + c.maxPerDay <= |log| && log[i] + DAY > t {
        assert forall j :: i < j < |log| ==> log[i] <= log[j];
        WithinAtLeast(log, t, |log| - i);
        assert false;
      }
    }
  }

  /** What is allowed, in nanoseconds: fewer than the maximum in the day before, and the interval since the
      last. */
  lemma AllowedLaw(log: seq<nat>, c: Config, t: nat)
    ensures Allowed(log, c, t) <==>
      && |set i: nat | i < |log| && log[i] + 86_400_000_000_000 > t| < c.maxPerDay
      && (log != [] ==> log[|log| - 1] + c.intervalSeconds * 1_000_000_000 <= t)
  {
    assert Within(log, t) == set i: nat | i < |log| && log[i] + 86_400_000_000_000 > t;
  }

  // ---- The deques ----

  /** Drop from the front what is a day old; an instant in the future counts as new. */
  function Pruned(times: seq<nat>, now: nat): (rest: seq<nat>)
  {
    if times != [] && now >= times[0] && now - times[0] >= DAY then Pruned(times[1..], now) else times
  }

  lemma {:induction false} PrunedFacts(times: seq<nat>, now: nat)
    requires Sorted(times)
    ensures
      var rest := Pruned(times, now);
      && |rest| <= |times| && rest == times[|times| - |rest|..]
      && forall i :: 0 <= i < |times| ==> (times[i] + DAY > now <==> |times| - |rest| <= i)
  {
    if times != [] && now >= times[0] && now - times[0] >= DAY {
      PrunedFacts(times[1..], now);
      assert forall i :: 1 <= i < |times| ==> times[i] == times[1..][i - 1];
    }
  }

  method PopOld(times: seq<nat>, now: nat) returns (rest: seq<nat>)
    ensures rest == Pruned(times, now)
  {
    rest := times;
    while rest != [] && now >= rest[0] && now - rest[0] >= DAY
      invariant Pruned(rest, now) == Pruned(times, now)
    {
      rest := rest[1..];
    }
  }

  /** `attempts` is what is left of the log: only attempts that are a day old are missing. */
  ghost predicate Tail(log: seq<nat>, attempts: seq<nat>, clock: nat) {
    && |attempts| <= |log| && attempts == log[|log| - |attempts|..]
    && forall i :: 0 <= i < |log| - |attempts| ==> log[i] + DAY <= clock
  }

  /** It is exactly the attempts of the day that ends at `now`. */
  ghost predicate LastDay(log: seq<nat>, attempts: seq<nat>, now: nat) {
    && Tail(log, attempts, now) && |attempts| == |Within(log, now)|
    && forall i :: 0 <= i < |log| ==> (log[i] + DAY > now <==> |log| - |attempts| <= i)
  }

  class LoginState {
    var attempts: seq<nat>
    var concurrentDevice: seq<nat>
    /** Every attempt ever made, and the last instant the limiter has seen. */
    ghost var log: seq<nat>
    ghost var clock: nat

    ghost predicate Valid(c: Config)
      reads this
    {
      && ConfigOk(c) && Spaced(log, c)
      && (log != [] ==> log[|log| - 1] <= clock)
      && Tail(log, attempts, clock)
    }

    constructor (ghost c: Config)
      requires ConfigOk(c)
      ensures Valid(c) && log == [] && clock == 0
    {
      attempts, concurrentDevice, log, clock := [], [], [], 0;
    }

    method Prune(now: nat, ghost c: Config)
      requires Valid(c) && clock <= now
      modifies this
      ensures Valid(c) && log == old(log) && clock == now && LastDay(log, attempts, now)
      ensures attempts == Pruned(old(attempts), now) && concurrentDevice == Pruned(old(concurrentDevice), now)
    {
      hide Spaced, Tail, LastDay, Pruned;
      SpacedSorted(log, c);
      PruneKeeps(log, attempts, clock, now);
      attempts := PopOld(attempts, now);
      concurrentDevice := PopOld(concurrentDevice, now);
      clock := now;
    }

    /** Exactly the earliest instant at which an attempt is allowed, if that is not now. */
    method NextAllowed(now: nat, c: Config) returns (r: Option<nat>)
      requires Valid(c) && clock <= now
      modifies this
      ensures Valid(c) && log == old(log) && clock == now
      ensures r.None? <==> Allowed(log, c, now)
      ensures r.Some? ==> now < r.value && Allowed(log, c, r.value)
      ensures r.Some? ==> forall t :: now <= t < r.value ==> !Allowed(log, c, t)
    {
      hide Allowed, Spaced, Tail, LastDay, Pruned, Interval;
      Prune(now, c);
      var byInterval := None;
      if attempts != [] && attempts[|attempts| - 1] + Interval(c) > now {
        byInterval := Some(attempts[|attempts| - 1] + Interval(c));
      }
      var byCap := None;
      if |attempts| >= c.maxPerDay {
        byCap := Some(attempts[0] + DAY);
      }
      r := if byInterval.None? then byCap else if byCap.None? || byCap.value < byInterval.value then byInterval else byCap;
      Decision(log, attempts, c, now);
    }

    /** An attempt made at the instant it was checked for; others may have pruned at later instants since. */
    method Attempt(now: nat, ghost c: Config)
      requires Valid(c) && now <= clock && Allowed(log, c, now)
      modifies this
      ensures Valid(c) && log == old(log) + [now] && clock == old(clock) && concurrentDevice == old(concurrentDevice)
    {
      hide Allowed, Spaced;
      AllowedKeepsSpacing(log, c, now);
      attempts, log := attempts + [now], log + [now];
    }
  }

  /** The bound on the interval is needed: beyond a day, the attempt it counts from is forgotten first. */
  lemma LongIntervalForgotten()
    ensures Pruned([0], DAY) == [] && !Allowed([0], Config(86_401, 1), DAY)
  {}

  lemma SpacedSorted(log: seq<nat>, c: Config)
    requires Spaced(log, c)
    ensures Sorted(log)
  {}

  lemma PruneKeeps(log: seq<nat>, attempts: seq<nat>, clock: nat, now: nat)
    requires Sorted(log) && clock <= now && Tail(log, attempts, clock)
    ensures Tail(log, Pruned(attempts, now), now) && LastDay(log, Pruned(attempts, now), now)
  {
    hide Pruned, Within;
    var gone := |log| - |attempts|;
    assert forall i :: 0 <= i < |attempts| ==> attempts[i] == log[gone + i];
    PrunedFacts(attempts, now);
    var rest := Pruned(attempts, now);
    assert forall i :: gone <= i < |log| ==> log[i] == attempts[i - gone];
    WithinAtMost(log, now, |rest|);
    WithinAtLeast(log, now, |rest|);
  }

  /** The later of the two bounds is the first allowed instant. */
  lemma Decision(log: seq<nat>, attempts: seq<nat>, c: Config, now: nat)
    requires ConfigOk(c) && Spaced(log, c) && (log != [] ==> log[|log| - 1] <= now)
    requires LastDay(log, attempts, now)
    ensures
      var held := attempts != [] && attempts[|attempts| - 1] + Interval(c) > now;
      var full := |attempts| >= c.maxPerDay;
      var byInterval := if held then attempts[|attempts| - 1] + Interval(c) else 0;
      var byCap := if full then attempts[0] + DAY else 0;
      && (Allowed(log, c, now) <==> !held && !full)
      && (held || full ==>
            var t := if byInterval > byCap then byInterval else byCap;
            now < t && Allowed(log, c, t) && forall u :: now <= u < t ==> !Allowed(log, c, u))
  {
    hide Within, Interval;
    var n := |attempts|;
    assert Interval(c) <= DAY by { IntervalBound(c); }
    if n == 0 {
      WithinAtMost(log, now, 0);
      return;
    }
    var oldest, last := log[|log| - n], log[|log| - 1];
    assert attempts[0] == oldest && attempts[n - 1] == last;
    WithinAtMost(log, now, n);
    WithinAtLeast(log, now, n);
    if n > c.maxPerDay {
      assert false;
    }
    var held, full := last + Interval(c) > now, n >= c.maxPerDay;
    if held || full {
      var byInterval := if held then last + Interval(c) else 0;
      var byCap := if full then oldest + DAY else 0;
      var t := if byInterval > byCap then byInterval else byCap;
      WithinAtMost(log, t, if full then n - 1 else n);
      forall u | now <= u < t ensures !Allowed(log, c, u) {
        if full && u < oldest + DAY {
          assert forall i :: |log| - n <= i < |log| ==> oldest <= log[i];
          WithinAtLeast(log, u, n);
        }
      }
    }
  }

  lemma IntervalBound(c: Config)
    requires ConfigOk(c)
    ensures Interval(c) <= DAY
  {}
}
