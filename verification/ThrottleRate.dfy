/**
 * How fast one throttle key lets attempts through, whatever the schedule
 * (crates/nopass-api/src/db/throttle.rs).
 */
module ThrottleRate {
  import opened Wrappers
  import opened Arithmetic
  import opened Throttle

  /** What happens to one key between two resets. */
  datatype Event = Try(at: int) | Prune(at: int)

  /** An attempt that went through, with the count it was recorded at. */
  datatype Passed = Passed(at: int, failures: int)

  function RowAfter(row: Option<Row>, e: Event, p: Policy): Option<Row> {
    match e
    case Try(now) => Some(Attempted(row, p, now).1)
    case Prune(now) => if row.Some? && Prunable(row.value, now) then None else row
  }

  /** The attempts let through, and the row at the end. */
  function Trace(row: Option<Row>, events: seq<Event>, p: Policy): (r: (seq<Passed>, Option<Row>)) {
    if events == [] then ([], row)
    else
      var e := events[|events| - 1];
      var (passed, last) := Trace(row, events[..|events| - 1], p);
      var passed' := if e.Try? && Attempted(last, p, e.at).0.Allowed?
                     then passed + [Passed(e.at, Attempted(last, p, e.at).0.failures)] else passed;
      (passed', RowAfter(last, e, p))
  }

  ghost predicate InOrder(events: seq<Event>) {
    forall i, j :: 0 <= i <= j < |events| ==> events[i].at <= events[j].at
  }

  /** `b` was let through right after `a`: a day apart and counted from one, or the count went up by one and a's lock ran out. */
  predicate Follows(a: Passed, b: Passed, p: Policy) {
    && a.at <= b.at
    && ((b.at - a.at > DECAY_SECS && b.failures == 1)
        || (b.failures == a.failures + 1 && (LockSecs(p, a.failures).Some? ==> b.at >= a.at + LockSecs(p, a.failures).value)))
  }

  predicate FollowsAt(passed: seq<Passed>, i: nat, p: Policy)
    requires i + 1 < |passed|
  {
    Follows(passed[i], passed[i + 1], p)
  }

  /** The row remembers the last attempt let through, unless it was pruned a day later. */
  predicate Remembers(row: Option<Row>, last: Passed, p: Policy, now: int) {
    match row
    case None => now - last.at > DECAY_SECS
    case Some(r) =>
      var lock := LockSecs(p, last.failures);
      && last.at <= now
      && r == Row(last.failures, if lock.Some? then Some(last.at + lock.value) else None, last.at)
  }

  lemma {:induction false} TraceFollows(events: seq<Event>, p: Policy)
    requires InOrder(events)
    ensures var (passed, row) := Trace(None, events, p);
            && (events == [] ==> passed == [] && row.None?)
            && (events != [] ==> Followed(passed, row, events[|events| - 1].at, p))
  {
    if events != [] {
      var n := |events| - 1;
      var before := events[..n];
      assert forall i :: 0 <= i < n ==> before[i] == events[i];
      TraceFollows(before, p);
      var (passed, row) := Trace(None, before, p);
      hide InOrder;
      StepFollows(passed, row, events[n], if n > 0 then events[n - 1].at else events[n].at, p);
    }
  }

  /** The attempts so far follow each other, and the row remembers the last one. */
  ghost predicate Followed(passed: seq<Passed>, row: Option<Row>, now: int, p: Policy) {
    && (forall i :: 0 <= i < |passed| - 1 ==> FollowsAt(passed, i, p))
    && (forall i :: 0 <= i < |passed| ==> passed[i].failures >= 1)
    && (passed == [] ==> row.None?)
    && (passed != [] ==> passed[0].failures == 1 && Remembers(row, passed[|passed| - 1], p, now))
  }

  lemma StepFollows(passed: seq<Passed>, row: Option<Row>, e: Event, before: int, p: Policy)
    requires Followed(passed, row, before, p) && before <= e.at
    ensures var passed' := if e.Try? && Attempted(row, p, e.at).0.Allowed?
                           then passed + [Passed(e.at, Attempted(row, p, e.at).0.failures)] else passed;
            Followed(passed', RowAfter(row, e, p), e.at, p)
  {
    if e.Try? && Attempted(row, p, e.at).0.Allowed? {
      var next := Passed(e.at, Attempted(row, p, e.at).0.failures);
      var passed' := passed + [next];
      assert passed != [] ==> Follows(passed[|passed| - 1], next, p);
      hide Follows, Attempted, Remembers;
      forall i | 0 <= i < |passed'| - 1 ensures FollowsAt(passed', i, p) {
        assert i < |passed| - 1 ==> FollowsAt(passed, i, p);
      }
    }
  }

  // ── Arithmetic of the backoff ──────────────────────────────────────────────

  /** Least D with base * 2^D >= max. */
  function Doublings(baseSecs: int, maxSecs: int): (d: nat)
    requires baseSecs >= 1
    decreases maxSecs - baseSecs
  {
    if baseSecs >= maxSecs then 0 else 1 + Doublings(2 * baseSecs, maxSecs)
  }

  lemma {:induction false} DoublingsIsLeast(baseSecs: int, maxSecs: int, d: nat)
    requires baseSecs >= 1
    ensures baseSecs * Pow(2, d) >= maxSecs <==> d >= Doublings(baseSecs, maxSecs)
    decreases d
  {
    if d == 0 {
      assert Pow(2, 0) == 1;
    } else {
      DoublingsIsLeast(2 * baseSecs, maxSecs, d - 1);
      assert baseSecs * Pow(2, d) == (2 * baseSecs) * Pow(2, d - 1);
      PowPositive(2, d);
      MulAtLeast(baseSecs, Pow(2, d));
    }
  }

  /** From `free + D` failures on, a lock lasts the full `max` seconds, or longer than any day. */
  lemma LongLock(p: Policy, failures: int)
    requires p.Valid()
    requires failures >= p.free + Doublings(p.baseSecs, p.maxSecs)
    ensures LockSecs(p, failures).Some?
    ensures LockSecs(p, failures).value >= Min(p.maxSecs, DECAY_SECS + 1)
  {
    var over := failures - p.free;
    var d := Doublings(p.baseSecs, p.maxSecs);
    PowersOfTwo(Min(over, 30));
    if over <= 30 {
      DoublingsIsLeast(p.baseSecs, p.maxSecs, over);
    } else {
      assert Min(over, 30) == 30 && Pow(2, 0) == 1;
      PowersOfTwo(30);
      MulAtLeast(Pow(2, 30), p.baseSecs);
    }
  }

  lemma {:induction false} CountsRise(passed: seq<Passed>, i: nat, m: nat, p: Policy)
    requires i + m < |passed|
    requires forall k :: 0 <= k < |passed| - 1 ==> FollowsAt(passed, k, p)
    requires forall k :: 0 <= k < |passed| ==> passed[k].failures >= 1
    requires passed[i + m].at - passed[i].at <= DECAY_SECS
    ensures passed[i + m].failures >= m + 1
    ensures passed[i + m].at >= passed[i].at
    decreases m
  {
    if m > 0 {
      assert FollowsAt(passed, i + m - 1, p);
      CountsNonDecreasing(passed, i, m - 1, p);
      CountsRise(passed, i, m - 1, p);
    }
  }

  lemma {:induction false} CountsNonDecreasing(passed: seq<Passed>, i: nat, m: nat, p: Policy)
    requires i + m < |passed|
    requires forall k :: 0 <= k < |passed| - 1 ==> FollowsAt(passed, k, p)
    ensures passed[i + m].at >= passed[i].at
  {
    if m > 0 {
      assert FollowsAt(passed, i + m - 1, p);
      CountsNonDecreasing(passed, i, m - 1, p);
    }
  }

  function Times(n: int, m: int): int {
    n * m
  }

  /** Attempt number n > free + D of a window comes at least (n - free - D) * max after the first. */
  lemma {:induction false} LateAttempts(passed: seq<Passed>, i: nat, m: nat, p: Policy)
    requires p.Valid()
    requires i + m < |passed|
    requires forall k :: 0 <= k < |passed| - 1 ==> FollowsAt(passed, k, p)
    requires forall k :: 0 <= k < |passed| ==> passed[k].failures >= 1
    requires passed[i + m].at - passed[i].at <= DECAY_SECS
    requires m >= p.free + Doublings(p.baseSecs, p.maxSecs)
    ensures passed[i + m].at - passed[i].at >= Times(m + 1 - p.free - Doublings(p.baseSecs, p.maxSecs), p.maxSecs)
    decreases m
  {
    var d := Doublings(p.baseSecs, p.maxSecs);
    assert FollowsAt(passed, i + m - 1, p);
    CountsNonDecreasing(passed, i, m - 1, p);
    CountsRise(passed, i, m - 1, p);
    LongLock(p, passed[i + m - 1].failures);
    if m > p.free + d {
      LateAttempts(passed, i, m - 1, p);
    }
    var n := m - p.free - d;
    assert (n + 1) * p.maxSecs == n * p.maxSecs + p.maxSecs;
  }

  /**
   * For every schedule of attempts and prunings of one key without a reset, a
   * window of at most a day holds at most free + D + window/max attempts.
   */
  lemma RateBound(events: seq<Event>, p: Policy, i: nat, j: nat, window: nat)
    requires p.Valid()
    requires InOrder(events)
    requires i <= j < |Trace(None, events, p).0|
    requires window <= DECAY_SECS
    requires Trace(None, events, p).0[j].at - Trace(None, events, p).0[i].at <= window
    ensures j - i + 1 <= p.free + Doublings(p.baseSecs, p.maxSecs) + window / p.maxSecs
  {
    TraceFollows(events, p);
    hide Trace, FollowsAt, Doublings, InOrder, Remembers;
    SpacedAttempts(Trace(None, events, p).0, i, j, p, window);
  }

  /** The bound for any sequence of attempts that follow each other. */
  lemma SpacedAttempts(passed: seq<Passed>, i: nat, j: nat, p: Policy, window: nat)
    requires p.Valid() && i <= j < |passed| && passed[j].at - passed[i].at <= window <= DECAY_SECS
    requires forall k :: 0 <= k < |passed| - 1 ==> FollowsAt(passed, k, p)
    requires forall k :: 0 <= k < |passed| ==> passed[k].failures >= 1
    ensures j - i + 1 <= p.free + Doublings(p.baseSecs, p.maxSecs) + window / p.maxSecs
  {
    hide FollowsAt, Times, Doublings;
    var d := Doublings(p.baseSecs, p.maxSecs);
    if j - i >= p.free + d {
      LateAttempts(passed, i, j - i, p);
      QuotientBound(j - i + 1 - p.free - d, p.maxSecs, window);
    }
  }

  lemma {:induction false} TimesMonotone(a: nat, b: nat, m: nat)
    requires a <= b
    ensures a * m <= b * m
    decreases b
  {
    if a < b {
      TimesMonotone(a, b - 1, m);
      assert b * m == (b - 1) * m + m;
    }
  }

  lemma QuotientBound(n: nat, m: int, w: nat)
    requires m >= 1 && Times(n, m) <= w
    ensures n <= w / m
  {
    var q := w / m;
    assert w < (q + 1) * m;
    if n > q {
      TimesMonotone(q + 1, n, m);
    }
  }

  /** The two policies in numbers: per day at most 10 + 5 + 96 and 100 + 6 + 24 attempts. */
  lemma DeployedBounds()
    ensures PER_NETWORK.Valid() && PER_NETWORK.free + Doublings(30, 900) + DECAY_SECS / 900 == 111
    ensures PER_ACCOUNT.Valid() && PER_ACCOUNT.free + Doublings(60, 3600) + DECAY_SECS / 3600 == 130
  {
  }

  // ── The counter itself ─────────────────────────────────────────────────────

  /** Every failure counted beyond free + D has cost a full lock since the first attempt. */
  lemma {:induction false} CounterNeedsTime(passed: seq<Passed>, j: nat, p: Policy)
    requires p.Valid() && j < |passed| && passed[0].failures == 1
    requires forall k :: 0 <= k < |passed| - 1 ==> FollowsAt(passed, k, p)
    ensures passed[j].at - passed[0].at >= 0
    ensures passed[j].at - passed[0].at >=
            Times(passed[j].failures - p.free - Doublings(p.baseSecs, p.maxSecs), Min(p.maxSecs, DECAY_SECS + 1))
  {
    hide Times, LockSecs, Doublings;
    var d, lock := Doublings(p.baseSecs, p.maxSecs), Min(p.maxSecs, DECAY_SECS + 1);
    var over := passed[j].failures - p.free - d;
    if j > 0 {
      CounterNeedsTime(passed, j - 1, p);
      assert FollowsAt(passed, j - 1, p);
    }
    if over <= 0 {
      NotPositive(over, lock);
    } else {
      var f := passed[j - 1].failures;
      LongLock(p, f);
      OneMoreLock(f - p.free - d, lock);
    }
  }

  lemma OneMoreLock(n: int, m: int)
    ensures Times(n + 1, m) == Times(n, m) + m
  {
  }

  lemma NotPositive(n: int, m: int)
    requires n <= 0 && m >= 0
    ensures Times(n, m) <= 0
  {
  }

  /** Under either deployed policy no counter outgrows an i32 within sixty thousand years of attempts. */
  lemma CounterFitsI32(events: seq<Event>, p: Policy, j: nat)
    requires p == PER_NETWORK || p == PER_ACCOUNT
    requires InOrder(events) && j < |Trace(None, events, p).0|
    requires Trace(None, events, p).0[j].at - Trace(None, events, p).0[0].at <= 60_000 * 365 * DECAY_SECS
    ensures Trace(None, events, p).0[j].failures <= I32_MAX
  {
    TraceFollows(events, p);
    DeployedBounds();
    var passed := Trace(None, events, p).0;
    hide Trace, FollowsAt, Remembers, InOrder;
    CounterNeedsTime(passed, j, p);
  }
}
