/**
 * The laws of the backoff: locks double up to the maximum, exactly how many
 * attempts fit into a window, and what success and pruning do
 * (crates/nopass-api/src/db/throttle.rs, crates/nopass-api/src/routes/auth.rs).
 */
module ThrottleLaws {
  import opened Wrappers
  import opened Arithmetic
  import opened Throttle
  import opened ThrottleRate

  // ── Doubling ───────────────────────────────────────────────────────────────

  /** Up to `free - 1` failures there is no lock; the first lock is the base, or the maximum if that is less. */
  lemma FirstLock(p: Policy, failures: int)
    requires p.Valid()
    ensures failures < p.free <==> LockSecs(p, failures).None?
    ensures LockSecs(p, p.free) == Some(Min(p.baseSecs, p.maxSecs))
  {
    assert Pow(2, 0) == 1;
  }

  lemma LockValue(p: Policy, failures: int)
    requires p.Valid() && failures >= p.free
    ensures LockSecs(p, failures) == Some(Min(p.baseSecs * Pow(2, Min(failures - p.free, 30)), p.maxSecs))
    ensures 1 <= LockSecs(p, failures).value <= p.maxSecs
  {
    PowersOfTwo(Min(failures - p.free, 30));
    MulAtLeastOne(p.baseSecs, Pow(2, Min(failures - p.free, 30)));
  }

  /** Each further failure doubles the lock, up to the maximum: exactly while fewer than 30 doublings were made or the maximum is reached. */
  lemma LocksDouble(p: Policy, failures: int)
    requires p.Valid() && failures >= p.free
    ensures LockSecs(p, failures).Some? && LockSecs(p, failures + 1).Some?
    ensures LockSecs(p, failures + 1).value == Min(2 * LockSecs(p, failures).value, p.maxSecs) <==>
            failures - p.free < 30 || LockSecs(p, failures).value == p.maxSecs
    ensures failures - p.free >= 30 ==> LockSecs(p, failures + 1) == LockSecs(p, failures)
  {
    LockValue(p, failures);
    LockValue(p, failures + 1);
    var over := failures - p.free;
    if over < 30 {
      DoubledProduct(p.baseSecs, over);
    }
    hide LockSecs;
  }

  lemma DoubledProduct(a: int, n: nat)
    ensures a * Pow(2, n + 1) == 2 * (a * Pow(2, n))
  {
    assert Pow(2, n + 1) == 2 * Pow(2, n);
  }

  lemma LockStep(p: Policy, failures: int)
    requires p.Valid() && failures >= p.free
    ensures LockSecs(p, failures).Some? && LockSecs(p, failures + 1).Some?
    ensures LockSecs(p, failures).value <= LockSecs(p, failures + 1).value
  {
    LocksDouble(p, failures);
    LockValue(p, failures);
    hide LockSecs;
  }

  /** So locks never get shorter. */
  lemma {:induction false} LocksGrow(p: Policy, a: int, b: int)
    requires p.Valid() && p.free <= a <= b
    ensures LockSecs(p, a).Some? && LockSecs(p, b).Some? && LockSecs(p, a).value <= LockSecs(p, b).value
    decreases b - a
  {
    LockValue(p, a);
    hide LockSecs;
    if a < b {
      LocksGrow(p, a, b - 1);
      LockStep(p, b - 1);
    }
  }

  // ── How many attempts fit ──────────────────────────────────────────────────

  /** The first `k` locks, one after the other. */
  function LockSum(p: Policy, k: nat): int
    requires p.Valid()
  {
    if k == 0 then 0
    else
      LockValue(p, p.free + k - 1);
      LockSum(p, k - 1) + LockSecs(p, p.free + k - 1).value
  }

  lemma {:induction false} LockSumGrows(p: Policy, a: nat, b: nat)
    requires p.Valid() && a <= b
    ensures 0 <= LockSum(p, a) <= LockSum(p, b)
    decreases b
  {
    if a < b {
      LockSumGrows(p, a, b - 1);
      LockValue(p, p.free + b - 1);
    } else if b > 0 {
      LockSumGrows(p, b - 1, b - 1);
      LockValue(p, p.free + b - 1);
    }
  }

  /** The attempt `m` places on comes at least the first `m + 1 - free` locks later. */
  lemma {:induction false} SharpSpacing(passed: seq<Passed>, i: nat, m: nat, p: Policy)
    requires p.Valid() && i + m < |passed| && m + 1 >= p.free
    requires forall k :: 0 <= k < |passed| - 1 ==> FollowsAt(passed, k, p)
    requires forall k :: 0 <= k < |passed| ==> passed[k].failures >= 1
    requires passed[i + m].at - passed[i].at <= DECAY_SECS
    ensures passed[i + m].at - passed[i].at >= LockSum(p, m + 1 - p.free)
    decreases m
  {
    CountsNonDecreasing(passed, i, m, p);
    if m + 1 > p.free {
      assert FollowsAt(passed, i + m - 1, p);
      CountsNonDecreasing(passed, i, m - 1, p);
      CountsRise(passed, i, m - 1, p);
      SharpSpacing(passed, i, m - 1, p);
      LocksGrow(p, m, passed[i + m - 1].failures);
      hide LockSecs;
    }
  }

  /** When attempt number `i`, counted from 0, is made by someone who waits out every lock and no longer. */
  function PatientAt(p: Policy, i: nat): int
    requires p.Valid()
  {
    if i + 1 <= p.free then 0 else LockSum(p, i + 1 - p.free)
  }

  function Patient(p: Policy, n: nat): (events: seq<Event>)
    requires p.Valid()
    ensures |events| == n
  {
    if n == 0 then [] else Patient(p, n - 1) + [Try(PatientAt(p, n - 1))]
  }

  lemma {:induction false} PatientInOrder(p: Policy, n: nat)
    requires p.Valid()
    ensures InOrder(Patient(p, n))
    ensures forall i :: 0 <= i < n ==> Patient(p, n)[i] == Try(PatientAt(p, i))
    ensures forall i, j :: 0 <= i <= j < n ==> PatientAt(p, i) <= PatientAt(p, j)
  {
    if n > 0 {
      PatientInOrder(p, n - 1);
      forall i: nat | i < n ensures PatientAt(p, i) <= PatientAt(p, n - 1) {
        PatientStepsOn(p, i, n - 1);
      }
      hide PatientAt, LockSum;
    }
  }

  lemma PatientStepsOn(p: Policy, i: nat, j: nat)
    requires p.Valid() && i <= j
    ensures PatientAt(p, i) <= PatientAt(p, j)
  {
    if i + 1 > p.free {
      LockSumGrows(p, i + 1 - p.free, j + 1 - p.free);
    } else if j + 1 > p.free {
      LockSumGrows(p, 0, j + 1 - p.free);
    }
  }

  /** The row after the patient's attempt `n`, counted from 1. */
  function PatientRow(p: Policy, n: nat): Row
    requires p.Valid() && n > 0
  {
    var at, lock := PatientAt(p, n - 1), LockSecs(p, n);
    Row(n, if lock.Some? then Some(at + lock.value) else None, at)
  }

  /** Patience pays: every one of the attempts is let through. */
  lemma {:induction false} PatientPasses(p: Policy, n: nat)
    requires p.Valid() && p.maxSecs <= DECAY_SECS
    ensures var (passed, row) := Trace(None, Patient(p, n), p);
            && |passed| == n && (forall i :: 0 <= i < n ==> passed[i].at == PatientAt(p, i))
            && row == if n == 0 then None else Some(PatientRow(p, n))
  {
    hide Attempted, LockSecs, PatientAt, PatientRow, LockSum;
    if n > 0 {
      PatientPasses(p, n - 1);
      var events := Patient(p, n);
      assert events[..n - 1] == Patient(p, n - 1) && events[n - 1] == Try(PatientAt(p, n - 1));
      PatientAttempt(p, n);
    }
  }

  lemma PatientAttempt(p: Policy, n: nat)
    requires p.Valid() && p.maxSecs <= DECAY_SECS && n > 0
    ensures Attempted(if n == 1 then None else Some(PatientRow(p, n - 1)), p, PatientAt(p, n - 1)) == (Allowed(n), PatientRow(p, n))
  {
    if n > 1 {
      FirstLock(p, n - 1);
      if n - 1 >= p.free {
        LockValue(p, n - 1);
        assert PatientAt(p, n - 1) == PatientAt(p, n - 2) + LockSecs(p, n - 1).value;
      }
    }
  }

  /** `n` attempts of some schedule go through within the window. */
  ghost predicate FitInto(p: Policy, n: nat, window: nat) {
    exists events, i: nat, j: nat :: FitAt(p, n, window, events, i, j)
  }

  ghost predicate FitAt(p: Policy, n: nat, window: nat, events: seq<Event>, i: nat, j: nat) {
    var passed := Trace(None, events, p).0;
    InOrder(events) && i <= j < |passed| && j - i + 1 == n && passed[j].at - passed[i].at <= window
  }

  /** Exactly as many attempts fit into a window as there is time for the locks between them. */
  lemma FitIff(p: Policy, n: nat, window: nat)
    requires p.Valid() && p.maxSecs <= DECAY_SECS && 1 <= n && window <= DECAY_SECS
    ensures FitInto(p, n, window) <==> n <= p.free || LockSum(p, n - p.free) <= window
  {
    if FitInto(p, n, window) && n > p.free {
      var events, i: nat, j: nat :| FitAt(p, n, window, events, i, j);
      TraceFollows(events, p);
      hide Trace, FollowsAt;
      SharpSpacing(Trace(None, events, p).0, i, j - i, p);
    }
    if n <= p.free || LockSum(p, n - p.free) <= window {
      PatientPasses(p, n);
      PatientInOrder(p, n);
      hide Trace, LockSum;
      assert FitAt(p, n, window, Patient(p, n), 0, n - 1);
    }
  }

  /** In particular free + D + window/max attempts (`q` being the quotient) fit exactly when the locks of D + window/max of them do. */
  lemma BoundIsReachedIff(p: Policy, window: nat, q: nat)
    requires p.Valid() && p.maxSecs <= DECAY_SECS && window <= DECAY_SECS && q == window / p.maxSecs
    ensures var n := Doublings(p.baseSecs, p.maxSecs) + q;
            FitInto(p, p.free + n, window) <==> LockSum(p, n) <= window
  {
    hide FitInto, LockSum, Doublings;
    FitsBeyondFree(p, Doublings(p.baseSecs, p.maxSecs) + q, window);
  }

  lemma FitsBeyondFree(p: Policy, n: nat, window: nat)
    requires p.Valid() && p.maxSecs <= DECAY_SECS && window <= DECAY_SECS
    ensures FitInto(p, p.free + n, window) <==> LockSum(p, n) <= window
  {
    hide FitInto, LockSum;
    FitIff(p, p.free + n, window);
    EmptySum(p);
  }

  lemma EmptySum(p: Policy)
    requires p.Valid()
    ensures LockSum(p, 0) == 0
  {
  }

  lemma {:induction false} SumBeyond(p: Policy, k: nat, q: nat, sum: int)
    requires p.Valid() && LockSum(p, k) == sum && LockSecs(p, p.free + k) == Some(p.maxSecs)
    ensures LockSum(p, k + q) == sum + q * p.maxSecs
    decreases q
  {
    if q > 0 {
      SumBeyond(p, k, q - 1, sum);
      LocksGrow(p, p.free + k, p.free + k + q - 1);
      LockValue(p, p.free + k + q - 1);
      assert q * p.maxSecs == (q - 1) * p.maxSecs + p.maxSecs;
      assert LockSum(p, k + q) == LockSum(p, k + q - 1) + LockSecs(p, p.free + (k + q) - 1).value;
    }
  }

  /** The locks the two deployed policies hand out, one by one. */
  lemma DeployedLocks()
    ensures PER_NETWORK.Valid() && PER_ACCOUNT.Valid()
    ensures forall i :: 0 <= i < 6 ==> LockSecs(PER_NETWORK, 10 + i) == Some([30, 60, 120, 240, 480, 900][i])
    ensures forall i :: 0 <= i < 7 ==> LockSecs(PER_ACCOUNT, 100 + i) == Some([60, 120, 240, 480, 960, 1920, 3600][i])
    ensures LockSum(PER_NETWORK, 5) == 930 && LockSum(PER_ACCOUNT, 6) == 3780
  {
    NetworkLocks();
    AccountLocks();
  }

  lemma NetworkLocks()
    ensures forall i :: 0 <= i < 6 ==> LockSecs(PER_NETWORK, 10 + i) == Some([30, 60, 120, 240, 480, 900][i])
    ensures LockSum(PER_NETWORK, 5) == 930
  {
    assert Pow(2, 0) == 1 && Pow(2, 1) == 2 && Pow(2, 2) == 4 && Pow(2, 3) == 8 && Pow(2, 4) == 16 && Pow(2, 5) == 32;
    assert LockSum(PER_NETWORK, 3) == 210;
  }

  lemma AccountLocks()
    ensures forall i :: 0 <= i < 7 ==> LockSecs(PER_ACCOUNT, 100 + i) == Some([60, 120, 240, 480, 960, 1920, 3600][i])
    ensures LockSum(PER_ACCOUNT, 6) == 3780
  {
    assert Pow(2, 0) == 1 && Pow(2, 1) == 2 && Pow(2, 2) == 4 && Pow(2, 3) == 8 && Pow(2, 4) == 16 && Pow(2, 5) == 32 && Pow(2, 6) == 64;
    assert LockSum(PER_ACCOUNT, 3) == 420;
  }

  /** Neither deployed policy ever reaches the bound: the doubling locks together outlast one full lock. One attempt fewer is reached. */
  lemma DeployedBoundIsOneTooMany(window: nat)
    requires window <= DECAY_SECS
    ensures !FitInto(PER_NETWORK, 15 + window / 900, window) && !FitInto(PER_ACCOUNT, 106 + window / 3600, window)
    ensures 930 <= window && window % 900 >= 30 ==> FitInto(PER_NETWORK, 14 + window / 900, window)
    ensures 3780 <= window && window % 3600 >= 180 ==> FitInto(PER_ACCOUNT, 105 + window / 3600, window)
  {
    DeployedLocks();
    var q, r := window / 900, window / 3600;
    SumBeyond(PER_NETWORK, 5, q, 930);
    SumBeyond(PER_ACCOUNT, 6, r, 3780);
    FitIff(PER_NETWORK, 15 + q, window);
    FitIff(PER_ACCOUNT, 106 + r, window);
    hide FitInto, LockSum, LockSecs;
    if 930 <= window && window % 900 >= 30 {
      SumBeyond(PER_NETWORK, 5, q - 1, 930);
      FitIff(PER_NETWORK, 14 + q, window);
    }
    if 3780 <= window && window % 3600 >= 180 {
      SumBeyond(PER_ACCOUNT, 6, r - 1, 3780);
      FitIff(PER_ACCOUNT, 105 + r, window);
    }
  }

  // ── Success and pruning ────────────────────────────────────────────────────

  /** After a success the next start from that network counts as the first, at any time, and the network is trusted for 90 days and not after. */
  lemma SuccessClears(t: Tables, account: string, network: string, now: int, later: int)
    ensures var t' := Succeeded(t, account, network, now);
            && ThrottledAttempt(t', account, network, later).0 == Allowed(1)
            && (Trusted(t', account, network, later) <==> later < now + 90 * 24 * 60 * 60)
            && RowOf(t', OfAccount(account)).None?
  {
  }

  /** Nothing else changes: other networks' counters, other accounts, other trust. */
  lemma SuccessIsLocal(t: Tables, account: string, network: string, now: int, k: Key, n: (string, string))
    ensures var t' := Succeeded(t, account, network, now);
            && (k != OfAccount(account) && k != OfNetwork(account, network) ==> RowOf(t', k) == RowOf(t, k))
            && (n != (account, network) ==> (n in t'.trusted <==> n in t.trusted) && (n in t.trusted ==> t'.trusted[n] == t.trusted[n]))
  {
  }

  /** A row goes exactly when it is more than a day old and its lock, if any, is over; and then it made no difference. */
  lemma PruneIsExactAndInvisible(row: Row, p: Policy, now: int, later: int)
    requires now <= later
    ensures Prunable(row, now) <==> now - row.updatedAt > DECAY_SECS && (row.lockedUntil.Some? ==> row.lockedUntil.value < now)
    ensures Prunable(row, now) ==> Attempted(Some(row), p, later) == Attempted(None, p, later)
  {
  }

  lemma PrunedRows(t: Tables, now: int, k: Key)
    ensures var t' := Pruned(t, now);
            && RowOf(t', k) == (if k in t.rows && Prunable(t.rows[k], now) then None else RowOf(t, k))
            && forall n :: n in t'.trusted <==> n in t.trusted && now - t.trusted[n] <= TRUSTED_NETWORK_TTL_SECS
  {
  }
}
