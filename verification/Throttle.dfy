/**
 * Login throttling: timed counters with doubling backoff, decay, pruning and
 * trusted networks (crates/nopass-api/src/db/throttle.rs and the throttle
 * helpers of crates/nopass-api/src/routes/auth.rs). Times are whole seconds.
 */
module Throttle {
  import opened Wrappers
  import opened Arithmetic

  datatype Policy = Policy(free: int, baseSecs: int, maxSecs: int) {
    predicate Valid() {
      free >= 1 && 1 <= baseSecs && 1 <= maxSecs <= I64_MAX
    }
  }

  const PER_NETWORK := Policy(10, 30, 15 * 60)
  const PER_ACCOUNT := Policy(100, 60, 60 * 60)
  const DECAY_SECS := 24 * 60 * 60
  const TRUSTED_NETWORK_TTL_SECS := 90 * 24 * 60 * 60
  const I64_MAX := 0x7fff_ffff_ffff_ffff
  const I32_MAX := 0x7fff_ffff

  /** Counters are kept per account, and per account and client network. */
  datatype Key = OfAccount(account: string) | OfNetwork(account: string, network: string)

  datatype Row = Row(failures: int, lockedUntil: Option<int>, updatedAt: int)

  datatype Attempt = Allowed(failures: int) | Locked(retryAfterSecs: int)

  function Min(a: int, b: int): int {
    if a <= b then a else b
  }

  function SaturatingMul(a: int, b: int): int {
    Min(a * b, I64_MAX)
  }

  function LockSecs(p: Policy, failures: int): (secs: Option<int>) {
    var over := failures - p.free;
    if over < 0 then None
    else Some(Min(SaturatingMul(p.baseSecs, Pow(2, Min(over, 30))), p.maxSecs))
  }

  /** For every counter value an i32 can hold, the lock is a positive i64 of at most max seconds. */
  lemma LockSecsInRange(p: Policy, failures: int)
    requires p.Valid()
    requires p.free <= failures <= I32_MAX
    ensures LockSecs(p, failures).Some?
    ensures 1 <= LockSecs(p, failures).value <= p.maxSecs <= I64_MAX
    ensures 0 <= failures - p.free <= I32_MAX
    ensures 1 <= Pow(2, Min(failures - p.free, 30)) <= 0x4000_0000
  {
    PowersOfTwo(Min(failures - p.free, 30));
    MulAtLeastOne(p.baseSecs, Pow(2, Min(failures - p.free, 30)));
  }

  lemma {:induction false} PowersOfTwo(n: nat)
    requires n <= 30
    ensures 1 <= Pow(2, n)
    ensures Pow(2, n) * Pow(2, 30 - n) == 0x4000_0000
    ensures Pow(2, n) <= 0x4000_0000
  {
    PowPositive(2, n);
    PowPositive(2, 30 - n);
    PowAdd(2, n, 30 - n);
    PowAdd(2, 10, 10);
    PowAdd(2, 20, 10);
    assert Pow(2, 10) == 1024 by {
      PowAdd(2, 5, 5);
      assert Pow(2, 5) == 32;
    }
    var x, y := Pow(2, n), Pow(2, 30 - n);
    assert x * y == 0x4000_0000;
    MulAtLeast(x, y);
  }

  lemma MulAtLeast(x: int, y: int)
    requires x >= 0 && y >= 1
    ensures x * y >= x
  {
  }

  lemma MulAtLeastOne(x: int, y: int)
    requires x >= 1 && y >= 1
    ensures x * y >= 1
  {
    MulAtLeast(x, y);
  }

  // ── One counter ────────────────────────────────────────────────────────────

  /** A row that `record_attempt` finds, after inserting an empty one if there was none. */
  function Found(row: Option<Row>, now: int): Row {
    if row.Some? then row.value else Row(0, None, now)
  }

  predicate IsLocked(row: Row, now: int) {
    row.lockedUntil.Some? && row.lockedUntil.value > now
  }

  function Counted(row: Row, now: int): int {
    if now - row.updatedAt > DECAY_SECS then 1 else row.failures + 1
  }

  /** The outcome of an attempt and the row it leaves. */
  function Attempted(row: Option<Row>, p: Policy, now: int): (r: (Attempt, Row)) {
    var found := Found(row, now);
    if IsLocked(found, now) then (Locked(found.lockedUntil.value - now), found)
    else
      var failures := Counted(found, now);
      var lock := LockSecs(p, failures);
      (Allowed(failures), Row(failures, if lock.Some? then Some(now + lock.value) else None, now))
  }

  predicate Prunable(row: Row, now: int) {
    row.updatedAt < now - DECAY_SECS && (row.lockedUntil.None? || row.lockedUntil.value < now)
  }

  /** The advertised wait is exact: still locked one second earlier, open then. */
  lemma RetryAfterIsExact(row: Option<Row>, p: Policy, now: int, later: int)
    requires Attempted(row, p, now).0.Locked?
    requires now <= later
    ensures var retry := Attempted(row, p, now).0.retryAfterSecs;
            retry >= 1 && (Attempted(Some(Attempted(row, p, now).1), p, later).0.Allowed? <==> later >= now + retry)
  {
  }

  // ── Tables ─────────────────────────────────────────────────────────────────

  datatype Tables = Tables(rows: map<Key, Row>, trusted: map<(string, string), int>)

  function RowOf(t: Tables, k: Key): Option<Row> {
    if k in t.rows then Some(t.rows[k]) else None
  }

  predicate Trusted(t: Tables, account: string, network: string, now: int) {
    (account, network) in t.trusted && t.trusted[(account, network)] > now - TRUSTED_NETWORK_TTL_SECS
  }

  function RecordedAttempt(t: Tables, k: Key, p: Policy, now: int): (r: (Attempt, Tables)) {
    var (outcome, row) := Attempted(RowOf(t, k), p, now);
    (outcome, t.(rows := t.rows[k := row]))
  }

  /** Network counter first; the account counter only for networks the account has not used. */
  function ThrottledAttempt(t: Tables, account: string, network: string, now: int): (r: (Attempt, Tables)) {
    var (a, t1) := RecordedAttempt(t, OfNetwork(account, network), PER_NETWORK, now);
    if a.Locked? || Trusted(t, account, network, now) then (a, t1)
    else RecordedAttempt(t1, OfAccount(account), PER_ACCOUNT, now)
  }

  /** A successful proof clears both counters and trusts the network. */
  function Succeeded(t: Tables, account: string, network: string, now: int): Tables {
    Tables(t.rows - {OfNetwork(account, network), OfAccount(account)}, t.trusted[(account, network) := now])
  }

  function Pruned(t: Tables, now: int): Tables {
    Tables(map k | k in t.rows && !Prunable(t.rows[k], now) :: t.rows[k],
           map n | n in t.trusted && !(t.trusted[n] < now - TRUSTED_NETWORK_TTL_SECS) :: t.trusted[n])
  }

  /** The two tables and the statements run against them. */
  class LoginThrottle {
    var rows: map<Key, Row>
    var trusted: map<(string, string), int>

    function State(): Tables
      reads this
    {
      Tables(rows, trusted)
    }

    constructor ()
      ensures State() == Tables(map[], map[])
    {
      rows, trusted := map[], map[];
    }

    method RecordAttempt(key: Key, policy: Policy, now: int) returns (outcome: Attempt)
      modifies this`rows
      ensures (outcome, State()) == RecordedAttempt(old(State()), key, policy, now)
    {
      if key !in rows {
        rows := rows[key := Row(0, None, now)];
      }
      var row := rows[key];
      if row.lockedUntil.Some? && row.lockedUntil.value > now {
        assert rows == old(rows)[key := row];
        return Locked(row.lockedUntil.value - now);
      }
      var failures := if now - row.updatedAt > DECAY_SECS then 1 else row.failures + 1;
      var lock := LockSecs(policy, failures);
      rows := rows[key := Row(failures, if lock.Some? then Some(now + lock.value) else None, now)];
      assert rows == old(rows)[key := rows[key]];
      return Allowed(failures);
    }

    method Reset(keys: set<Key>)
      modifies this`rows
      ensures State() == old(State()).(rows := old(rows) - keys)
    {
      rows := rows - keys;
    }

    method TrustNetwork(account: string, network: string, now: int)
      modifies this`trusted
      ensures State() == old(State()).(trusted := old(trusted)[(account, network) := now])
    {
      trusted := trusted[(account, network) := now];
    }

    method PruneStale(now: int)
      modifies this
      ensures State() == Pruned(old(State()), now)
    {
      rows := map k | k in rows && !(rows[k].updatedAt < now - DECAY_SECS
                                     && (rows[k].lockedUntil.None? || rows[k].lockedUntil.value < now)) :: rows[k];
      trusted := map n | n in trusted && trusted[n] >= now - TRUSTED_NETWORK_TTL_SECS :: trusted[n];
    }

    /** The handler loop over the counters a login start has to pass. */
    method ThrottleAccount(account: string, network: string, now: int) returns (outcome: Attempt)
      modifies this`rows
      ensures (outcome, State()) == ThrottledAttempt(old(State()), account, network, now)
    {
      var isTrusted := Trusted(State(), account, network, now);
      var counters := [(OfNetwork(account, network), PER_NETWORK)];
      if !isTrusted {
        counters := counters + [(OfAccount(account), PER_ACCOUNT)];
      }
      ghost var before := State();
      ghost var one := RecordedAttempt(before, OfNetwork(account, network), PER_NETWORK, now);
      outcome := Allowed(0);
      for i := 0 to |counters|
        invariant i == 0 ==> State() == before
        invariant i == 1 ==> outcome.Allowed? && (outcome, State()) == one
        invariant i == 2 ==> (outcome, State()) == RecordedAttempt(one.1, OfAccount(account), PER_ACCOUNT, now)
        invariant i == 2 ==> one.0.Allowed?
      {
        outcome := RecordAttempt(counters[i].0, counters[i].1, now);
        if outcome.Locked? {
          return;
        }
      }
    }

    method ResetThrottle(account: string, network: string, now: int)
      modifies this
      ensures State() == Succeeded(old(State()), account, network, now)
    {
      Reset({OfNetwork(account, network), OfAccount(account)});
      TrustNetwork(account, network, now);
    }
  }
}
