/**
 * Nobody else's attempts change what a trusted network sees
 * (crates/nopass-api/src/routes/auth.rs, crates/nopass-api/src/db/throttle.rs).
 */
module ThrottleIsolation {
  import opened Wrappers
  import opened Throttle
  import Rate = ThrottleRate

  datatype Event =
    | Start(account: string, network: string, at: int)
    | Success(account: string, network: string, at: int)
    | Prune(at: int)

  predicate From(e: Event, account: string, network: string) {
    !e.Prune? && e.account == account && e.network == network
  }

  function Next(t: Tables, e: Event): Tables {
    match e
    case Start(a, n, at) => ThrottledAttempt(t, a, n, at).1
    case Success(a, n, at) => Succeeded(t, a, n, at)
    case Prune(at) => Pruned(t, at)
  }

  function Run(t: Tables, events: seq<Event>): Tables {
    if events == [] then t else Next(Run(t, events[..|events| - 1]), events[|events| - 1])
  }

  /** What the starts from one network of one account were answered, in order. */
  function Answers(t: Tables, events: seq<Event>, account: string, network: string): seq<Attempt> {
    if events == [] then []
    else
      var before, e := events[..|events| - 1], events[|events| - 1];
      var answers := Answers(t, before, account, network);
      if e.Start? && From(e, account, network)
      then answers + [ThrottledAttempt(Run(t, before), account, network, e.at).0]
      else answers
  }

  /** The run without anybody else's events and without pruning. */
  function Own(events: seq<Event>, account: string, network: string): seq<Event> {
    if events == [] then []
    else
      var own := Own(events[..|events| - 1], account, network);
      if From(events[|events| - 1], account, network) then own + [events[|events| - 1]] else own
  }

  /** The network was trusted at each of its starts. */
  predicate StaysTrusted(t: Tables, events: seq<Event>, account: string, network: string) {
    events == [] ||
    var before, e := events[..|events| - 1], events[|events| - 1];
    && StaysTrusted(t, before, account, network)
    && (e.Start? && From(e, account, network) ==> Trusted(Run(t, before), account, network, e.at))
  }

  ghost predicate InOrder(events: seq<Event>) {
    forall i, j :: 0 <= i <= j < |events| ==> events[i].at <= events[j].at
  }

  /** Same counter and trust entry, except that the first table may have pruned what has gone stale. */
  ghost predicate Alike(t: Tables, u: Tables, account: string, network: string, now: int) {
    && AlikeRows(RowOf(t, OfNetwork(account, network)), RowOf(u, OfNetwork(account, network)), now)
    && ((account, network) in t.trusted ==>
          (account, network) in u.trusted && t.trusted[(account, network)] == u.trusted[(account, network)])
    && ((account, network) in u.trusted && (account, network) !in t.trusted ==>
          u.trusted[(account, network)] < now - TRUSTED_NETWORK_TTL_SECS)
  }

  ghost predicate AlikeRows(r: Option<Row>, s: Option<Row>, now: int) {
    r == s || (r.None? && s.Some? && Prunable(s.value, now))
  }

  /** A stale row and a missing row count the next attempt the same. */
  lemma AlikeRowsAnswerAlike(r: Option<Row>, s: Option<Row>, p: Policy, now: int)
    requires AlikeRows(r, s, now)
    ensures Attempted(r, p, now).0 == Attempted(s, p, now).0
    ensures Attempted(s, p, now).0.Allowed? ==> Attempted(r, p, now) == Attempted(s, p, now)
    ensures AlikeRows(Some(Attempted(r, p, now).1), Some(Attempted(s, p, now).1), now)
  {
  }

  /** One own event keeps two alike tables alike and gets the same answer from both. */
  lemma OwnStep(t: Tables, u: Tables, e: Event, account: string, network: string)
    requires From(e, account, network)
    requires Alike(t, u, account, network, e.at)
    requires e.Start? ==> Trusted(t, account, network, e.at)
    ensures Alike(Next(t, e), Next(u, e), account, network, e.at)
    ensures e.Start? ==> ThrottledAttempt(t, account, network, e.at).0 == ThrottledAttempt(u, account, network, e.at).0
  {
    var k := OfNetwork(account, network);
    AlikeRowsAnswerAlike(RowOf(t, k), RowOf(u, k), PER_NETWORK, e.at);
    hide Attempted;
  }

  /** An event of anybody else, or a pruning, leaves the first table alike. */
  lemma OtherStep(t: Tables, u: Tables, e: Event, account: string, network: string)
    requires !From(e, account, network)
    requires Alike(t, u, account, network, e.at)
    ensures Alike(Next(t, e), u, account, network, e.at)
  {
    hide Attempted;
  }

  lemma AlikeLater(t: Tables, u: Tables, account: string, network: string, now: int, later: int)
    requires Alike(t, u, account, network, now) && now <= later
    ensures Alike(t, u, account, network, later)
  {
  }

  lemma {:induction false} AlikeThroughout(t: Tables, events: seq<Event>, account: string, network: string)
    requires InOrder(events)
    requires StaysTrusted(t, events, account, network)
    requires events != []
    ensures Alike(Run(t, events), Run(t, Own(events, account, network)), account, network, events[|events| - 1].at)
    ensures Answers(t, events, account, network) == Answers(t, Own(events, account, network), account, network)
  {
    var n := |events| - 1;
    var before, e := events[..n], events[n];
    var own := Own(before, account, network);
    if before == [] {
      assert Alike(t, t, account, network, e.at);
    } else {
      assert forall i :: 0 <= i < n ==> before[i] == events[i];
      AlikeThroughout(t, before, account, network);
      AlikeLater(Run(t, before), Run(t, own), account, network, before[n - 1].at, e.at);
    }
    hide ThrottledAttempt, Next;
    if From(e, account, network) {
      OwnStep(Run(t, before), Run(t, own), e, account, network);
      var own' := own + [e];
      assert own'[..|own'| - 1] == own;
    } else {
      OtherStep(Run(t, before), Run(t, own), e, account, network);
    }
  }

  /**
   * While a network stays trusted for an account, its starts are answered as
   * if nobody else had tried anything and nothing had ever been pruned.
   */
  lemma TrustedNetworkIsIsolated(t: Tables, events: seq<Event>, account: string, network: string)
    requires InOrder(events)
    requires StaysTrusted(t, events, account, network)
    ensures Answers(t, events, account, network) == Answers(t, Own(events, account, network), account, network)
  {
    if events != [] {
      AlikeThroughout(t, events, account, network);
    }
  }

  // ── Without trust ──────────────────────────────────────────────────────────

  function Stranger(n: nat): (network: string)
    ensures |network| == n
  {
    seq(n, _ => 'x')
  }

  /** One start each from `n` different networks at time 0. */
  function Flood(account: string, n: nat): (events: seq<Event>)
    ensures |events| == n
    ensures forall i :: 0 <= i < n ==> events[i].at == 0
  {
    if n == 0 then [] else Flood(account, n - 1) + [Start(account, Stranger(n), 0)]
  }

  lemma {:induction false} FloodCounts(account: string, n: nat)
    requires n <= 100
    ensures var t := Run(Tables(map[], map[]), Flood(account, n));
            && t.trusted == map[]
            && (forall m :: m > n ==> OfNetwork(account, Stranger(m)) !in t.rows)
            && OfNetwork(account, "") !in t.rows
            && RowOf(t, OfAccount(account)) ==
               if n == 0 then None else Some(Row(n, if n == 100 then Some(60) else None, 0))
  {
    if n > 0 {
      FloodCounts(account, n - 1);
      var f := Flood(account, n);
      assert f[..|f| - 1] == Flood(account, n - 1);
      StrangerStep(Run(Tables(map[], map[]), Flood(account, n - 1)), account, n);
      hide Next, Flood;
      assert forall m :: m > n ==> |Stranger(m)| != |Stranger(n)|;
    }
  }

  lemma StrangerStep(t: Tables, account: string, n: nat)
    requires 1 <= n <= 100
    requires t.trusted == map[] && OfNetwork(account, Stranger(n)) !in t.rows
    requires RowOf(t, OfAccount(account)) == if n == 1 then None else Some(Row(n - 1, None, 0))
    ensures var t' := Next(t, Start(account, Stranger(n), 0));
            && t'.trusted == t.trusted
            && t'.rows.Keys == t.rows.Keys + {OfNetwork(account, Stranger(n)), OfAccount(account)}
            && RowOf(t', OfAccount(account)) == Some(Row(n, if n == 100 then Some(60) else None, 0))
  {
    assert Attempted(None, PER_NETWORK, 0).0 == Allowed(1);
    assert LockSecs(PER_ACCOUNT, n) == if n == 100 then Some(60) else None;
  }

  /** A network without trust gets no such promise: 100 strangers lock it out of its first start. */
  lemma UntrustedNetworkIsNot(account: string)
    ensures var events := Flood(account, 100) + [Start(account, "", 0)];
            var none := Tables(map[], map[]);
            && InOrder(events)
            && Answers(none, events, account, "") == [Locked(60)]
            && Answers(none, Own(events, account, ""), account, "") == [Allowed(1)]
  {
    FloodCounts(account, 100);
    var flood, e, none := Flood(account, 100), Start(account, "", 0), Tables(map[], map[]);
    var events := flood + [e];
    assert events[..100] == flood;
    FloodIsForeign(account, 100, none);
    assert Own(events, account, "") == [] + [e];
    assert Answers(none, [e], account, "") == [] + [ThrottledAttempt(none, account, "", 0).0];
  }

  lemma {:induction false} FloodIsForeign(account: string, n: nat, t: Tables)
    ensures Own(Flood(account, n), account, "") == []
    ensures Answers(t, Flood(account, n), account, "") == []
  {
    if n > 0 {
      var f := Flood(account, n);
      assert f[..|f| - 1] == Flood(account, n - 1);
      FloodIsForeign(account, n - 1, t);
      assert |Stranger(n)| == n;
    }
  }

  // ── The rate bound for a whole server ──────────────────────────────────────

  /** What the counter of one network goes through in a run. */
  function Project(events: seq<Event>, account: string, network: string): seq<Rate.Event> {
    if events == [] then []
    else
      var p, e := Project(events[..|events| - 1], account, network), events[|events| - 1];
      if e.Prune? then p + [Rate.Prune(e.at)]
      else if e.Start? && From(e, account, network) then p + [Rate.Try(e.at)]
      else p
  }

  /** The times at which starts from one network were let through. */
  function LetThrough(t: Tables, events: seq<Event>, account: string, network: string): seq<int> {
    if events == [] then []
    else
      var before, e := events[..|events| - 1], events[|events| - 1];
      var times := LetThrough(t, before, account, network);
      if e.Start? && From(e, account, network) && ThrottledAttempt(Run(t, before), account, network, e.at).0.Allowed?
      then times + [e.at] else times
  }

  /** `s` can be read off `t` by leaving elements out: position `at[i]` of `t` holds `s[i]`. */
  ghost predicate Embeds(s: seq<int>, t: seq<Rate.Passed>, at: seq<nat>) {
    && |at| == |s|
    && (forall i :: 0 <= i < |s| ==> at[i] < |t| && t[at[i]].at == s[i])
    && (forall i, j :: 0 <= i < j < |at| ==> at[i] < at[j])
  }

  lemma {:induction false} ProjectInOrder(events: seq<Event>, account: string, network: string)
    requires InOrder(events)
    ensures Rate.InOrder(Project(events, account, network))
    ensures forall i :: 0 <= i < |Project(events, account, network)| ==>
              events != [] && Project(events, account, network)[i].at <= events[|events| - 1].at
  {
    if events != [] {
      var n := |events| - 1;
      assert forall i :: 0 <= i < n ==> events[..n][i] == events[i];
      ProjectInOrder(events[..n], account, network);
    }
  }

  /** The network's counter row goes through exactly the projected events. */
  lemma {:induction false} RowIsProjected(events: seq<Event>, account: string, network: string)
    requires forall e :: e in events ==> !(e.Success? && From(e, account, network))
    ensures RowOf(Run(Tables(map[], map[]), events), OfNetwork(account, network))
            == Rate.Trace(None, Project(events, account, network), PER_NETWORK).1
  {
    if events != [] {
      var n := |events| - 1;
      RowIsProjected(events[..n], account, network);
      var p, p' := Project(events[..n], account, network), Project(events, account, network);
      assert p' != p ==> p'[..|p'| - 1] == p;
      hide Attempted;
    }
  }

  lemma {:induction false} LetThroughEmbeds(events: seq<Event>, account: string, network: string) returns (at: seq<nat>)
    requires forall e :: e in events ==> !(e.Success? && From(e, account, network))
    ensures Embeds(LetThrough(Tables(map[], map[]), events, account, network),
                   Rate.Trace(None, Project(events, account, network), PER_NETWORK).0, at)
  {
    if events == [] {
      at := [];
    } else {
      var n, none := |events| - 1, Tables(map[], map[]);
      var before := events[..n];
      at := LetThroughEmbeds(before, account, network);
      LetThroughStep(events, account, network);
      hide LetThrough, Rate.Trace, Project;
      var s, s' := LetThrough(none, before, account, network), LetThrough(none, events, account, network);
      var t, t' := Rate.Trace(None, Project(before, account, network), PER_NETWORK).0,
                   Rate.Trace(None, Project(events, account, network), PER_NETWORK).0;
      if s' != s {
        at := at + [|t|];
      }
    }
  }

  /** One more event adds at most one attempt to both sides, at the same time, and to the network's counter if to either. */
  lemma LetThroughStep(events: seq<Event>, account: string, network: string)
    requires events != [] && forall e :: e in events ==> !(e.Success? && From(e, account, network))
    ensures var before, none := events[..|events| - 1], Tables(map[], map[]);
            var s, s' := LetThrough(none, before, account, network), LetThrough(none, events, account, network);
            var t, t' := Rate.Trace(None, Project(before, account, network), PER_NETWORK).0,
                         Rate.Trace(None, Project(events, account, network), PER_NETWORK).0;
            || (s' == s && t <= t')
            || (|t'| == |t| + 1 && t <= t' && s' == s + [t'[|t|].at])
  {
    var before := events[..|events| - 1];
    RowIsProjected(before, account, network);
    var p, p' := Project(before, account, network), Project(events, account, network);
    assert p' != p ==> p'[..|p'| - 1] == p;
    hide Attempted;
  }

  /**
   * In every run of the server without a successful proof from the network,
   * one network gets at most free + D + window/max login starts through for
   * one account in any window of at most a day, whoever else is active.
   */
  lemma NetworkRateBound(events: seq<Event>, account: string, network: string, i: nat, j: nat, window: nat)
    requires InOrder(events)
    requires forall e :: e in events ==> !(e.Success? && From(e, account, network))
    requires var times := LetThrough(Tables(map[], map[]), events, account, network);
             i <= j < |times| && times[j] - times[i] <= window <= DECAY_SECS
    ensures j - i + 1 <= 15 + window / 900
  {
    var at := LetThroughEmbeds(events, account, network);
    ProjectInOrder(events, account, network);
    IndicesSpread(at, i, j);
    Rate.DeployedBounds();
    Rate.RateBound(Project(events, account, network), PER_NETWORK, at[i], at[j], window);
  }

  lemma {:induction false} IndicesSpread(at: seq<nat>, i: nat, j: nat)
    requires i <= j < |at|
    requires forall i, j :: 0 <= i < j < |at| ==> at[i] < at[j]
    ensures at[j] - at[i] >= j - i
    decreases j
  {
    if i < j {
      IndicesSpread(at, i, j - 1);
    }
  }

  // ── The account-wide bound ─────────────────────────────────────────────────

  /** A start that the account-wide counter gets to see: not from a trusted network, and not held by its own counter. */
  predicate Reaches(t: Tables, e: Event, account: string) {
    && e.Start? && e.account == account && !Trusted(t, account, e.network, e.at)
    && Attempted(RowOf(t, OfNetwork(account, e.network)), PER_NETWORK, e.at).0.Allowed?
  }

  /** What the account-wide counter goes through in a run. */
  function ProjectAccount(t: Tables, events: seq<Event>, account: string): seq<Rate.Event> {
    if events == [] then []
    else
      var before, e := events[..|events| - 1], events[|events| - 1];
      var p := ProjectAccount(t, before, account);
      if e.Prune? then p + [Rate.Prune(e.at)]
      else if Reaches(Run(t, before), e, account) then p + [Rate.Try(e.at)]
      else p
  }

  /** The times at which starts for the account from untrusted networks, all together, were let through. */
  function LetThroughUntrusted(t: Tables, events: seq<Event>, account: string): seq<int> {
    if events == [] then []
    else
      var before, e := events[..|events| - 1], events[|events| - 1];
      var times, now := LetThroughUntrusted(t, before, account), Run(t, before);
      if && e.Start? && e.account == account && !Trusted(now, account, e.network, e.at)
         && ThrottledAttempt(now, account, e.network, e.at).0.Allowed?
      then times + [e.at] else times
  }

  ghost predicate NoSuccess(events: seq<Event>, account: string) {
    forall e :: e in events ==> !(e.Success? && e.account == account)
  }

  lemma {:induction false} AccountProjectInOrder(t: Tables, events: seq<Event>, account: string)
    requires InOrder(events)
    ensures var p := ProjectAccount(t, events, account);
            && Rate.InOrder(p)
            && forall i :: 0 <= i < |p| ==> events != [] && p[i].at <= events[|events| - 1].at
  {
    hide Reaches;
    if events != [] {
      var n := |events| - 1;
      assert forall i :: 0 <= i < n ==> events[..n][i] == events[i];
      AccountProjectInOrder(t, events[..n], account);
    }
  }

  /** The row and the attempts let through are those of the projected events. */
  ghost predicate Tracks(t: Tables, events: seq<Event>, account: string) {
    var (passed, row) := Rate.Trace(None, ProjectAccount(t, events, account), PER_ACCOUNT);
    var times := LetThroughUntrusted(t, events, account);
    && RowOf(Run(t, events), OfAccount(account)) == row
    && |times| == |passed| && forall i :: 0 <= i < |times| ==> times[i] == passed[i].at
  }

  lemma {:induction false} AccountIsTracked(t: Tables, events: seq<Event>, account: string)
    requires OfAccount(account) !in t.rows && NoSuccess(events, account)
    ensures Tracks(t, events, account)
  {
    if events != [] {
      AccountIsTracked(t, events[..|events| - 1], account);
      TrackStep(t, events, account);
    }
  }

  lemma TrackStep(t: Tables, events: seq<Event>, account: string)
    requires events != [] && Tracks(t, events[..|events| - 1], account)
    requires !(events[|events| - 1].Success? && events[|events| - 1].account == account)
    ensures Tracks(t, events, account)
  {
    var before, e := events[..|events| - 1], events[|events| - 1];
    var now := Run(t, before);
    var p, p' := ProjectAccount(t, before, account), ProjectAccount(t, events, account);
    AccountRowStep(now, e, account);
    hide Attempted, ThrottledAttempt, Next, Reaches;
    assert p' != p ==> p'[..|p'| - 1] == p;
  }

  /** One event and the account-wide row: counted if it gets there, pruned, or untouched. */
  lemma AccountRowStep(now: Tables, e: Event, account: string)
    requires !(e.Success? && e.account == account)
    ensures RowOf(Next(now, e), OfAccount(account)) ==
            if e.Prune? then Rate.RowAfter(RowOf(now, OfAccount(account)), Rate.Prune(e.at), PER_ACCOUNT)
            else if Reaches(now, e, account) then Rate.RowAfter(RowOf(now, OfAccount(account)), Rate.Try(e.at), PER_ACCOUNT)
            else RowOf(now, OfAccount(account))
    ensures e.Start? && e.account == account && !Trusted(now, account, e.network, e.at) ==>
              (ThrottledAttempt(now, account, e.network, e.at).0.Allowed? <==>
               Reaches(now, e, account) && Attempted(RowOf(now, OfAccount(account)), PER_ACCOUNT, e.at).0.Allowed?)
    ensures Reaches(now, e, account) ==> e.Start? && e.account == account && !Trusted(now, account, e.network, e.at)
  {
    hide Attempted;
  }

  /**
   * In every run without a successful proof for the account, all untrusted
   * networks together get at most 106 + window/3600 login starts through in any
   * window of at most a day, however many of them there are.
   */
  lemma AccountRateBound(t: Tables, events: seq<Event>, account: string, i: nat, j: nat, window: nat)
    requires OfAccount(account) !in t.rows && InOrder(events) && NoSuccess(events, account)
    requires var times := LetThroughUntrusted(t, events, account);
             i <= j < |times| && times[j] - times[i] <= window <= DECAY_SECS
    ensures j - i + 1 <= 106 + window / 3600
  {
    AccountIsTracked(t, events, account);
    AccountProjectInOrder(t, events, account);
    Rate.DeployedBounds();
    hide ProjectAccount, LetThroughUntrusted, Rate.Trace, InOrder, NoSuccess;
    Rate.RateBound(ProjectAccount(t, events, account), PER_ACCOUNT, i, j, window);
  }
}
