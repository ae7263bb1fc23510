/**
 * The sync log, pulls by checkpoint and what each client is handed over any
 * interleaving of pushes and pulls (crates/nopass-api/src/db/sync.rs,
 * packages/crypto/src/sync-engine.ts).
 */
module SyncDelivery {
  import opened Wrappers
  import opened SyncMerge

  type Log = seq<SyncEvent>

  // ── Push ───────────────────────────────────────────────────────────────────

  /** The unique keys of the table: the event id, and device with sequence number. */
  predicate Conflicts(log: Log, e: SyncEvent) {
    exists i :: 0 <= i < |log| && (log[i].id == e.id || (log[i].device == e.device && log[i].sequence == e.sequence))
  }

  /** Insert in order, skipping conflicts. */
  function Pushed(log: Log, events: seq<SyncEvent>): Log {
    if events == [] then log
    else
      var l, e := Pushed(log, events[..|events| - 1]), events[|events| - 1];
      if Conflicts(l, e) then l else l + [e]
  }

  class SyncLog {
    var log: Log

    method PushSyncEvents(events: seq<SyncEvent>)
      modifies this
      ensures log == Pushed(old(log), events)
    {
      for i := 0 to |events|
        invariant log == Pushed(old(log), events[..i])
      {
        assert events[..i + 1][..i] == events[..i];
        if !Conflicts(log, events[i]) {
          log := log + [events[i]];
        }
      }
      assert events[..|events|] == events;
    }
  }

  /** The unique keys hold: no two rows share an id, or a device and sequence number. */
  ghost predicate UniqueKeys(log: Log) {
    forall i, j :: 0 <= i < j < |log| ==>
      log[i].id != log[j].id && !(log[i].device == log[j].device && log[i].sequence == log[j].sequence)
  }

  /** Whatever is pushed: no row is lost or moved, the keys stay unique, only pushed events enter, and an event is left out only beside a row with one of its keys. */
  lemma {:induction false} PushKeepsKeys(log: Log, events: seq<SyncEvent>)
    requires UniqueKeys(log)
    ensures var after := Pushed(log, events);
            && log <= after && UniqueKeys(after)
            && (forall e :: e in after ==> e in log || e in events)
            && (forall e :: e in events && e !in after ==> Conflicts(after, e))
  {
    if events != [] {
      var n := |events| - 1;
      var before, e := events[..n], events[n];
      assert events == before + [e];
      PushKeepsKeys(log, before);
      var l, after := Pushed(log, before), Pushed(log, events);
      forall x | x in events && x !in after ensures Conflicts(after, x) {
        if x != e {
          StillConflicts(l, after, x);
        }
      }
    }
  }

  lemma StillConflicts(log: Log, after: Log, e: SyncEvent)
    requires log <= after && Conflicts(log, e)
    ensures Conflicts(after, e)
  {
    var i :| 0 <= i < |log| && (log[i].id == e.id || (log[i].device == e.device && log[i].sequence == e.sequence));
    assert after[i] == log[i];
  }

  // ── Pull ───────────────────────────────────────────────────────────────────

  ghost predicate SortedBySequence(s: seq<SyncEvent>) {
    forall i, j :: 0 <= i < j < |s| ==> s[i].sequence <= s[j].sequence
  }

  function Insert(e: SyncEvent, s: seq<SyncEvent>): (r: seq<SyncEvent>)
    requires SortedBySequence(s)
    ensures multiset(r) == multiset(s) + multiset{e}
    ensures SortedBySequence(r)
    ensures r != [] && (r[0] == e || (s != [] && r[0] == s[0]))
  {
    if s == [] then [e]
    else if e.sequence < s[0].sequence then
      SortedPrepend(e, s);
      [e] + s
    else
      assert s == [s[0]] + s[1..];
      var rest := Insert(e, s[1..]);
      SortedPrepend(s[0], rest);
      [s[0]] + rest
  }

  lemma SortedPrepend(e: SyncEvent, s: seq<SyncEvent>)
    requires SortedBySequence(s) && (s != [] ==> e.sequence <= s[0].sequence)
    ensures SortedBySequence([e] + s)
  {
  }

  /** The rows that match, ordered by sequence number. */
  function Select(log: Log, matches: SyncEvent -> bool): (r: seq<SyncEvent>)
    ensures forall e :: multiset(r)[e] == if matches(e) then multiset(log)[e] else 0
    ensures SortedBySequence(r)
  {
    if log == [] then []
    else
      assert log == [log[0]] + log[1..];
      if matches(log[0]) then Insert(log[0], Select(log[1..], matches)) else Select(log[1..], matches)
  }

  datatype Checkpoint = Checkpoint(device: string, last: int)

  predicate AfterCheckpoint(e: SyncEvent, user: string, c: Checkpoint) {
    e.user == user && e.device == c.device && e.sequence > c.last
  }

  predicate Known(cs: seq<Checkpoint>, device: string) {
    exists i :: 0 <= i < |cs| && cs[i].device == device
  }

  /** The client has not seen this event, going by its checkpoints. */
  predicate Unseen(e: SyncEvent, user: string, cs: seq<Checkpoint>) {
    && e.user == user
    && (Known(cs, e.device) ==> exists i :: 0 <= i < |cs| && cs[i].device == e.device && e.sequence > cs[i].last)
  }

  ghost predicate DistinctDevices(cs: seq<Checkpoint>) {
    forall i, j :: 0 <= i < j < |cs| ==> cs[i].device != cs[j].device
  }

  function RowsAfter(log: Log, user: string, c: Checkpoint): seq<SyncEvent> {
    Select(log, e => AfterCheckpoint(e, user, c))
  }

  /** Rows after each checkpoint in turn. */
  function AfterCheckpoints(log: Log, user: string, cs: seq<Checkpoint>): seq<SyncEvent> {
    if cs == [] then []
    else AfterCheckpoints(log, user, cs[..|cs| - 1]) + RowsAfter(log, user, cs[|cs| - 1])
  }

  /** Then the rows of devices without a checkpoint. */
  function Pulled(log: Log, user: string, cs: seq<Checkpoint>): seq<SyncEvent> {
    AfterCheckpoints(log, user, cs) + Select(log, (e: SyncEvent) => e.user == user && !Known(cs, e.device))
  }

  method PullSyncEvents(log: Log, user: string, checkpoints: seq<Checkpoint>) returns (out: seq<SyncEvent>)
    ensures out == Pulled(log, user, checkpoints)
  {
    out := [];
    for i := 0 to |checkpoints|
      invariant out == AfterCheckpoints(log, user, checkpoints[..i])
    {
      assert checkpoints[..i + 1][..i] == checkpoints[..i];
      out := out + RowsAfter(log, user, checkpoints[i]);
    }
    assert checkpoints[..|checkpoints|] == checkpoints;
    out := out + Select(log, (e: SyncEvent) => e.user == user && !Known(checkpoints, e.device));
  }

  lemma {:induction false} CountAfterCheckpoints(log: Log, user: string, cs: seq<Checkpoint>, e: SyncEvent)
    requires DistinctDevices(cs)
    ensures multiset(AfterCheckpoints(log, user, cs))[e] ==
            if Known(cs, e.device) && Unseen(e, user, cs) then multiset(log)[e] else 0
  {
    if cs != [] {
      var n := |cs| - 1;
      CountAfterCheckpoints(log, user, cs[..n], e);
      OneMoreCheckpoint(cs, n, e, user);
      assert cs[..n + 1] == cs;
      var front, rows := AfterCheckpoints(log, user, cs[..n]), RowsAfter(log, user, cs[n]);
      assert AfterCheckpoints(log, user, cs) == front + rows;
      assert multiset(front + rows)[e] == multiset(front)[e] + multiset(rows)[e];
    }
  }

  /** With one checkpoint per device, a pull hands out every unseen row once and nothing else. */
  lemma PullHandsOutUnseen(log: Log, user: string, cs: seq<Checkpoint>, e: SyncEvent)
    requires DistinctDevices(cs)
    ensures multiset(Pulled(log, user, cs))[e] == if Unseen(e, user, cs) then multiset(log)[e] else 0
  {
    CountAfterCheckpoints(log, user, cs, e);
    var known := AfterCheckpoints(log, user, cs);
    var rest := Select(log, (e: SyncEvent) => e.user == user && !Known(cs, e.device));
    assert multiset(known + rest)[e] == multiset(known)[e] + multiset(rest)[e];
  }

  lemma OneMoreCheckpoint(cs: seq<Checkpoint>, i: nat, e: SyncEvent, user: string)
    requires i < |cs| && DistinctDevices(cs)
    ensures Known(cs[..i + 1], e.device) <==> Known(cs[..i], e.device) || e.device == cs[i].device
    ensures e.device == cs[i].device ==>
              && !Known(cs[..i], e.device)
              && (Unseen(e, user, cs[..i + 1]) <==> AfterCheckpoint(e, user, cs[i]))
    ensures e.device != cs[i].device ==> (Unseen(e, user, cs[..i + 1]) <==> Unseen(e, user, cs[..i]))
  {
  }

  /** The checkpoints a client sends: one per clock entry, in some order. */
  ghost predicate CheckpointsOf(cs: seq<Checkpoint>, clock: Clock) {
    && DistinctDevices(cs)
    && (forall i :: 0 <= i < |cs| ==> cs[i].device in clock && clock[cs[i].device] == cs[i].last)
    && (forall d :: d in clock ==> Known(cs, d))
  }

  predicate UnseenByClock(e: SyncEvent, user: string, clock: Clock) {
    e.user == user && (e.device in clock ==> e.sequence > clock[e.device])
  }

  lemma CheckpointsSayWhatTheClockSays(cs: seq<Checkpoint>, clock: Clock, e: SyncEvent, user: string)
    requires CheckpointsOf(cs, clock)
    ensures Unseen(e, user, cs) <==> UnseenByClock(e, user, clock)
  {
  }

  /** What a client with this clock may be handed. */
  ghost predicate Answers(out: seq<SyncEvent>, log: Log, user: string, clock: Clock) {
    forall e :: multiset(out)[e] == if UnseenByClock(e, user, clock) then multiset(log)[e] else 0
  }

  /** buildSyncCheckpoints followed by the server's pull. */
  method PullWithClock(log: Log, user: string, clock: Clock) returns (out: seq<SyncEvent>)
    ensures Answers(out, log, user, clock)
  {
    var cs: seq<Checkpoint> := [];
    var todo := clock.Keys;
    while todo != {}
      invariant todo <= clock.Keys
      invariant DistinctDevices(cs)
      invariant forall i :: 0 <= i < |cs| ==> cs[i].device in clock.Keys - todo && clock[cs[i].device] == cs[i].last
      invariant forall d :: d in clock.Keys - todo ==> Known(cs, d)
    {
      var d :| d in todo;
      ghost var before := cs;
      cs := cs + [Checkpoint(d, clock[d])];
      todo := todo - {d};
      assert cs[|before|].device == d;
      forall x | Known(before, x) ensures Known(cs, x) {
        var i :| 0 <= i < |before| && before[i].device == x;
        assert cs[i].device == x;
      }
    }
    out := PullSyncEvents(log, user, cs);
    forall e ensures multiset(out)[e] == if UnseenByClock(e, user, clock) then multiset(log)[e] else 0 {
      PullHandsOutUnseen(log, user, cs, e);
      CheckpointsSayWhatTheClockSays(cs, clock, e, user);
    }
  }

  // ── Runs ───────────────────────────────────────────────────────────────────

  /** A client of `user`: its clock, and everything it was ever handed. */
  datatype Client = Client(user: string, clock: Clock, got: seq<SyncEvent>)

  datatype State = State(log: Log, clients: map<nat, Client>)

  datatype Action =
    | Push(events: seq<SyncEvent>)
    | Pull(c: nat, out: seq<SyncEvent>)
    | Join(c: nat, user: string)

  /** A device's own discipline: an event already in the log again, or one above all of that device's. */
  ghost predicate Disciplined(log: Log, events: seq<SyncEvent>) {
    && (forall i :: 0 <= i < |events| && events[i] !in log ==>
          && events[i].sequence >= 0
          && (forall j :: 0 <= j < |log| ==>
                log[j].id != events[i].id
                && (log[j].device == events[i].device ==> log[j].sequence < events[i].sequence)))
    && (forall i, j :: 0 <= i < j < |events| ==>
          events[i] == events[j]
          || (events[i].id != events[j].id && (events[i].device, events[i].sequence) != (events[j].device, events[j].sequence)))
  }

  ghost predicate Enabled(s: State, a: Action) {
    match a
    case Push(events) => Disciplined(s.log, events)
    case Pull(c, out) => c in s.clients && Answers(out, s.log, s.clients[c].user, s.clients[c].clock)
    case Join(c, user) => c !in s.clients
  }

  function Next(s: State, a: Action): State {
    match a
    case Push(events) => s.(log := Pushed(s.log, events))
    case Pull(c, out) =>
      if c !in s.clients then s
      else
        var k := s.clients[c];
        s.(clients := s.clients[c := Client(k.user, ClockAfter(k.clock, out), k.got + out)])
    case Join(c, user) => s.(clients := s.clients[c := Client(user, map[], [])])
  }

  /** The clock holds the highest sequence number handed out per device, and those events and no others were handed out, once each. */
  ghost predicate UpTo(k: Client, log: Log) {
    && (forall e :: multiset(k.got)[e] == if e.user == k.user && !UnseenByClock(e, k.user, k.clock) then multiset(log)[e] else 0)
    && k.clock == ClockAfter(map[], k.got)
  }

  ghost predicate LogValid(log: Log) {
    && (forall i :: 0 <= i < |log| ==> log[i].sequence >= 0)
    && (forall i, j :: 0 <= i < j < |log| ==> log[i] != log[j])
  }

  ghost predicate Inv(s: State) {
    LogValid(s.log) && forall c :: c in s.clients ==> UpTo(s.clients[c], s.log)
  }

  lemma InLog(log: Log, e: SyncEvent)
    ensures multiset(log)[e] > 0 <==> e in log
    ensures LogValid(log) ==> multiset(log)[e] <= 1
  {
    assert multiset(log)[e] > 0 <==> e in multiset(log);
    if LogValid(log) {
      DistinctCounts(log, e);
    }
  }

  lemma {:induction false} DistinctCounts(log: Log, e: SyncEvent)
    requires forall i, j :: 0 <= i < j < |log| ==> log[i] != log[j]
    ensures multiset(log)[e] <= 1
  {
    if log != [] {
      var n := |log| - 1;
      assert log == log[..n] + [log[n]];
      DistinctCounts(log[..n], e);
      if log[n] == e {
        assert e !in log[..n];
        assert multiset(log[..n])[e] == 0;
      }
    }
  }

  /** A disciplined push adds exactly the new events, each above everything its device had in the log. */
  lemma {:induction false} PushAdds(log: Log, events: seq<SyncEvent>)
    requires LogValid(log) && Disciplined(log, events)
    ensures LogValid(Pushed(log, events))
    ensures log <= Pushed(log, events)
    ensures forall e :: e in Pushed(log, events) <==> e in log || e in events
  {
    if events != [] {
      var n := |events| - 1;
      var before, e := events[..n], events[n];
      assert events == before + [e];
      assert forall i :: 0 <= i < n ==> before[i] == events[i];
      PushAdds(log, before);
      var l := Pushed(log, before);
      if Conflicts(l, e) {
        ConflictIsRetry(log, events, l);
      } else {
        NewRowIsValid(log, events, l);
      }
      hide Disciplined, Conflicts, LogValid;
    }
  }

  lemma NewRowIsValid(log: Log, events: seq<SyncEvent>, l: Log)
    requires events != [] && Disciplined(log, events) && LogValid(l) && log <= l
    requires !Conflicts(l, events[|events| - 1])
    ensures LogValid(l + [events[|events| - 1]])
  {
    var e := events[|events| - 1];
    assert e !in l;
    assert forall i :: 0 <= i < |log| ==> log[i] == l[i];
    assert e !in log;
  }

  /** A disciplined push conflicts only with itself: the event is already stored. */
  lemma ConflictIsRetry(log: Log, events: seq<SyncEvent>, l: Log)
    requires events != [] && Disciplined(log, events) && LogValid(log)
    requires forall x :: x in l ==> x in log || x in events[..|events| - 1]
    requires log <= l && (forall x :: x in events[..|events| - 1] ==> x in l)
    requires Conflicts(l, events[|events| - 1])
    ensures events[|events| - 1] in l
  {
    var n := |events| - 1;
    var e := events[n];
    var i :| 0 <= i < |l| && (l[i].id == e.id || (l[i].device == e.device && l[i].sequence == e.sequence));
    var x := l[i];
    if x in log {
      var j :| 0 <= j < |log| && log[j] == x;
      assert e in log;
      var k :| 0 <= k < |log| && log[k] == e;
      assert l[k] == e;
    } else {
      var j :| 0 <= j < n && events[..n][j] == x;
      assert events[j] == events[n];
    }
  }

  lemma PushKeepsUpTo(log: Log, events: seq<SyncEvent>, k: Client)
    requires LogValid(log) && Disciplined(log, events) && UpTo(k, log)
    ensures UpTo(k, Pushed(log, events))
  {
    PushAdds(log, events);
    var l := Pushed(log, events);
    forall e
      ensures multiset(k.got)[e] == if e.user == k.user && !UnseenByClock(e, k.user, k.clock) then multiset(l)[e] else 0
    {
      InLog(log, e);
      InLog(l, e);
      if e !in log && e in events && e.user == k.user {
        NewEventIsUnseen(log, e, k, events);
      }
    }
  }

  lemma NewEventIsUnseen(log: Log, e: SyncEvent, k: Client, events: seq<SyncEvent>)
    requires UpTo(k, log) && Disciplined(log, events) && e in events && e !in log && e.user == k.user
    ensures UnseenByClock(e, k.user, k.clock)
  {
    if e.device in k.clock {
      ClockIsMaximum(map[], k.got);
      assert ClockIs(map[], Elements(k.got), e.device, k.clock[e.device]);
      var f :| f in Elements(k.got) && f.device == e.device && f.sequence == k.clock[e.device];
      assert f in multiset(k.got);
      InLog(log, f);
    }
  }

  lemma PullKeepsUpTo(s: State, c: nat, out: seq<SyncEvent>)
    requires Inv(s) && Enabled(s, Pull(c, out))
    ensures UpTo(Next(s, Pull(c, out)).clients[c], s.log)
    ensures var k := Next(s, Pull(c, out)).clients[c];
            forall e :: multiset(k.got)[e] == if e.user == k.user then multiset(s.log)[e] else 0
  {
    var k := s.clients[c];
    var k' := Next(s, Pull(c, out)).clients[c];
    assert k'.got == k.got + out;
    forall e
      ensures multiset(k'.got)[e] == if e.user == k.user then multiset(s.log)[e] else 0
    {
      assert multiset(k'.got)[e] == multiset(k.got)[e] + multiset(out)[e];
    }
    ClockAppends(map[], k.got, out);
    ClockIsMaximum(map[], k'.got);
    forall e: SyncEvent | e.user == k.user && multiset(s.log)[e] > 0
      ensures !UnseenByClock(e, k.user, k'.clock)
    {
      InLog(s.log, e);
      assert e in multiset(k'.got);
      assert e in k'.got && e in Elements(k'.got);
      assert ClockIs(map[], Elements(k'.got), e.device, k'.clock[e.device]);
    }
  }

  lemma {:induction false} ClockAppends(clock: Clock, a: seq<SyncEvent>, b: seq<SyncEvent>)
    ensures ClockAfter(clock, a + b) == ClockAfter(ClockAfter(clock, a), b)
  {
    if b == [] {
      assert a + b == a;
    } else {
      var n := |b| - 1;
      assert (a + b)[..|a + b| - 1] == a + b[..n];
      ClockAppends(clock, a, b[..n]);
    }
  }

  lemma NextKeepsInv(s: State, a: Action)
    requires Inv(s) && Enabled(s, a)
    ensures Inv(Next(s, a))
  {
    match a
    case Push(events) =>
      PushAdds(s.log, events);
      forall c | c in s.clients ensures UpTo(s.clients[c], Pushed(s.log, events)) {
        PushKeepsUpTo(s.log, events, s.clients[c]);
      }
    case Pull(c, out) => PullKeepsUpTo(s, c, out);
    case Join(c, user) =>
      assert forall e: SyncEvent :: multiset([])[e] == 0 && (e.user == user ==> UnseenByClock(e, user, map[]));
  }

  /** A run: each step enabled in the state before it. */
  ghost predicate IsRun(s: State, actions: seq<Action>, t: State)
    decreases |actions|
  {
    if actions == [] then s == t
    else Enabled(s, actions[0]) && IsRun(Next(s, actions[0]), actions[1..], t)
  }

  lemma {:induction false} RunKeepsInv(s: State, actions: seq<Action>, t: State)
    requires Inv(s) && IsRun(s, actions, t)
    ensures Inv(t)
    decreases |actions|
  {
    if actions != [] {
      NextKeepsInv(s, actions[0]);
      RunKeepsInv(Next(s, actions[0]), actions[1..], t);
    }
  }

  /** The server's vector clock for a user: the highest sequence number per device. */
  ghost predicate IsVectorClock(clock: Clock, log: Log, user: string) {
    && (forall d :: d in clock <==> exists e :: e in log && e.user == user && e.device == d)
    && (forall d :: d in clock ==> exists e :: e in log && e.user == user && e.device == d && e.sequence == clock[d])
    && (forall e :: e in log && e.user == user && e.device in clock ==> e.sequence <= clock[e.device])
  }

  /**
   * After any run of disciplined pushes and pulls, a pull leaves the client
   * with every event of its user handed to it exactly once, and with the
   * server's vector clock.
   */
  lemma DeliveredExactlyOnce(s: State, actions: seq<Action>, t: State, c: nat, out: seq<SyncEvent>)
    requires s.log == [] && s.clients == map[]
    requires IsRun(s, actions, t) && Enabled(t, Pull(c, out))
    ensures var k := Next(t, Pull(c, out)).clients[c];
            && (forall e :: multiset(k.got)[e] == if e.user == k.user && e in t.log then 1 else 0)
            && IsVectorClock(k.clock, t.log, k.user)
  {
    RunKeepsInv(s, actions, t);
    PullKeepsUpTo(t, c, out);
    hide IsRun, Enabled, Next, IsVectorClock;
    GotEverything(Next(t, Pull(c, out)).clients[c], t.log);
  }

  /** A client that got exactly its user's rows got each once, and its clock is the log's vector clock. */
  lemma GotEverything(k: Client, log: Log)
    requires LogValid(log) && k.clock == ClockAfter(map[], k.got)
    requires forall e :: multiset(k.got)[e] == if e.user == k.user then multiset(log)[e] else 0
    ensures forall e :: multiset(k.got)[e] == if e.user == k.user && e in log then 1 else 0
    ensures IsVectorClock(k.clock, log, k.user)
  {
    forall e
      ensures multiset(k.got)[e] == if e.user == k.user && e in log then 1 else 0
      ensures e in k.got <==> e.user == k.user && e in log
    {
      InLog(log, e);
      assert e in k.got <==> e in multiset(k.got);
    }
    assert forall e :: e in log ==> e.sequence >= 0;
    hide ClockAfter, LogValid;
    ClockOfRows(k.clock, k.got, log, k.user);
  }

  lemma ClockOfRows(clock: Clock, got: seq<SyncEvent>, log: Log, user: string)
    requires clock == ClockAfter(map[], got)
    requires forall e :: e in got <==> e.user == user && e in log
    requires forall e :: e in log ==> e.sequence >= 0
    ensures IsVectorClock(clock, log, user)
  {
    ClockIsMaximum(map[], got);
    hide ClockAfter;
    forall d | d in clock
      ensures exists e :: e in log && e.user == user && e.device == d && e.sequence == clock[d]
    {
      assert ClockIs(map[], Elements(got), d, clock[d]);
      var e :| e in Elements(got) && e.device == d && e.sequence == clock[d];
    }
    forall e | e in log && e.user == user ensures e.device in clock && e.sequence <= clock[e.device] {
      assert e in got && e in Elements(got);
      assert ClockIs(map[], Elements(got), e.device, clock[e.device]);
    }
  }

  /** The discipline is needed: an event at or below a client's clock is never handed to it, in any run. */
  lemma {:induction false} BelowClockIsNeverDelivered(s: State, actions: seq<Action>, t: State, c: nat, e: SyncEvent)
    requires IsRun(s, actions, t)
    requires c in s.clients && !UnseenByClock(e, s.clients[c].user, s.clients[c].clock)
    ensures c in t.clients && multiset(t.clients[c].got)[e] == multiset(s.clients[c].got)[e]
    decreases |actions|
  {
    if actions != [] {
      var s' := Next(s, actions[0]);
      if actions[0].Pull? && actions[0].c == c {
        var k, out := s.clients[c], actions[0].out;
        assert multiset(k.got + out)[e] == multiset(k.got)[e] + multiset(out)[e];
        ClockIsMaximum(k.clock, out);
        if e.device in k.clock {
          assert ClockIs(k.clock, Elements(out), e.device, ClockAfter(k.clock, out)[e.device]);
        }
      }
      BelowClockIsNeverDelivered(s', actions[1..], t, c, e);
    }
  }
}
