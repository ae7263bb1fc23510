/** Applying a batch of sync events to the local items (packages/crypto/src/sync-engine.ts). */
module SyncMerge {
  import opened Wrappers

  datatype EventType = Upsert | Delete

  datatype SyncEvent = SyncEvent(
    id: string, user: string, device: string, sequence: int, kind: EventType, item: string, createdAt: string)

  datatype Item = Item(id: string, payload: string, deletedAt: Option<string>)

  /** Device to last sequence number observed. */
  type Clock = map<string, int>

  /** Code-unit order on strings. */
  predicate Less(s: string, t: string) {
    t != "" && (s == "" || s[0] < t[0] || (s[0] == t[0] && Less(s[1..], t[1..])))
  }

  predicate MoreRecent(a: SyncEvent, b: SyncEvent) {
    if a.sequence != b.sequence then a.sequence > b.sequence
    else if a.kind.Delete? && !b.kind.Delete? then true
    else if b.kind.Delete? && !a.kind.Delete? then false
    else Less(b.device, a.device)
  }

  lemma {:induction false} LessIsTotal(s: string, t: string)
    ensures !Less(s, s)
    ensures Less(s, t) || Less(t, s) || s == t
    ensures !(Less(s, t) && Less(t, s))
  {
    if s != "" {
      LessIsTotal(s[1..], s[1..]);
    }
    if s != "" && t != "" {
      LessIsTotal(s[1..], t[1..]);
      if s[0] == t[0] && s[1..] == t[1..] {
        assert s == [s[0]] + s[1..] && t == [t[0]] + t[1..];
      }
    }
  }

  lemma {:induction false} LessIsTransitive(s: string, t: string, u: string)
    requires Less(s, t) && Less(t, u)
    ensures Less(s, u)
  {
    if s != "" && s[0] == t[0] && t[0] == u[0] {
      LessIsTransitive(s[1..], t[1..], u[1..]);
    }
  }

  /** Events of one batch are told apart by device and sequence number. */
  ghost predicate StampsIdentify(events: set<SyncEvent>) {
    forall e, f :: e in events && f in events && e.device == f.device && e.sequence == f.sequence ==> e == f
  }

  /** isMostRecent is a strict total order on such a batch. */
  lemma MoreRecentIsStrictTotalOrder(events: set<SyncEvent>, a: SyncEvent, b: SyncEvent, c: SyncEvent)
    requires StampsIdentify(events) && a in events && b in events && c in events
    ensures !MoreRecent(a, a)
    ensures a != b ==> (MoreRecent(a, b) <==> !MoreRecent(b, a))
    ensures MoreRecent(a, b) && MoreRecent(b, c) ==> MoreRecent(a, c)
  {
    LessIsTotal(a.device, a.device);
    LessIsTotal(a.device, b.device);
    if Less(b.device, a.device) && Less(c.device, b.device) {
      LessIsTransitive(c.device, b.device, a.device);
    }
  }

  // ── Specification ──────────────────────────────────────────────────────────

  ghost function Elements(events: seq<SyncEvent>): set<SyncEvent> {
    set e | e in events
  }

  /** The event that beats every other event of the batch for the same item. */
  ghost predicate Wins(e: SyncEvent, events: set<SyncEvent>) {
    e in events && forall f :: f in events && f.item == e.item && f != e ==> MoreRecent(e, f)
  }

  function LatestOf(events: seq<SyncEvent>): map<string, SyncEvent> {
    if events == [] then map[]
    else
      var m, e := LatestOf(events[..|events| - 1]), events[|events| - 1];
      if e.item !in m || MoreRecent(e, m[e.item]) then m[e.item := e] else m
  }

  function ClockAfter(clock: Clock, events: seq<SyncEvent>): Clock {
    if events == [] then clock
    else
      var c, e := ClockAfter(clock, events[..|events| - 1]), events[|events| - 1];
      if e.sequence > (if e.device in c then c[e.device] else -1) then c[e.device := e.sequence] else c
  }

  /** The items as a map that keeps the order its keys were first seen in. */
  datatype ItemMap = ItemMap(order: seq<string>, values: map<string, Item>) {
    ghost predicate Valid() {
      && (forall k :: 0 <= k < |order| ==> order[k] in values)
      && values.Keys == set k | k in order
    }
  }

  function Load(local: seq<Item>): (m: ItemMap)
    ensures m.Valid()
  {
    if local == [] then ItemMap([], map[])
    else
      var m, i := Load(local[..|local| - 1]), local[|local| - 1];
      ItemMap(if i.id in m.values then m.order else m.order + [i.id], m.values[i.id := i])
  }

  /** A winning delete marks its item; a winning upsert changes nothing here. */
  function ApplyWinner(i: Item, latest: map<string, SyncEvent>, key: string): Item {
    if key in latest && latest[key].kind.Delete? then i.(deletedAt := Some(latest[key].createdAt)) else i
  }

  function MergedItems(m: ItemMap, latest: map<string, SyncEvent>): (items: seq<Item>)
    requires m.Valid()
  {
    seq(|m.order|, k requires 0 <= k < |m.order| => ApplyWinner(m.values[m.order[k]], latest, m.order[k]))
  }

  // ── The loop ───────────────────────────────────────────────────────────────

  method ApplySyncEvents(local: seq<Item>, events: seq<SyncEvent>, clock: Clock)
    returns (items: seq<Item>, newClock: Clock)
    ensures items == MergedItems(Load(local), LatestOf(events))
    ensures newClock == ClockAfter(clock, events)
    ensures |items| == |Load(local).order|
    ensures StampsIdentify(Elements(events)) ==>
              forall k :: 0 <= k < |items| ==> MergedFrom(items[k], Load(local).values[Load(local).order[k]], events)
  {
    var m := Load(local);
    var latest := TrackLatest(events);
    var values := MarkDeleted(m, latest);
    newClock := AdvanceClock(events, clock);
    items := seq(|m.order|, k requires 0 <= k < |m.order| => values[m.order[k]]);
    hide StampsIdentify, MergedFrom;
    if StampsIdentify(Elements(events)) {
      forall k | 0 <= k < |items| ensures MergedFrom(items[k], m.values[m.order[k]], events) {
        MergeMarksDeleted(local, events, k);
      }
    }
  }

  /** The latest event per item. */
  method TrackLatest(events: seq<SyncEvent>) returns (latest: map<string, SyncEvent>)
    ensures latest == LatestOf(events)
  {
    hide MoreRecent;
    latest := map[];
    for i := 0 to |events|
      invariant latest == LatestOf(events[..i])
    {
      var event := events[i];
      assert events[..i + 1][..i] == events[..i];
      if event.item !in latest || MoreRecent(event, latest[event.item]) {
        latest := latest[event.item := event];
      }
    }
    assert events[..|events|] == events;
  }

  /** The winning deletes mark their items, in whatever order they come. */
  method MarkDeleted(m: ItemMap, latest: map<string, SyncEvent>) returns (values: map<string, Item>)
    ensures values.Keys == m.values.Keys
    ensures forall k :: k in values ==> values[k] == ApplyWinner(m.values[k], latest, k)
  {
    var todo := latest.Keys;
    values := m.values;
    while todo != {}
      invariant todo <= latest.Keys
      invariant values.Keys == m.values.Keys
      invariant forall k :: k in values ==>
                  values[k] == if k in todo then m.values[k] else ApplyWinner(m.values[k], latest, k)
    {
      var itemId :| itemId in todo;
      var event := latest[itemId];
      if event.kind.Delete? && itemId in values {
        values := values[itemId := values[itemId].(deletedAt := Some(event.createdAt))];
      }
      todo := todo - {itemId};
    }
  }

  method AdvanceClock(events: seq<SyncEvent>, clock: Clock) returns (newClock: Clock)
    ensures newClock == ClockAfter(clock, events)
  {
    newClock := clock;
    for i := 0 to |events|
      invariant newClock == ClockAfter(clock, events[..i])
    {
      var event := events[i];
      assert events[..i + 1][..i] == events[..i];
      var current := if event.device in newClock then newClock[event.device] else -1;
      if event.sequence > current {
        newClock := newClock[event.device := event.sequence];
      }
    }
    assert events[..|events|] == events;
  }

  // ── Determinism ────────────────────────────────────────────────────────────

  lemma {:induction false} LatestWins(events: seq<SyncEvent>)
    requires StampsIdentify(Elements(events))
    ensures forall k :: k in LatestOf(events) ==> LatestOf(events)[k].item == k && Wins(LatestOf(events)[k], Elements(events))
    ensures forall e :: e in events ==> e.item in LatestOf(events)
  {
    if events != [] {
      var n := |events| - 1;
      var before, e := events[..n], events[n];
      assert events == before + [e];
      assert Elements(events) == Elements(before) + {e};
      LatestWins(before);
      var m := LatestOf(before);
      forall k | k in LatestOf(events)
        ensures LatestOf(events)[k].item == k && Wins(LatestOf(events)[k], Elements(events))
      {
        if k != e.item || (k in m && !MoreRecent(e, m[k])) {
          StillWins(m[k], e, Elements(before), Elements(events));
        } else if k in m {
          TakesOver(e, m[k], Elements(before), Elements(events));
        } else {
          assert forall f :: f in before ==> f.item != k;
        }
      }
    }
  }

  lemma StillWins(w: SyncEvent, e: SyncEvent, before: set<SyncEvent>, events: set<SyncEvent>)
    requires events == before + {e} && StampsIdentify(events) && Wins(w, before)
    requires w.item == e.item ==> !MoreRecent(e, w)
    ensures Wins(w, events)
  {
    MoreRecentIsStrictTotalOrder(events, w, e, e);
  }

  lemma TakesOver(e: SyncEvent, w: SyncEvent, before: set<SyncEvent>, events: set<SyncEvent>)
    requires events == before + {e} && StampsIdentify(events) && Wins(w, before)
    requires w.item == e.item && MoreRecent(e, w)
    ensures Wins(e, events)
  {
    forall f | f in events && f.item == e.item && f != e
      ensures MoreRecent(e, f)
    {
      MoreRecentIsStrictTotalOrder(events, e, w, f);
    }
  }

  lemma WinnersAreUnique(events: set<SyncEvent>, e: SyncEvent, f: SyncEvent)
    requires StampsIdentify(events) && Wins(e, events) && Wins(f, events) && e.item == f.item
    ensures e == f
  {
    if e != f {
      MoreRecentIsStrictTotalOrder(events, e, f, f);
    }
  }

  /** The latest event per item depends only on which events are in the batch. */
  lemma LatestIsOrderFree(a: seq<SyncEvent>, b: seq<SyncEvent>)
    requires Elements(a) == Elements(b) && StampsIdentify(Elements(a))
    ensures LatestOf(a) == LatestOf(b)
  {
    LatestWins(a);
    LatestWins(b);
    var la, lb := LatestOf(a), LatestOf(b);
    forall k | k in la ensures k in lb && la[k] == lb[k] {
      assert la[k] in Elements(b);
      WinnersAreUnique(Elements(a), la[k], lb[k]);
    }
    forall k | k in lb ensures k in la {
      assert lb[k] in Elements(a);
    }
  }

  /** `d` stands at `n` after the batch: from the old clock or an event, and nothing is higher. */
  ghost predicate ClockIs(clock: Clock, events: set<SyncEvent>, d: string, n: int) {
    && ((d in clock && clock[d] == n) || exists e :: e in events && e.device == d && e.sequence == n)
    && (d in clock || n > -1)
    && (d in clock ==> clock[d] <= n)
    && (forall e :: e in events && e.device == d ==> e.sequence <= n)
  }

  lemma {:induction false} ClockIsMaximum(clock: Clock, events: seq<SyncEvent>)
    ensures var c := ClockAfter(clock, events);
            && (forall d :: d in c ==> ClockIs(clock, Elements(events), d, c[d]))
            && (forall d :: d in clock ==> d in c)
            && (forall e :: e in events && e.sequence >= 0 ==> e.device in c)
  {
    if events != [] {
      var n := |events| - 1;
      var before, e := events[..n], events[n];
      assert events == before + [e];
      assert Elements(events) == Elements(before) + {e};
      ClockIsMaximum(clock, before);
      var c, c' := ClockAfter(clock, before), ClockAfter(clock, events);
      forall d | d in c' ensures ClockIs(clock, Elements(events), d, c'[d]) {
        assert e in Elements(events);
        if d in c {
          assert ClockIs(clock, Elements(before), d, c[d]);
          if c'[d] == c[d] && !(d in clock && clock[d] == c[d]) {
            var f :| f in Elements(before) && f.device == d && f.sequence == c[d];
            assert f in Elements(events);
          }
        } else {
          assert forall f :: f in before && f.device == d ==> f.sequence < 0;
        }
      }
    }
  }

  lemma ClockIsOrderFree(clock: Clock, a: seq<SyncEvent>, b: seq<SyncEvent>)
    requires Elements(a) == Elements(b)
    ensures ClockAfter(clock, a) == ClockAfter(clock, b)
  {
    ClockIsMaximum(clock, a);
    ClockIsMaximum(clock, b);
    ClockCovers(clock, a, b);
    ClockCovers(clock, b, a);
  }

  lemma ClockCovers(clock: Clock, a: seq<SyncEvent>, b: seq<SyncEvent>)
    requires Elements(a) == Elements(b)
    ensures forall d :: d in ClockAfter(clock, a) ==>
              d in ClockAfter(clock, b) && ClockAfter(clock, a)[d] <= ClockAfter(clock, b)[d]
  {
    ClockIsMaximum(clock, a);
    ClockIsMaximum(clock, b);
    var ca, cb := ClockAfter(clock, a), ClockAfter(clock, b);
    forall d | d in ca ensures d in cb && ca[d] <= cb[d] {
      assert ClockIs(clock, Elements(a), d, ca[d]);
      if !(d in clock && clock[d] == ca[d]) {
        var e :| e in Elements(a) && e.device == d && e.sequence == ca[d];
        assert e in Elements(b) && e in b;
      }
      assert ClockIs(clock, Elements(b), d, cb[d]);
    }
  }

  /** Every order of a batch, and every repetition within it, merges to the same items and clock. */
  lemma MergeIsOrderFree(local: seq<Item>, a: seq<SyncEvent>, b: seq<SyncEvent>, clock: Clock)
    requires Elements(a) == Elements(b) && StampsIdentify(Elements(a))
    ensures MergedItems(Load(local), LatestOf(a)) == MergedItems(Load(local), LatestOf(b))
    ensures ClockAfter(clock, a) == ClockAfter(clock, b)
  {
    LatestIsOrderFree(a, b);
    ClockIsOrderFree(clock, a, b);
  }

  /** In particular every permutation. */
  lemma PermutationsMergeAlike(local: seq<Item>, a: seq<SyncEvent>, b: seq<SyncEvent>, clock: Clock)
    requires multiset(a) == multiset(b) && StampsIdentify(Elements(a))
    ensures MergedItems(Load(local), LatestOf(a)) == MergedItems(Load(local), LatestOf(b))
    ensures ClockAfter(clock, a) == ClockAfter(clock, b)
  {
    assert forall e :: e in a <==> e in multiset(a);
    assert forall e :: e in b <==> e in multiset(b);
    assert Elements(a) == Elements(b);
    MergeIsOrderFree(local, a, b, clock);
  }

  // ── What a merge means ─────────────────────────────────────────────────────

  /**
   * The delete that decides an item: nothing in the batch for the item has a
   * higher sequence number, and no other delete at that number comes from a
   * device with a greater id.
   */
  ghost predicate Deletes(e: SyncEvent, id: string, events: seq<SyncEvent>) {
    && e in events && e.item == id && e.kind.Delete?
    && (forall f :: f in events && f.item == id ==> f.sequence <= e.sequence)
    && (forall f :: f in events && f.item == id && f.kind.Delete? && f.sequence == e.sequence && f != e ==> Less(f.device, e.device))
  }

  /** The item that `was` there is marked with the deciding delete's time, or unchanged if no delete decides it. */
  ghost predicate MergedFrom(item: Item, was: Item, events: seq<SyncEvent>) {
    && (forall e :: Deletes(e, was.id, events) ==> item == was.(deletedAt := Some(e.createdAt)))
    && ((forall e :: !Deletes(e, was.id, events)) ==> item == was)
  }

  lemma WinnerDecides(events: seq<SyncEvent>, w: SyncEvent)
    requires StampsIdentify(Elements(events)) && Wins(w, Elements(events))
    ensures w.kind.Delete? <==> Deletes(w, w.item, events)
    ensures forall e :: Deletes(e, w.item, events) ==> e == w
  {
    forall f | f in events && f.item == w.item && f != w
      ensures f.sequence <= w.sequence
      ensures w.kind.Delete? && f.kind.Delete? && f.sequence == w.sequence ==> Less(f.device, w.device)
      ensures !Deletes(f, w.item, events)
    {
      assert f in Elements(events) && MoreRecent(w, f);
      LessIsTotal(f.device, w.device);
      assert w in events;
    }
  }

  /** Every item is marked by the delete that decides it, and by nothing else. */
  lemma MergeMarksDeleted(local: seq<Item>, events: seq<SyncEvent>, k: nat)
    requires StampsIdentify(Elements(events)) && k < |Load(local).order|
    ensures var m := Load(local);
            MergedFrom(MergedItems(m, LatestOf(events))[k], m.values[m.order[k]], events)
  {
    var m, latest := Load(local), LatestOf(events);
    var id := m.order[k];
    LoadKeepsIds(local);
    LatestWins(events);
    hide Load, LatestOf;
    if id in latest {
      WinnerDecides(events, latest[id]);
    } else {
      assert forall e :: e in events ==> e.item != id;
    }
  }

  lemma {:induction false} LoadKeepsIds(local: seq<Item>)
    ensures forall id :: id in Load(local).values ==> Load(local).values[id].id == id
  {
    if local != [] {
      LoadKeepsIds(local[..|local| - 1]);
    }
  }

  /** Item `i` is the last one of its id. */
  predicate LastOf(local: seq<Item>, i: nat) {
    i < |local| && forall j :: i < j < |local| ==> local[j].id != local[i].id
  }

  predicate HasId(local: seq<Item>, id: string) {
    exists i :: 0 <= i < |local| && local[i].id == id
  }

  lemma {:induction false} LoadHasIds(local: seq<Item>, id: string)
    ensures id in Load(local).values <==> HasId(local, id)
  {
    if local != [] {
      var n := |local| - 1;
      LoadHasIds(local[..n], id);
      assert HasId(local, id) <==> HasId(local[..n], id) || local[n].id == id by {
        assert forall i :: 0 <= i < n ==> local[..n][i] == local[i];
      }
    }
  }

  ghost predicate EachOnce(order: seq<string>) {
    forall i, j :: 0 <= i < j < |order| ==> order[i] != order[j]
  }

  /** Loading keeps every id once. */
  lemma {:induction false} LoadIsDistinct(local: seq<Item>)
    ensures EachOnce(Load(local).order)
  {
    if local != [] {
      var n := |local| - 1;
      LoadIsDistinct(local[..n]);
      var m := Load(local[..n]);
      assert forall k :: 0 <= k < |m.order| ==> m.order[k] in m.values;
      if local[n].id !in m.values {
        OneMoreOnce(m.order, local[n].id);
      }
    }
  }

  lemma OneMoreOnce(order: seq<string>, id: string)
    requires EachOnce(order) && id !in order
    ensures EachOnce(order + [id])
  {
  }

  /** Of several items with one id, loading keeps the last. */
  lemma {:induction false} LoadKeepsLast(local: seq<Item>, i: nat)
    requires LastOf(local, i)
    ensures local[i].id in Load(local).values && Load(local).values[local[i].id] == local[i]
    decreases |local|
  {
    var n := |local| - 1;
    if i < n {
      var before := local[..n];
      assert forall j :: 0 <= j < n ==> before[j] == local[j];
      LoadKeepsLast(before, i);
    }
  }

  predicate DistinctItems(local: seq<Item>) {
    forall a, b :: 0 <= a < b < |local| ==> local[a].id != local[b].id
  }

  lemma LoadAppends(local: seq<Item>)
    requires local != [] && DistinctItems(local)
    ensures DistinctItems(local[..|local| - 1])
    ensures Load(local).order == Load(local[..|local| - 1]).order + [local[|local| - 1].id]
  {
    LoadHasIds(local[..|local| - 1], local[|local| - 1].id);
  }

  /** Items with distinct ids keep their places. */
  lemma {:induction false} LoadKeepsOrder(local: seq<Item>, i: nat)
    requires i < |local| && DistinctItems(local)
    ensures |Load(local).order| == |local| && Load(local).order[i] == local[i].id
    decreases |local|
  {
    hide DistinctItems;
    var n := |local| - 1;
    LoadAppends(local);
    if n > 0 {
      hide Load;
      LoadKeepsOrder(local[..n], if i < n then i else 0);
    }
  }
}
