/**
 * One device against an arbitrary server: every sequence of served blobs,
 * v2-only markers and restarts (packages/crypto/src/item-envelope.ts).
 */
module RollbackSafety {
  import opened Wrappers
  import opened Bytes
  import opened IdealCrypto
  import opened ItemEnvelope
  import Utf8

  /** The v2-only marker: an HMAC of a fixed label under some key. */
  datatype V2OnlyMarker = V2OnlyMarker(key: ByteString)

  datatype Event =
    | Serve(binding: Binding, blob: Blob)
    | Marker(marker: Option<V2OnlyMarker>)
    | Restart

  function ApplyMarker(m: Option<V2OnlyMarker>, macKey: ByteString, s: Revisions): Revisions {
    if m.Some? && m.value.key == macKey then s.(v2Only := true) else s
  }

  method ApplyV2OnlyMarker(m: Option<V2OnlyMarker>, macKey: ByteString, store: MemoryRevisionStore)
    returns (v2Only: bool)
    requires store.Valid()
    modifies store
    ensures store.Valid()
    ensures store.State() == ApplyMarker(m, macKey, old(store.State()))
    ensures v2Only == store.State().v2Only
  {
    if m.Some? && m.value.key == macKey {
      store.MarkV2Only();
    }
    return store.legacyClosed;
  }

  /** A restart reads the saved snapshot back and so loses nothing. */
  method RestartStore(store: MemoryRevisionStore) returns (again: MemoryRevisionStore)
    requires store.Valid()
    ensures fresh(again) && again.Valid() && again.State() == store.State()
  {
    again := new MemoryRevisionStore(store.saved);
  }

  function Step(s: Revisions, e: Event, key: ByteString, macKey: ByteString): Revisions {
    match e
    case Serve(b, blob) => Decrypt(blob, b, key, macKey, s).1
    case Marker(m) => ApplyMarker(m, macKey, s)
    case Restart => s
  }

  /** The store after the first `n` events. */
  function StoreAt(s: Revisions, run: seq<Event>, n: nat, key: ByteString, macKey: ByteString): Revisions
    requires n <= |run|
  {
    if n == 0 then s else Step(StoreAt(s, run, n - 1, key, macKey), run[n - 1], key, macKey)
  }

  /** What the device makes of the blob served as event `i`. */
  function Verdict(s: Revisions, run: seq<Event>, i: nat, key: ByteString, macKey: ByteString)
    : Result<DecryptedItem, ItemError>
    requires i < |run| && run[i].Serve?
  {
    Decrypt(run[i].blob, run[i].binding, key, macKey, StoreAt(s, run, i, key, macKey)).0
  }

  predicate AcceptedAt(s: Revisions, run: seq<Event>, i: nat, itemId: Uuid, key: ByteString, macKey: ByteString) {
    i < |run| && run[i].Serve? && run[i].binding.itemId == itemId && Verdict(s, run, i, key, macKey).Ok?
  }

  lemma UnsealedRevision(blob: Blob, b: Binding, key: ByteString, macKey: ByteString)
    requires Unseal(blob, b, key, macKey).Ok?
    ensures var item := Unseal(blob, b, key, macKey).value;
            item.revision >= 0 && item.format == (if IsLegacy(blob) then 1 else 2) && (item.format == 1 ==> item.revision == 0)
  {
  }

  lemma {:induction false} StoreOnlyRises(s: Revisions, run: seq<Event>, i: nat, j: nat, itemId: Uuid,
                                          key: ByteString, macKey: ByteString)
    requires i <= j <= |run|
    ensures var a, b := StoreAt(s, run, i, key, macKey), StoreAt(s, run, j, key, macKey);
            && (a.v2Only ==> b.v2Only)
            && (itemId in a.highest ==> itemId in b.highest && a.highest[itemId] <= b.highest[itemId])
    decreases j - i
  {
    if i < j {
      StoreOnlyRises(s, run, i, j - 1, itemId, key, macKey);
      StepOnlyRises(StoreAt(s, run, j - 1, key, macKey), run[j - 1], itemId, key, macKey);
    }
  }

  lemma StepOnlyRises(s: Revisions, e: Event, itemId: Uuid, key: ByteString, macKey: ByteString)
    ensures var t := Step(s, e, key, macKey);
            && (s.v2Only ==> t.v2Only)
            && (itemId in s.highest ==> itemId in t.highest && s.highest[itemId] <= t.highest[itemId])
  {
    hide Unseal;
  }

  lemma AcceptanceIsRecorded(s: Revisions, run: seq<Event>, i: nat, itemId: Uuid, key: ByteString, macKey: ByteString)
    requires AcceptedAt(s, run, i, itemId, key, macKey)
    ensures var t := StoreAt(s, run, i + 1, key, macKey);
            itemId in t.highest && Verdict(s, run, i, key, macKey).value.revision <= t.highest[itemId]
  {
    UnsealedRevision(run[i].blob, run[i].binding, key, macKey);
    hide Unseal;
  }

  /** Over every run, the revisions accepted for an item never decrease. */
  lemma AcceptedRevisionsNeverDecrease(s: Revisions, run: seq<Event>, i: nat, j: nat, itemId: Uuid,
                                       key: ByteString, macKey: ByteString)
    requires i < j
    requires AcceptedAt(s, run, i, itemId, key, macKey)
    requires AcceptedAt(s, run, j, itemId, key, macKey)
    ensures Verdict(s, run, i, key, macKey).value.revision <= Verdict(s, run, j, key, macKey).value.revision
  {
    AcceptanceIsRecorded(s, run, i, itemId, key, macKey);
    StoreOnlyRises(s, run, i + 1, j, itemId, key, macKey);
    hide Unseal;
  }

  /** The marker of this account, made with its own MAC key, came by event `i`. */
  predicate MarkedAt(run: seq<Event>, i: nat, macKey: ByteString) {
    i < |run| && run[i] == Marker(Some(V2OnlyMarker(macKey)))
  }

  /** Over every run, the device closes v1 exactly when it had before or was shown the account's own marker: no server can forge one. */
  lemma {:induction false} ClosedIffMarked(s: Revisions, run: seq<Event>, n: nat, key: ByteString, macKey: ByteString)
    requires n <= |run|
    ensures StoreAt(s, run, n, key, macKey).v2Only <==> s.v2Only || exists i: nat :: i < n && MarkedAt(run, i, macKey)
  {
    hide Unseal;
    if n > 0 {
      ClosedIffMarked(s, run, n - 1, key, macKey);
      assert MarkedAt(run, n - 1, macKey) <==> run[n - 1] == Marker(Some(V2OnlyMarker(macKey)));
    }
  }

  /**
   * Exactly when a well-formed v1 blob is accepted: the account is not v2-only
   * and the device has seen nothing of the item above revision 0.
   */
  lemma LegacyAcceptedIff(blob: Blob, b: Binding, key: ByteString, macKey: ByteString, s: Revisions)
    requires IsLegacy(blob)
    ensures Decrypt(blob, b, key, macKey, s).0.Ok? <==>
            && Unseal(blob, b, key, macKey).Ok?
            && !s.v2Only
            && (b.itemId in s.highest ==> s.highest[b.itemId] <= 0)
  {
  }

  /** Over every run, no v1 blob is accepted for an item once a v2 revision of it above 0 was accepted. */
  lemma NoLegacyAfterV2(s: Revisions, run: seq<Event>, i: nat, j: nat, itemId: Uuid,
                        key: ByteString, macKey: ByteString)
    requires i < j
    requires AcceptedAt(s, run, i, itemId, key, macKey)
    requires Verdict(s, run, i, key, macKey).value.revision >= 1
    requires AcceptedAt(s, run, j, itemId, key, macKey)
    ensures Verdict(s, run, j, key, macKey).value.format == 2
  {
    AcceptedRevisionsNeverDecrease(s, run, i, j, itemId, key, macKey);
    UnsealedRevision(run[j].blob, run[j].binding, key, macKey);
    hide Unseal;
  }

  /** Over every run, no v1 blob of any item is accepted after the v2-only marker verified. */
  lemma NoLegacyAfterMarker(s: Revisions, run: seq<Event>, i: nat, j: nat, itemId: Uuid,
                            key: ByteString, macKey: ByteString)
    requires i < j && i < |run|
    requires run[i] == Marker(Some(V2OnlyMarker(macKey)))
    requires AcceptedAt(s, run, j, itemId, key, macKey)
    ensures Verdict(s, run, j, key, macKey).value.format == 2
  {
    StoreOnlyRises(s, run, i + 1, j, itemId, key, macKey);
    UnsealedRevision(run[j].blob, run[j].binding, key, macKey);
    hide Unseal;
  }

  /** Clients never write revision 0, so every item they wrote as v2 is closed to v1. */
  lemma WrittenRevisionsArePositive(p: Plaintext, b: Binding, key: ByteString, s: Revisions, current: int, macKey: ByteString)
    requires current >= 0
    requires EncryptVaultItem(p, b, key, s, current).Ok?
    ensures var blob := EncryptVaultItem(p, b, key, s, current).value;
            && Unseal(blob, b, key, macKey).Ok?
            && Unseal(blob, b, key, macKey).value.revision == NextRevision(s, b.itemId, current) >= 1
  {
    EnvelopeRoundTrip(p, b, NextRevision(s, b.itemId, current), key, b, key, macKey);
  }

  /** A v2 blob sealed at revision 0 does not close its item: the one gap in the rule above. */
  lemma RevisionZeroLeavesLegacyOpen(p: Plaintext, id: Uuid, key: ByteString, macKey: ByteString)
    requires |Utf8.Encode(p.itemType)| <= 255
    ensures var b := Binding(Personal, id, p.itemType);
            && EncryptItemV2(p, b, 0, key).Ok?
            && var run := [Serve(b, EncryptItemV2(p, b, 0, key).value), Serve(b, EncryptItemV1(p, key, macKey))];
               var s := Revisions(map[], false);
               && Verdict(s, run, 0, key, macKey) == Ok(DecryptedItem(p, 0, 2))
               && Verdict(s, run, 1, key, macKey) == Ok(DecryptedItem(p, 0, 1))
  {
    var b := Binding(Personal, id, p.itemType);
    var v2 := EncryptItemV2(p, b, 0, key).value;
    var run := [Serve(b, v2), Serve(b, EncryptItemV1(p, key, macKey))];
    var s := Revisions(map[], false);
    EnvelopeRoundTrip(p, b, 0, key, b, key, macKey);
    hide ItemAad;
    assert StoreAt(s, run, 0, key, macKey) == s;
    assert StoreAt(s, run, 1, key, macKey) == Step(s, run[0], key, macKey) == Revisions(map[id := 0], false);
  }
}
