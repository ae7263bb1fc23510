/**
 * Moving an account's v1 items to v2 envelopes, and when the account may then
 * be marked v2-only (packages/crypto/src/item-envelope.ts).
 */
module LegacyUpgrade {
  import opened Wrappers
  import opened Bytes
  import opened ItemEnvelope
  import Utf8

  /** An item as listed by the server, tombstones included. */
  datatype StoredItem = StoredItem(binding: Binding, blob: Blob)

  datatype Keys = Keys(enc: ByteString, mac: ByteString)

  /** The server's blobs so far, the device's store, and the two counters. */
  datatype Upgrade = Upgrade(server: seq<Blob>, store: Revisions, upgraded: nat, failed: nat)

  /** `accepted`: the server took the write (a write that throws left the item alone). */
  function UpgradeNext(item: StoredItem, accepted: bool, keys: Keys, u: Upgrade): Upgrade {
    if !IsLegacy(item.blob) then u.(server := u.server + [item.blob])
    else
      var (current, store) := Decrypt(item.blob, item.binding, keys.enc, keys.mac, u.store);
      if current.Err? then Upgrade(u.server + [item.blob], store, u.upgraded, u.failed + 1)
      else
        var sealed := EncryptVaultItem(current.value.plaintext, item.binding, keys.enc, store, current.value.revision);
        if sealed.Err? || !accepted then Upgrade(u.server + [item.blob], store, u.upgraded, u.failed + 1)
        else
          var revision := NextRevision(store, item.binding.itemId, current.value.revision);
          Upgrade(u.server + [sealed.value], store.Recorded(item.binding.itemId, revision), u.upgraded + 1, u.failed)
  }

  function UpgradeAll(items: seq<StoredItem>, accepted: seq<bool>, keys: Keys, s: Revisions): (u: Upgrade)
    requires |accepted| == |items|
    ensures |u.server| == |items|
  {
    if items == [] then Upgrade([], s, 0, 0)
    else
      var n := |items| - 1;
      UpgradeNext(items[n], accepted[n], keys, UpgradeAll(items[..n], accepted[..n], keys, s))
  }

  method UpgradeLegacyItems(items: seq<StoredItem>, accepted: seq<bool>, keys: Keys, store: MemoryRevisionStore)
    returns (server: seq<Blob>, upgraded: nat, failed: nat)
    requires |accepted| == |items| && store.Valid()
    modifies store
    ensures store.Valid()
    ensures Upgrade(server, store.State(), upgraded, failed) == UpgradeAll(items, accepted, keys, old(store.State()))
  {
    hide Decrypt, EncryptVaultItem;
    server, upgraded, failed := [], 0, 0;
    for i := 0 to |items|
      invariant store.Valid()
      invariant Upgrade(server, store.State(), upgraded, failed) == UpgradeAll(items[..i], accepted[..i], keys, old(store.State()))
    {
      assert items[..i + 1][..i] == items[..i] && accepted[..i + 1][..i] == accepted[..i];
      var item := items[i];
      if !IsLegacy(item.blob) {
        server := server + [item.blob];
        continue;
      }
      var current := DecryptVaultItem(item.blob, item.binding, keys.enc, keys.mac, store);
      if current.Err? {
        server, failed := server + [item.blob], failed + 1;
        continue;
      }
      var now := Revisions(store.revisions, store.legacyClosed);
      var sealed := EncryptVaultItem(current.value.plaintext, item.binding, keys.enc, now, current.value.revision);
      if sealed.Err? || !accepted[i] {
        server, failed := server + [item.blob], failed + 1;
        continue;
      }
      store.Record(item.binding.itemId, NextRevision(now, item.binding.itemId, current.value.revision));
      server, upgraded := server + [sealed.value], upgraded + 1;
    }
    assert items[..|items|] == items && accepted[..|items|] == accepted;
  }

  // ── What the counters mean ─────────────────────────────────────────────────

  function LegacyCount(blobs: seq<Blob>): nat {
    if blobs == [] then 0
    else LegacyCount(blobs[..|blobs| - 1]) + if IsLegacy(blobs[|blobs| - 1]) then 1 else 0
  }

  lemma LegacyCountPush(blobs: seq<Blob>, b: Blob)
    ensures LegacyCount(blobs + [b]) == LegacyCount(blobs) + if IsLegacy(b) then 1 else 0
  {
  }

  /** `failed`, reported as legacyLeft, is exactly the number of v1 items still on the server. */
  lemma {:induction false} FailedIsLegacyLeft(items: seq<StoredItem>, accepted: seq<bool>, keys: Keys, s: Revisions)
    requires |accepted| == |items|
    ensures UpgradeAll(items, accepted, keys, s).failed == LegacyCount(UpgradeAll(items, accepted, keys, s).server)
  {
    if items != [] {
      var n := |items| - 1;
      FailedIsLegacyLeft(items[..n], accepted[..n], keys, s);
      var u := UpgradeAll(items[..n], accepted[..n], keys, s);
      var u' := UpgradeAll(items, accepted, keys, s);
      hide Decrypt, ItemAad;
      LegacyCountPush(u.server, u'.server[n]);
      assert u'.server == u.server + [u'.server[n]];
    }
  }

  lemma {:induction false} NoneLegacy(blobs: seq<Blob>)
    ensures LegacyCount(blobs) == 0 <==> forall i :: 0 <= i < |blobs| ==> !IsLegacy(blobs[i])
  {
    if blobs != [] {
      var n := |blobs| - 1;
      NoneLegacy(blobs[..n]);
      assert forall i :: 0 <= i < n ==> blobs[..n][i] == blobs[i];
    }
  }

  // ── What the items become ──────────────────────────────────────────────────

  predicate DistinctIds(items: seq<StoredItem>) {
    forall i, j :: 0 <= i < j < |items| ==> items[i].binding.itemId != items[j].binding.itemId
  }

  /** A device reads the blob to `p` through store `s`. */
  predicate Readable(blob: Blob, b: Binding, keys: Keys, s: Revisions, p: Plaintext) {
    var r := Decrypt(blob, b, keys.enc, keys.mac, s).0;
    r.Ok? && r.value.plaintext == p
  }

  /** What one item's turn does to it: it stays readable to the same plaintext, and only its own revision moves. */
  lemma NextIsLossless(item: StoredItem, accepted: bool, keys: Keys, u: Upgrade, p: Plaintext)
    requires Readable(item.blob, item.binding, keys, u.store, p)
    ensures var u' := UpgradeNext(item, accepted, keys, u);
            && |u'.server| == |u.server| + 1
            && Readable(u'.server[|u.server|], item.binding, keys, u'.store, p)
            && (IsLegacy(u'.server[|u.server|]) ==> u'.server[|u.server|] == item.blob)
  {
    var b := item.binding;
    var current := Decrypt(item.blob, b, keys.enc, keys.mac, u.store).0.value;
    var store := Decrypt(item.blob, b, keys.enc, keys.mac, u.store).1;
    var revision := NextRevision(store, b.itemId, current.revision);
    var sealed := EncryptItemV2(p, b, revision, keys.enc);
    if sealed.Ok? {
      EnvelopeRoundTrip(p, b, revision, keys.enc, b, keys.enc, keys.mac);
    }
    hide Unseal, EncryptItemV2;
    assert sealed.Ok? ==> Unseal(sealed.value, b, keys.enc, keys.mac) == Ok(DecryptedItem(p, revision, 2));
    assert sealed.Ok? ==> !IsLegacy(sealed.value) by { SealedIsNotLegacy(p, b, revision, keys.enc); }
  }

  lemma SealedIsNotLegacy(p: Plaintext, b: Binding, revision: int, key: ByteString)
    ensures EncryptItemV2(p, b, revision, key).Ok? ==> !IsLegacy(EncryptItemV2(p, b, revision, key).value)
  {
  }

  lemma NextLeavesOthers(item: StoredItem, accepted: bool, keys: Keys, u: Upgrade, other: Uuid)
    requires other != item.binding.itemId
    ensures var s' := UpgradeNext(item, accepted, keys, u).store;
            s'.v2Only == u.store.v2Only && SeenOr(s', other, 0) == SeenOr(u.store, other, 0)
  {
    hide Unseal, EncryptVaultItem;
  }

  /** Reading depends on the store only through the item's own entry and the v2-only flag. */
  lemma ReadableLocal(blob: Blob, b: Binding, keys: Keys, s: Revisions, t: Revisions, p: Plaintext)
    requires s.v2Only == t.v2Only && SeenOr(s, b.itemId, 0) == SeenOr(t, b.itemId, 0)
    ensures Readable(blob, b, keys, s, p) <==> Readable(blob, b, keys, t, p)
  {
    hide Unseal;
  }

  lemma {:induction false} StoreElsewhere(items: seq<StoredItem>, accepted: seq<bool>, keys: Keys, s: Revisions, other: Uuid)
    requires |accepted| == |items|
    requires forall i :: 0 <= i < |items| ==> items[i].binding.itemId != other
    ensures var t := UpgradeAll(items, accepted, keys, s).store;
            t.v2Only == s.v2Only && SeenOr(t, other, 0) == SeenOr(s, other, 0)
  {
    if items != [] {
      var n := |items| - 1;
      var init := items[..n];
      assert forall i :: 0 <= i < n ==> init[i] == items[i];
      StoreElsewhere(init, accepted[..n], keys, s, other);
      NextLeavesOthers(items[n], accepted[n], keys, UpgradeAll(init, accepted[..n], keys, s), other);
    }
  }

  /** Every item that was readable before the upgrade is readable after it, to the same plaintext, whatever writes failed. */
  lemma {:induction false} UpgradeIsLossless(items: seq<StoredItem>, accepted: seq<bool>, keys: Keys, s: Revisions, i: nat, p: Plaintext)
    requires |accepted| == |items| && DistinctIds(items) && i < |items|
    requires Readable(items[i].blob, items[i].binding, keys, s, p)
    ensures var u := UpgradeAll(items, accepted, keys, s);
            && Readable(u.server[i], items[i].binding, keys, u.store, p)
            && (IsLegacy(u.server[i]) ==> u.server[i] == items[i].blob)
    decreases |items|
  {
    var n := |items| - 1;
    var init := items[..n];
    var u := UpgradeAll(init, accepted[..n], keys, s);
    var u' := UpgradeAll(items, accepted, keys, s);
    hide Readable, Decrypt, EncryptVaultItem;
    assert u'.server[..n] == u.server;
    if i < n {
      assert init[i] == items[i] && u'.server[i] == u.server[i];
      UpgradeIsLossless(init, accepted[..n], keys, s, i, p);
      NextLeavesOthers(items[n], accepted[n], keys, u, items[i].binding.itemId);
      ReadableLocal(u.server[i], items[i].binding, keys, u.store, u'.store, p);
    } else {
      assert forall j :: 0 <= j < n ==> init[j] == items[j];
      StoreElsewhere(init, accepted[..n], keys, s, items[n].binding.itemId);
      ReadableLocal(items[n].blob, items[n].binding, keys, s, u.store, p);
      NextIsLossless(items[n], accepted[n], keys, u, p);
    }
  }

  /** Every item is readable: to what the map says. */
  ghost predicate AllReadable(items: seq<StoredItem>, blobs: seq<Blob>, keys: Keys, s: Revisions, texts: seq<Plaintext>)
    requires |blobs| == |items| == |texts|
  {
    forall i :: 0 <= i < |items| ==> Readable(blobs[i], items[i].binding, keys, s, texts[i])
  }

  /** After the upgrade, marking the account v2-only loses no item if and only if legacyLeft is 0. */
  lemma MarkOnlyWhenNoneLeft(items: seq<StoredItem>, accepted: seq<bool>, keys: Keys, s: Revisions, texts: seq<Plaintext>)
    requires |accepted| == |items| == |texts| && DistinctIds(items)
    requires forall i :: 0 <= i < |items| ==> Readable(items[i].blob, items[i].binding, keys, s, texts[i])
    ensures var u := UpgradeAll(items, accepted, keys, s);
            AllReadable(items, u.server, keys, u.store.(v2Only := true), texts) <==> u.failed == 0
  {
    var u := UpgradeAll(items, accepted, keys, s);
    FailedIsLegacyLeft(items, accepted, keys, s);
    NoneLegacy(u.server);
    forall i | 0 <= i < |items|
      ensures Readable(u.server[i], items[i].binding, keys, u.store.(v2Only := true), texts[i]) <==> !IsLegacy(u.server[i])
    {
      UpgradeIsLossless(items, accepted, keys, s, i, texts[i]);
      MarkedReads(u.server[i], items[i].binding, keys, u.store, texts[i]);
    }
  }

  lemma MarkedReads(blob: Blob, b: Binding, keys: Keys, s: Revisions, p: Plaintext)
    requires Readable(blob, b, keys, s, p)
    ensures Readable(blob, b, keys, s.(v2Only := true), p) <==> !IsLegacy(blob)
  {
    hide Unseal;
  }

  // ── What the upgrade achieves ──────────────────────────────────────────────

  /** A readable v1 item whose write the server takes is a v2 item afterwards, and its v1 blob is refused from then on; an item that is not v1 is left alone. */
  lemma {:induction false} AcceptedIsUpgraded(items: seq<StoredItem>, accepted: seq<bool>, keys: Keys, s: Revisions, i: nat, p: Plaintext)
    requires |accepted| == |items| && DistinctIds(items) && i < |items|
    requires Readable(items[i].blob, items[i].binding, keys, s, p) && |Utf8.Encode(items[i].binding.itemType)| <= 255
    ensures var u := UpgradeAll(items, accepted, keys, s);
            && (IsLegacy(items[i].blob) && accepted[i] ==> !IsLegacy(u.server[i]) && !Readable(items[i].blob, items[i].binding, keys, u.store, p))
            && (!IsLegacy(items[i].blob) ==> u.server[i] == items[i].blob)
    decreases |items|
  {
    var n := |items| - 1;
    var init := items[..n];
    var u, u' := UpgradeAll(init, accepted[..n], keys, s), UpgradeAll(items, accepted, keys, s);
    hide Readable, Decrypt, EncryptVaultItem;
    assert u'.server[..n] == u.server;
    if i < n {
      assert init[i] == items[i] && u'.server[i] == u.server[i] && accepted[..n][i] == accepted[i];
      AcceptedIsUpgraded(init, accepted[..n], keys, s, i, p);
      NextLeavesOthers(items[n], accepted[n], keys, u, items[i].binding.itemId);
      ReadableLocal(items[i].blob, items[i].binding, keys, u.store, u'.store, p);
    } else {
      assert forall j :: 0 <= j < n ==> init[j] == items[j];
      StoreElsewhere(init, accepted[..n], keys, s, items[n].binding.itemId);
      ReadableLocal(items[n].blob, items[n].binding, keys, s, u.store, p);
      NextUpgrades(items[n], accepted[n], keys, u, p);
    }
  }

  lemma NextUpgrades(item: StoredItem, accepted: bool, keys: Keys, u: Upgrade, p: Plaintext)
    requires Readable(item.blob, item.binding, keys, u.store, p) && |Utf8.Encode(item.binding.itemType)| <= 255
    ensures var u' := UpgradeNext(item, accepted, keys, u);
            && |u'.server| == |u.server| + 1
            && (IsLegacy(item.blob) && accepted ==> !IsLegacy(u'.server[|u.server|]) && !Readable(item.blob, item.binding, keys, u'.store, p))
            && (!IsLegacy(item.blob) ==> u'.server[|u.server|] == item.blob)
  {
    if IsLegacy(item.blob) {
      var b := item.binding;
      var (r, store) := Decrypt(item.blob, b, keys.enc, keys.mac, u.store);
      LegacyIsRevisionZero(item.blob, b, keys);
      assert r.value.plaintext.itemType == b.itemType;
      hide Unseal;
      assert NextRevision(store, b.itemId, 0) == 1;
      assert ItemAad(b, 1).Some?;
      SealedIsNotLegacy(r.value.plaintext, b, 1, keys.enc);
    }
  }

  lemma LegacyIsRevisionZero(blob: Blob, b: Binding, keys: Keys)
    requires IsLegacy(blob) && Unseal(blob, b, keys.enc, keys.mac).Ok?
    ensures Unseal(blob, b, keys.enc, keys.mac).value.revision == 0
  {
  }

  function Blobs(items: seq<StoredItem>): seq<Blob> {
    seq(|items|, i requires 0 <= i < |items| => items[i].blob)
  }

  /** Every v1 item is counted once: as upgraded, or as failed. */
  lemma {:induction false} CountersAddUp(items: seq<StoredItem>, accepted: seq<bool>, keys: Keys, s: Revisions)
    requires |accepted| == |items|
    ensures var u := UpgradeAll(items, accepted, keys, s); u.upgraded + u.failed == LegacyCount(Blobs(items))
  {
    hide Decrypt, EncryptVaultItem;
    if items != [] {
      var n := |items| - 1;
      CountersAddUp(items[..n], accepted[..n], keys, s);
      assert Blobs(items) == Blobs(items[..n]) + [items[n].blob];
      LegacyCountPush(Blobs(items[..n]), items[n].blob);
    }
  }
}
