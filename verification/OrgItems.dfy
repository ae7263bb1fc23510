/**
 * Reading an organisation's items with the current and retired keys, and
 * remembering which ones verified (packages/ui/src/lib/org-trust.ts).
 */
module OrgItems {
  import opened Wrappers
  import opened Bytes
  import opened IdealCrypto
  import opened ItemEnvelope
  import opened OrgServer
  import opened OrgTrust

  /** The keys a client holds: the current one first, then retired ones kept only to read. */
  datatype Keyring = Keyring(current: OrgKey, retired: seq<OrgKey>) {
    function Keys(): seq<OrgKey> {
      [current] + retired
    }
  }

  predicate OpensWith(row: ItemRow, orgId: Uuid, key: OrgKey, s: Revisions) {
    Decrypt(row.blob, OrgBinding(orgId, row), key, key, s).0.Ok?
  }

  /** The first key that opens the item decides; with none, the last key's error. */
  function DecryptWith(row: ItemRow, orgId: Uuid, keys: seq<OrgKey>, s: Revisions): (r: (Result<DecryptedItem, ItemError>, Revisions))
    requires keys != []
    ensures r.0.Ok? <==> exists k :: k in keys && OpensWith(row, orgId, k, s)
    ensures r.0.Ok? ==> exists k :: k in keys && r == Decrypt(row.blob, OrgBinding(orgId, row), k, k, s)
    ensures r.0.Err? ==> r.0 == Decrypt(row.blob, OrgBinding(orgId, row), keys[|keys| - 1], keys[|keys| - 1], s).0 && r.1 == s
  {
    var first := Decrypt(row.blob, OrgBinding(orgId, row), keys[0], keys[0], s);
    assert keys == [keys[0]] + keys[1..];
    if first.0.Ok? then
      assert OpensWith(row, orgId, keys[0], s);
      first
    else
      assert first.1 == s by { FailureRecordsNothing(row.blob, OrgBinding(orgId, row), keys[0], keys[0], s); }
      if |keys| == 1 then first else DecryptWith(row, orgId, keys[1..], s)
  }

  method DecryptOrgItem(row: ItemRow, orgId: Uuid, ring: Keyring, store: MemoryRevisionStore)
    returns (r: Result<DecryptedItem, ItemError>)
    requires store.Valid()
    modifies store
    ensures store.Valid()
    ensures (r, store.State()) == DecryptWith(row, orgId, ring.Keys(), old(store.State()))
  {
    hide Decrypt;
    var b := OrgBinding(orgId, row);
    var keys := ring.Keys();
    var lastError := NotAuthentic;
    for i := 0 to |keys|
      invariant store.Valid() && store.State() == old(store.State())
      invariant i < |keys| ==>
                  DecryptWith(row, orgId, keys, old(store.State())) == DecryptWith(row, orgId, keys[i..], old(store.State()))
      invariant i == |keys| ==> DecryptWith(row, orgId, keys, old(store.State())) == (Err(lastError), old(store.State()))
    {
      ghost var key := keys[i];
      r := DecryptVaultItem(row.blob, b, keys[i], keys[i], store);
      if r.Ok? {
        return;
      }
      FailureRecordsNothing(row.blob, b, key, key, old(store.State()));
      lastError := r.error;
      assert i + 1 < |keys| ==> keys[i..][1..] == keys[i + 1..];
    }
    return Err(lastError);
  }

  /** Only one key opens an item, so the order of the ring never changes what is read. */
  lemma KeyIsUnique(row: ItemRow, orgId: Uuid, s: Revisions, k: OrgKey, l: OrgKey)
    requires OpensWith(row, orgId, k, s) && OpensWith(row, orgId, l, s)
    ensures k == l
  {
    hide ItemAad;
  }

  /** A read in flight during a rotation succeeds with either ring that holds the item's key, to the sealed plaintext. */
  lemma RetiredKeyStillReads(row: ItemRow, orgId: Uuid, p: Plaintext, revision: int, key: OrgKey, ring: Keyring, s: Revisions)
    requires EncryptItemV2(p, OrgBinding(orgId, row), revision, key) == Ok(row.blob)
    ensures DecryptWith(row, orgId, ring.Keys(), s).0.Ok? <==> (key == ring.current || key in ring.retired) && revision >= SeenOr(s, row.id, 0)
    ensures forall k: OrgKey :: OpensWith(row, orgId, k, s) ==>
              Decrypt(row.blob, OrgBinding(orgId, row), k, k, s).0 == Ok(DecryptedItem(p, revision, 2))
  {
    var b := OrgBinding(orgId, row);
    var sealed := EncryptItemV2(p, b, revision, key).value;
    forall k: OrgKey
      ensures OpensWith(row, orgId, k, s) <==> k == key && revision >= SeenOr(s, row.id, 0)
      ensures OpensWith(row, orgId, k, s) ==> Decrypt(row.blob, b, k, k, s).0 == Ok(DecryptedItem(p, revision, 2))
    {
      EnvelopeRoundTrip(p, b, revision, key, b, k, k);
      SealedHasNoMac(p, b, revision, key);
      hide Unseal, EncryptItemV2;
    }
  }

  lemma SealedHasNoMac(p: Plaintext, b: Binding, revision: int, key: ByteString)
    requires EncryptItemV2(p, b, revision, key).Ok?
    ensures !IsLegacy(EncryptItemV2(p, b, revision, key).value)
  {
  }

  /** What verifying a list leaves: the ids that opened, those that did not, and the store. */
  datatype Verification = Verification(verified: seq<Uuid>, failed: seq<Uuid>, store: Revisions)

  function VerifyAll(orgId: Uuid, items: seq<ItemRow>, ring: Keyring, s: Revisions): Verification {
    if items == [] then Verification([], [], s)
    else
      var v, row := VerifyAll(orgId, items[..|items| - 1], ring, s), items[|items| - 1];
      var (r, store) := DecryptWith(row, orgId, ring.Keys(), v.store);
      if r.Ok? then Verification(v.verified + [row.id], v.failed, store)
      else Verification(v.verified, v.failed + [row.id], store)
  }

  /** Verifies what the server listed; exactly the ids that opened enter the ledger. */
  method RecordVerifiedOrgItems(orgId: Uuid, items: seq<ItemRow>, ring: Keyring, store: MemoryRevisionStore, ledger: OrgLedger)
    returns (verified: seq<Uuid>, failed: seq<Uuid>)
    requires store.Valid()
    modifies store, ledger
    ensures store.Valid()
    ensures Verification(verified, failed, store.State()) == VerifyAll(orgId, items, ring, old(store.State()))
    ensures ToSet(ledger.Entry(orgId).items) == ToSet(old(ledger.Entry(orgId)).items) + ToSet(verified)
    ensures ToSet(ledger.Entry(orgId).members) == ToSet(old(ledger.Entry(orgId)).members)
  {
    hide DecryptWith;
    verified, failed := [], [];
    for i := 0 to |items|
      invariant store.Valid()
      invariant ledger.entries == old(ledger.entries)
      invariant Verification(verified, failed, store.State()) == VerifyAll(orgId, items[..i], ring, old(store.State()))
    {
      assert items[..i + 1][..i] == items[..i];
      var r := DecryptOrgItem(items[i], orgId, ring, store);
      if r.Ok? {
        verified := verified + [items[i].id];
      } else {
        failed := failed + [items[i].id];
      }
    }
    assert items[..|items|] == items;
    ledger.Remember(orgId, LedgerEntry(verified, []));
  }

  /** The device's store when item `i` of the list gets its turn. */
  function StoreAtTurn(orgId: Uuid, items: seq<ItemRow>, ring: Keyring, s: Revisions, i: nat): Revisions
    requires i <= |items|
  {
    VerifyAll(orgId, items[..i], ring, s).store
  }

  /** An id is verified exactly when some listed row with it opens at its turn, failed exactly when some does not. */
  lemma {:induction false} VerifiedIff(orgId: Uuid, items: seq<ItemRow>, ring: Keyring, s: Revisions, id: Uuid)
    ensures var v := VerifyAll(orgId, items, ring, s);
            && |v.verified| + |v.failed| == |items|
            && (id in v.verified <==> exists i :: 0 <= i < |items| && items[i].id == id && OpensAtTurn(orgId, items, ring, s, i))
            && (id in v.failed <==> exists i :: 0 <= i < |items| && items[i].id == id && !OpensAtTurn(orgId, items, ring, s, i))
  {
    if items != [] {
      VerifiedIff(orgId, items[..|items| - 1], ring, s, id);
      VerifiedStep(orgId, items, ring, s, id);
    }
  }

  lemma VerifiedStep(orgId: Uuid, items: seq<ItemRow>, ring: Keyring, s: Revisions, id: Uuid)
    requires items != []
    requires var init := items[..|items| - 1];
             var v := VerifyAll(orgId, init, ring, s);
             && |v.verified| + |v.failed| == |init|
             && (id in v.verified <==> exists i :: 0 <= i < |init| && init[i].id == id && OpensAtTurn(orgId, init, ring, s, i))
             && (id in v.failed <==> exists i :: 0 <= i < |init| && init[i].id == id && !OpensAtTurn(orgId, init, ring, s, i))
    ensures var v := VerifyAll(orgId, items, ring, s);
            && |v.verified| + |v.failed| == |items|
            && (id in v.verified <==> exists i :: 0 <= i < |items| && items[i].id == id && OpensAtTurn(orgId, items, ring, s, i))
            && (id in v.failed <==> exists i :: 0 <= i < |items| && items[i].id == id && !OpensAtTurn(orgId, items, ring, s, i))
  {
    hide VerifyAll, OpensAtTurn;
    var n := |items| - 1;
    var init := items[..n];
    forall i | 0 <= i < n ensures init[i] == items[i] && OpensAtTurn(orgId, items, ring, s, i) == OpensAtTurn(orgId, init, ring, s, i) {
      SameTurn(orgId, items, ring, s, i);
    }
    LastTurn(orgId, items, ring, s);
  }

  lemma SameTurn(orgId: Uuid, items: seq<ItemRow>, ring: Keyring, s: Revisions, i: nat)
    requires i < |items| - 1
    ensures OpensAtTurn(orgId, items, ring, s, i) == OpensAtTurn(orgId, items[..|items| - 1], ring, s, i)
  {
    hide VerifyAll, OpensWith;
    assert items[..|items| - 1][..i] == items[..i];
  }

  predicate OpensAtTurn(orgId: Uuid, items: seq<ItemRow>, ring: Keyring, s: Revisions, i: nat)
    requires i < |items|
  {
    exists k :: k in ring.Keys() && OpensWith(items[i], orgId, k, StoreAtTurn(orgId, items, ring, s, i))
  }

  lemma LastTurn(orgId: Uuid, items: seq<ItemRow>, ring: Keyring, s: Revisions)
    requires items != []
    ensures var n := |items| - 1;
            var before, v := VerifyAll(orgId, items[..n], ring, s), VerifyAll(orgId, items, ring, s);
            if OpensAtTurn(orgId, items, ring, s, n)
            then v.verified == before.verified + [items[n].id] && v.failed == before.failed
            else v.verified == before.verified && v.failed == before.failed + [items[n].id]
  {
    hide OpensWith;
  }

  /** A verified id is that of a listed row which opens, under this org's binding, with a held key. */
  lemma VerifiedIsAuthentic(orgId: Uuid, items: seq<ItemRow>, ring: Keyring, s: Revisions, id: Uuid)
    requires id in VerifyAll(orgId, items, ring, s).verified
    ensures exists i, k :: 0 <= i < |items| && items[i].id == id && k in ring.Keys() && Authentic(items[i], orgId, k)
  {
    VerifiedIff(orgId, items, ring, s, id);
    hide VerifyAll;
    var i :| 0 <= i < |items| && items[i].id == id && OpensAtTurn(orgId, items, ring, s, i);
    var k :| k in ring.Keys() && OpensWith(items[i], orgId, k, StoreAtTurn(orgId, items, ring, s, i));
    OpenedIsAuthentic(items[i], orgId, k, StoreAtTurn(orgId, items, ring, s, i));
  }

  /** The blob opens, under this org's binding, with the key: nobody without the key can make one. */
  predicate Authentic(row: ItemRow, orgId: Uuid, key: OrgKey) {
    Unseal(row.blob, OrgBinding(orgId, row), key, key).Ok?
  }

  lemma OpenedIsAuthentic(row: ItemRow, orgId: Uuid, key: OrgKey, s: Revisions)
    requires Decrypt(row.blob, OrgBinding(orgId, row), key, key, s).0.Ok?
    ensures Authentic(row, orgId, key)
  {
  }

  /** An item once verified cannot be left out of a rotation unnoticed: the plan is refused and names it. */
  lemma OmissionIsNoticed(input: RotationInput, store: Revisions, id: Uuid)
    requires id in input.known.items && id !in ItemIds(input.items)
    requires id !in input.dropItems && id !in input.acknowledged.items
    ensures PlanFor(input, store).Err? && PlanFor(input, store).error.SetIncomplete? && id in PlanFor(input, store).error.items
  {
    hide ReencryptAll, ResignAll;
    assert id in GoneItems(input);
    assert id in Without(GoneItems(input), ToSet(input.acknowledged.items));
  }
}
