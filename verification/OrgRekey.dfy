/**
 * What an accepted rotation means for members and items, whoever built it:
 * nobody and nothing is left at the retired key
 * (crates/nopass-api/src/db/orgs.rs, packages/ui/src/lib/org-trust.ts).
 */
module OrgRekey {
  import opened Wrappers
  import opened Bytes
  import opened IdealCrypto
  import opened Identity
  import opened ItemEnvelope
  import opened OrgServer
  import opened OrgGraph
  import opened OrgTrust
  import opened OrgAgreement
  import Rotations = OrgRotation

  // ── When the server accepts ────────────────────────────────────────────────

  predicate IsMember(org: Org, r: Rotation, u: Uuid) {
    u in org.members && r.removeUser != Some(u)
  }

  predicate WrapAt(r: Rotation, i: nat, u: Uuid) {
    i < |r.wraps| && r.wraps[i].user == u
  }

  /** Everyone who stays has one wrap at the new epoch, and nobody else has one. */
  ghost predicate OneWrapEach(org: Org, r: Rotation) {
    && (forall u :: IsMember(org, r, u) ==> exists i: nat :: WrapAt(r, i, u))
    && (forall i: nat :: i < |r.wraps| ==> IsMember(org, r, r.wraps[i].user) && r.wraps[i].epoch == r.newEpoch)
    && (forall i: nat, j: nat, u :: WrapAt(r, i, u) && WrapAt(r, j, u) ==> i == j)
  }

  predicate HasItem(org: Org, id: Uuid) {
    exists j :: 0 <= j < |org.items| && org.items[j].id == id
  }

  predicate Reencrypted(r: Rotation, i: nat, id: Uuid) {
    i < |r.items| && r.items[i].id == id
  }

  predicate Deleted(r: Rotation, i: nat, id: Uuid) {
    i < |r.deleteItems| && r.deleteItems[i] == id
  }

  /** The rotation re-encrypts or deletes the item. */
  ghost predicate Named(r: Rotation, id: Uuid) {
    (exists i: nat :: Reencrypted(r, i, id)) || (exists i: nat :: Deleted(r, i, id))
  }

  /** Every item is re-encrypted once or deleted once, not both, and nothing else is named. */
  ghost predicate EachItemOnce(org: Org, r: Rotation) {
    && (forall j :: 0 <= j < |org.items| ==> Named(r, org.items[j].id))
    && (forall i: nat :: i < |r.items| ==> HasItem(org, r.items[i].id))
    && (forall i: nat :: i < |r.deleteItems| ==> HasItem(org, r.deleteItems[i]))
    && (forall i: nat, j: nat, id :: Reencrypted(r, i, id) && Reencrypted(r, j, id) ==> i == j)
    && (forall i: nat, j: nat, id :: Deleted(r, i, id) && Deleted(r, j, id) ==> i == j)
    && (forall i: nat, j: nat, id :: Reencrypted(r, i, id) ==> !Deleted(r, j, id))
  }

  lemma WrapUsersAt(r: Rotation, u: Uuid)
    ensures u in WrapUsers(r.wraps) <==> exists i: nat :: WrapAt(r, i, u)
  {
    var users := WrapUsers(r.wraps);
    if u in users {
      var i :| 0 <= i < |users| && users[i] == u;
      assert WrapAt(r, i, u);
    }
    if i: nat :| WrapAt(r, i, u) { assert users[i] == u; }
  }

  lemma WrapsDistinctIff(r: Rotation)
    ensures Distinct(WrapUsers(r.wraps)) <==> forall i: nat, j: nat, u :: WrapAt(r, i, u) && WrapAt(r, j, u) ==> i == j
  {
    var users := WrapUsers(r.wraps);
    assert forall i: nat :: i < |r.wraps| ==> users[i] == r.wraps[i].user && WrapAt(r, i, users[i]);
  }

  lemma WrapsCompleteIff(org: Org, r: Rotation)
    ensures WrapsComplete(org, r) <==> OneWrapEach(org, r)
  {
    WrapsDistinctIff(r);
    forall u ensures u in WrapUsers(r.wraps) <==> exists i: nat :: WrapAt(r, i, u) {
      WrapUsersAt(r, u);
    }
    hide WrapUsers, Distinct;
    var named, rest := (set u | u in WrapUsers(r.wraps)), RemainingMembers(org, r.removeUser).Keys;
    assert forall u :: u in rest <==> IsMember(org, r, u);
    assert forall i: nat :: i < |r.wraps| ==> WrapAt(r, i, r.wraps[i].user);
    assert named <= rest <==> forall i: nat :: i < |r.wraps| ==> IsMember(org, r, r.wraps[i].user);
    assert rest <= named <==> forall u :: IsMember(org, r, u) ==> exists i: nat :: WrapAt(r, i, u);
    assert named == rest <==> named <= rest && rest <= named;
  }

  lemma InCovered(r: Rotation, id: Uuid)
    ensures id in Covered(r) <==> Named(r, id)
  {
    var c, n := Covered(r), |r.items|;
    if id in c {
      var i :| 0 <= i < |c| && c[i] == id;
      assert if i < n then Reencrypted(r, i, id) else Deleted(r, i - n, id);
    }
    if i: nat :| Reencrypted(r, i, id) { assert c[i] == id; }
    if i: nat :| Deleted(r, i, id) { assert c[n + i] == id; }
  }

  lemma CoveredDistinctIff(r: Rotation)
    ensures Distinct(Covered(r)) <==>
            && (forall i: nat, j: nat, id :: Reencrypted(r, i, id) && Reencrypted(r, j, id) ==> i == j)
            && (forall i: nat, j: nat, id :: Deleted(r, i, id) && Deleted(r, j, id) ==> i == j)
            && (forall i: nat, j: nat, id :: Reencrypted(r, i, id) ==> !Deleted(r, j, id))
  {
    var c, n := Covered(r), |r.items|;
    assert forall i: nat :: i < n ==> c[i] == r.items[i].id;
    assert forall i: nat :: i < |r.deleteItems| ==> c[n + i] == r.deleteItems[i];
    if Distinct(c) {
      forall i: nat, j: nat, id | Deleted(r, i, id) && Deleted(r, j, id) ensures i == j {
        assert c[n + i] == c[n + j];
      }
      forall i: nat, j: nat, id | Reencrypted(r, i, id) ensures !Deleted(r, j, id) {
        assert j < |r.deleteItems| ==> c[i] != c[n + j];
      }
    } else {
      var i, j :| 0 <= i < j < |c| && c[i] == c[j];
      var id := c[i];
      assert if i < n then Reencrypted(r, i, id) else Deleted(r, i - n, id);
      assert if j < n then Reencrypted(r, j, id) else Deleted(r, j - n, id);
    }
  }

  /** The two lists together name exactly the items. */
  lemma CoversIff(org: Org, r: Rotation)
    ensures (set id | id in Covered(r)) == ItemIds(org.items) <==>
            && (forall j :: 0 <= j < |org.items| ==> Named(r, org.items[j].id))
            && (forall i: nat :: i < |r.items| ==> HasItem(org, r.items[i].id))
            && (forall i: nat :: i < |r.deleteItems| ==> HasItem(org, r.deleteItems[i]))
  {
    var covered, ids := (set id | id in Covered(r)), ItemIds(org.items);
    forall id ensures id in ids <==> HasItem(org, id) {}
    forall id ensures id in covered <==> Named(r, id) {
      InCovered(r, id);
    }
    hide Covered, ItemIds;
    assert forall i: nat :: i < |r.items| ==> Reencrypted(r, i, r.items[i].id);
    assert forall i: nat :: i < |r.deleteItems| ==> Deleted(r, i, r.deleteItems[i]);
    assert forall j :: 0 <= j < |org.items| ==> HasItem(org, org.items[j].id);
    assert forall i: nat :: i < |r.items| ==> Named(r, r.items[i].id);
    assert forall i: nat :: i < |r.deleteItems| ==> Named(r, r.deleteItems[i]);
    assert covered <= ids <==> (forall i: nat :: i < |r.items| ==> HasItem(org, r.items[i].id)) &&
                               (forall i: nat :: i < |r.deleteItems| ==> HasItem(org, r.deleteItems[i]));
    hide Named;
    assert ids <= covered <==> forall j :: 0 <= j < |org.items| ==> Named(r, org.items[j].id);
    assert covered == ids <==> covered <= ids && ids <= covered;
  }

  lemma ItemsCompleteIff(org: Org, r: Rotation)
    ensures ItemsComplete(org, r) <==> EachItemOnce(org, r)
  {
    hide Covered, Named, HasItem;
    CoveredDistinctIff(r);
    CoversIff(org, r);
  }

  /** The server accepts exactly the next epoch, a removal of a member who is no owner, one wrap each and each item once. */
  lemma RotatedIff(org: Org, r: Rotation)
    ensures RotationOutcome(org, r) == Rotated <==>
            && r.newEpoch == org.epoch + 1
            && (r.removeUser.Some? ==> r.removeUser.value in org.members && org.members[r.removeUser.value].role != "owner")
            && OneWrapEach(org, r) && EachItemOnce(org, r)
  {
    hide WrapsComplete, ItemsComplete, OneWrapEach, EachItemOnce;
    WrapsCompleteIff(org, r);
    ItemsCompleteIff(org, r);
  }

  /** Every old row is gone with its id named for deletion, or there with its one new blob and the next version. */
  lemma EveryItemIsReached(org: Org, owner: Uuid, r: Rotation, row: ItemRow)
    requires RotationOutcome(org, r) == Rotated && row in org.items
    ensures var after := RotatedOrg(org, owner, r).items;
            || ((exists i: nat :: Deleted(r, i, row.id)) && forall x :: x in after ==> x.id != row.id)
            || exists i: nat :: Reencrypted(r, i, row.id) && row.(blob := r.items[i].blob, version := row.version + 1) in after
  {
    RotatedIff(org, r);
    hide RotationOutcome, OneWrapEach;
    var j :| 0 <= j < |org.items| && org.items[j] == row;
    assert Named(r, row.id);
    hide RotatedOrg, EachItemOnce;
    if i: nat :| Deleted(r, i, row.id) {
      DeletedIsGone(org, owner, r, row.id);
    } else {
      var i: nat :| Reencrypted(r, i, row.id);
      KeptIsRewritten(org, owner, r, row, i);
    }
  }

  lemma DeletedIsGone(org: Org, owner: Uuid, r: Rotation, id: Uuid)
    requires exists i: nat :: Deleted(r, i, id)
    ensures forall x :: x in RotatedOrg(org, owner, r).items ==> x.id != id
  {
    var kept := WithoutIds(org.items, r.deleteItems);
    var after := ApplyItems(kept, r.items);
    forall x | x in after ensures x.id != id {
      var k :| 0 <= k < |kept| && after[k] == x;
      IdsStay(kept, r.items, k);
      assert kept[k] in kept;
    }
  }

  lemma KeptIsRewritten(org: Org, owner: Uuid, r: Rotation, row: ItemRow, i: nat)
    requires EachItemOnce(org, r) && row in org.items && Reencrypted(r, i, row.id)
    ensures row.(blob := r.items[i].blob, version := row.version + 1) in RotatedOrg(org, owner, r).items
  {
    var kept := WithoutIds(org.items, r.deleteItems);
    forall d: nat | d < |r.deleteItems| ensures r.deleteItems[d] != row.id {
      assert !Deleted(r, d, row.id);
    }
    assert row in kept;
    var k :| 0 <= k < |kept| && kept[k] == row;
    assert forall j: nat :: j < |r.items| && r.items[j].id == row.id ==> Reencrypted(r, j, row.id);
    hide WithoutIds, ApplyItems;
    BlobLands(kept, r.items, |r.items|, k, i);
    assert r.items[..|r.items|] == r.items;
  }

  /** And nothing else is there: every row after the rotation is an old one with one of the new blobs. */
  lemma NothingElseIsLeft(org: Org, owner: Uuid, r: Rotation, row: ItemRow)
    requires RotationOutcome(org, r) == Rotated && row in RotatedOrg(org, owner, r).items
    ensures exists x, i: nat :: x in org.items && Reencrypted(r, i, row.id) && row == x.(blob := r.items[i].blob, version := x.version + 1)
  {
    RotatedIff(org, r);
    hide RotationOutcome, OneWrapEach, EachItemOnce;
    var kept := WithoutIds(org.items, r.deleteItems);
    var k :| 0 <= k < |kept| && ApplyItems(kept, r.items)[k] == row;
    IdsStay(kept, r.items, k);
    var x := kept[k];
    assert x in kept && x in org.items && x.id !in r.deleteItems;
    hide WithoutIds, ApplyItems;
    var i := KeptIsNamed(org, r, x);
    OnlyEntry(org, r, i, x.id);
    BlobLands(kept, r.items, |r.items|, k, i);
    assert r.items[..|r.items|] == r.items;
  }

  lemma KeptIsNamed(org: Org, r: Rotation, x: ItemRow) returns (i: nat)
    requires EachItemOnce(org, r) && x in org.items && x.id !in r.deleteItems
    ensures Reencrypted(r, i, x.id)
  {
    var j :| 0 <= j < |org.items| && org.items[j] == x;
    assert Named(r, x.id);
    assert !exists d: nat :: Deleted(r, d, x.id);
    i :| Reencrypted(r, i, x.id);
  }

  lemma OnlyEntry(org: Org, r: Rotation, i: nat, id: Uuid)
    requires EachItemOnce(org, r) && Reencrypted(r, i, id)
    ensures forall j :: 0 <= j < |r.items| && j != i ==> r.items[j].id != id
  {
    assert forall j: nat :: j < |r.items| && r.items[j].id == id ==> Reencrypted(r, j, id);
  }

  lemma {:induction false} IdsStay(rows: seq<ItemRow>, es: seq<ReencryptedItem>, k: nat)
    requires k < |rows|
    ensures ApplyItems(rows, es)[k].id == rows[k].id
  {
    if es != [] {
      IdsStay(rows, es[..|es| - 1], k);
    }
  }

  /** The one entry with a row's id decides its blob, however many rows share the id. */
  lemma {:induction false} BlobLands(rows: seq<ItemRow>, es: seq<ReencryptedItem>, n: nat, k: nat, i: nat)
    requires k < |rows| && i < |es| && n <= |es| && es[i].id == rows[k].id
    requires forall j :: 0 <= j < |es| && j != i ==> es[j].id != rows[k].id
    ensures ApplyItems(rows, es[..n])[k] == if i < n then rows[k].(blob := es[i].blob, version := rows[k].version + 1) else rows[k]
  {
    if n > 0 {
      BlobLands(rows, es, n - 1, k, i);
      assert es[..n][..n - 1] == es[..n - 1];
    }
  }

  /** A rotation that names some item in neither list is refused, and the request changes nothing. */
  lemma LeftOutIsRefused(db: Db, caller: Uuid, id: Uuid, r: Rotation, row: ItemRow)
    requires id in db.orgs && row in db.orgs[id].items
    requires !Named(r, row.id)
    ensures RotationOutcome(db.orgs[id], r) != Rotated && Handle(db, Rotate(caller, id, r)) == db
  {
    var org := db.orgs[id];
    RotatedIff(org, r);
    var j :| 0 <= j < |org.items| && org.items[j] == row;
    hide RotationOutcome, OneWrapEach;
  }

  /** An owner's rotation that meets the conditions takes effect. */
  lemma OwnerRotates(db: Db, caller: Uuid, id: Uuid, r: Rotation)
    requires id in db.orgs && IsOwner(db.orgs[id], caller) && r.removeUser != Some(caller) && RotationOutcome(db.orgs[id], r) == Rotated
    ensures Handle(db, Rotate(caller, id, r)) == db.(orgs := db.orgs[id := RotatedOrg(db.orgs[id], caller, r)])
  {
  }

  /** Wraps the owner re-signs for members, at the current epoch and one each, all end up in their rows. */
  lemma OwnerResigns(db: Db, caller: Uuid, id: Uuid, wraps: seq<Rewrap>, i: nat)
    requires id in db.orgs && IsOwner(db.orgs[id], caller) && Distinct(WrapUsers(wraps)) && i < |wraps|
    requires forall j :: 0 <= j < |wraps| ==> wraps[j].epoch == db.orgs[id].epoch && wraps[j].user in db.orgs[id].members
    ensures var after := Handle(db, Resign(caller, id, wraps));
            && id in after.orgs && wraps[i].user in after.orgs[id].members
            && var row, was := after.orgs[id].members[wraps[i].user], db.orgs[id].members[wraps[i].user];
               && row.encryptedOrgKey == wraps[i].encryptedOrgKey && row.signature == Some(wraps[i].signature)
               && row.epoch == Some(wraps[i].epoch) && row.role == was.role && row.status == was.status
               && SignerOf(wraps[i].user, row) == caller
  {
    WrapLands(db.orgs[id].members, wraps, caller, i);
  }

  // ── In honest runs ─────────────────────────────────────────────────────────

  /** The row's blob was sealed, for this organisation and item, under the key. */
  ghost predicate SealedUnder(row: ItemRow, id: Uuid, key: OrgKey) {
    exists text, revision :: SealedAs(row, id, key, text, revision)
  }

  predicate SealedAs(row: ItemRow, id: Uuid, key: OrgKey, text: Plaintext, revision: int) {
    EncryptItemV2(text, Binding(OfOrg(id), row.id, text.itemType), revision, key) == Ok(row.blob)
  }

  /** No other key opens such a row, under any binding. */
  lemma OnlyThatKey(row: ItemRow, id: Uuid, key: OrgKey, other: OrgKey, c: Binding)
    requires SealedUnder(row, id, key) && other != key
    ensures Unseal(row.blob, c, other, other).Err?
  {
    var text, revision :| SealedAs(row, id, key, text, revision);
    EnvelopeRoundTrip(text, Binding(OfOrg(id), row.id, text.itemType), revision, key, c, other, other);
  }

  /** Every blob of a plan is sealed under the new key for its item. */
  lemma PlanSeals(input: RotationInput, store: Revisions, i: nat)
    requires PlanFor(input, store).Ok? && i < |PlanFor(input, store).value.rotation.items|
    ensures var e := PlanFor(input, store).value.rotation.items[i];
            exists text: Plaintext, revision: int :: EncryptItemV2(text, Binding(OfOrg(input.orgId), e.id, text.itemType), revision, input.newKey) == Ok(e.blob)
  {
    Rotations.EverythingReencrypted(input, input.items, store);
    hide ReencryptAll, ResignAll, Unseal, ItemAad;
    var kept := WithoutIds(input.items, input.dropItems);
    var plan := PlanFor(input, store).value;
    assert Rotations.Reencrypts(input, kept[i], plan.rotation.items[i].blob, plan.revisions[i].1);
    var text := Unseal(kept[i].blob, OrgBinding(input.orgId, kept[i]), input.oldKey, input.oldKey).value.plaintext;
    assert text.itemType == kept[i].itemType;
  }

  /**
   * In every honest run, after every accepted rotation, all members and all
   * items of the organisation are at one key: the rows carry it and every item
   * is sealed under it, so no other key opens any of them.
   */
  lemma EveryRotationRekeys(db: Db, reqs: seq<Request>, privs: Privs, k: nat)
    requires db.orgs == map[] && TrueKeys(db.users, privs) && HonestRun(db, reqs, privs)
    requires k < |reqs| && reqs[k].Rotate? && Handle(Run(db, reqs[..k]), reqs[k]) != Run(db, reqs[..k])
    ensures var id, after := reqs[k].org, Handle(Run(db, reqs[..k]), reqs[k]);
            && id in after.orgs
            && exists key :: Shares(id, after.orgs[id], key, privs) && forall row :: row in after.orgs[id].items ==> SealedUnder(row, id, key)
  {
    hide Run, TrueKeys, Shares;
    var past, before := History(db, reqs[..k]), Run(db, reqs[..k]);
    PrefixIsHonest(db, reqs, privs, k);
    RunLeads(db, reqs[..k], privs);
    hide HonestRun, PastLeads;
    var id, caller, r := reqs[k].org, reqs[k].caller, reqs[k].rotation;
    assert HonestRotate(past, caller, id, r, privs);
    assert id in before.orgs && RotationOutcome(before.orgs[id], r) == Rotated;
    assert Handle(before, reqs[k]).orgs[id] == RotatedOrg(before.orgs[id], caller, r);
    RotationRekeys(past, before, caller, id, r, privs);
  }

  lemma PrefixIsHonest(db: Db, reqs: seq<Request>, privs: Privs, k: nat)
    requires HonestRun(db, reqs, privs) && k < |reqs|
    ensures HonestRun(db, reqs[..k], privs)
    ensures Handle(Run(db, reqs[..k]), reqs[k]) != Run(db, reqs[..k]) ==> Honest(History(db, reqs[..k]), reqs[k], privs)
  {
    hide Handle, Honest;
    forall i | 0 <= i < k ensures reqs[..k][..i] == reqs[..i] && reqs[..k][i] == reqs[i] {}
  }

  lemma RotationRekeys(past: seq<Db>, db: Db, caller: Uuid, id: Uuid, r: Rotation, privs: Privs)
    requires PastLeads(past, db, privs) && db in past && HonestRotate(past, caller, id, r, privs)
    requires id in db.orgs && RotationOutcome(db.orgs[id], r) == Rotated
    ensures exists key :: Shares(id, RotatedOrg(db.orgs[id], caller, r), key, privs) &&
                          forall row :: row in RotatedOrg(db.orgs[id], caller, r).items ==> SealedUnder(row, id, key)
  {
    hide PastLeads, RotationOutcome, RotatedOrg, Shares, PlanFor, Verdict, Rotations.Lists;
    var p, input, store, epochs :| p in past && RotateFrom(p, caller, id, r, input, store, epochs, privs);
    RotatedShares(past, db, p, caller, id, r, input, store, epochs, privs);
    forall row | row in RotatedOrg(db.orgs[id], caller, r).items ensures SealedUnder(row, id, input.newKey) {
      NothingElseIsLeft(db.orgs[id], caller, r, row);
      var x, i: nat :| x in db.orgs[id].items && Reencrypted(r, i, row.id) && row == x.(blob := r.items[i].blob, version := x.version + 1);
      PlanSeals(input, store, i);
      var text: Plaintext, revision: int :| EncryptItemV2(text, Binding(OfOrg(id), row.id, text.itemType), revision, input.newKey) == Ok(r.items[i].blob);
      assert SealedAs(row, id, input.newKey, text, revision);
    }
  }
}
