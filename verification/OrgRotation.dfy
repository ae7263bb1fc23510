/**
 * Key rotation end to end: the plan a client builds, the server's answer and
 * what every remaining member finds afterwards
 * (packages/ui/src/lib/org-trust.ts, crates/nopass-api/src/db/orgs.rs,
 * packages/crypto/src/identity.ts).
 */
module OrgRotation {
  import opened Wrappers
  import opened Bytes
  import opened IdealCrypto
  import opened Identity
  import opened ItemEnvelope
  import opened OrgServer
  import opened OrgGraph
  import opened OrgTrust

  // ── Wraps ──────────────────────────────────────────────────────────────────

  /** The signed wrap the owner makes for a listed member. */
  ghost predicate IsWrapFor(s: Signing, m: MemberView, w: Rewrap) {
    && RecipientKey(s, m).Some?
    && WrapMessage(WrapOf(s, m, RecipientKey(s, m).value)).Some?
    && w == Rewrap(m.userId, OaepEncrypt(s.orgKey, RecipientKey(s, m).value),
                   Sign(WrapMessage(WrapOf(s, m, RecipientKey(s, m).value)).value, s.priv), s.epoch)
  }

  /** If nobody was skipped, every listed member got their wrap, in order. */
  lemma {:induction false} EveryoneWrapped(s: Signing, members: seq<MemberView>)
    requires ResignAll(s, members).skipped == [] && !ResignAll(s, members).threw
    ensures |ResignAll(s, members).wraps| == |members|
    ensures forall i :: 0 <= i < |members| ==> IsWrapFor(s, members[i], ResignAll(s, members).wraps[i])
  {
    hide WrapMessage, RecipientKey;
    if members != [] {
      var n := |members| - 1;
      EveryoneWrapped(s, members[..n]);
    }
  }

  /** The list the server gives out: every member once, with row and published keys. */
  ghost predicate Lists(views: seq<MemberView>, org: Org, users: Users) {
    && Distinct(ViewIds(views))
    && ToSet(ViewIds(views)) == org.members.Keys
    && (forall i :: 0 <= i < |views| && views[i].userId in org.members ==>
          views[i].role == org.members[views[i].userId].role && KeysMatch(views[i], users))
  }

  ghost predicate KeysMatch(v: MemberView, users: Users) {
    v.userId in users && UserKeys(v.publicKey, v.identity, v.signature) == users[v.userId]
  }

  lemma {:induction false} RemainingIds(views: seq<MemberView>, removed: Option<Uuid>)
    requires Distinct(ViewIds(views))
    ensures Distinct(ViewIds(Remaining(views, removed)))
    ensures ToSet(ViewIds(Remaining(views, removed))) ==
            if removed.Some? then ToSet(ViewIds(views)) - {removed.value} else ToSet(ViewIds(views))
  {
    if views != [] {
      var n := |views| - 1;
      var front, last := views[..n], views[n];
      assert ViewIds(views) == ViewIds(front) + [last.userId];
      assert forall i :: 0 <= i < n ==> ViewIds(front)[i] == ViewIds(views)[i];
      assert last.userId !in ViewIds(front) by {
        assert ViewIds(views)[n] == last.userId;
      }
      RemainingIds(front, removed);
      var r := Remaining(front, removed);
      assert ToSet(ViewIds(views)) == ToSet(ViewIds(front)) + {last.userId};
      if Some(last.userId) != removed {
        assert ViewIds(r + [last]) == ViewIds(r) + [last.userId];
        assert ToSet(ViewIds(r + [last])) == ToSet(ViewIds(r)) + {last.userId};
        assert last.userId !in ToSet(ViewIds(r));
      }
    }
  }

  lemma PlanWrapsComplete(org: Org, users: Users, input: RotationInput, store: Revisions)
    requires Lists(input.members, org, users) && PlanFor(input, store).Ok?
    ensures WrapsComplete(org, PlanFor(input, store).value.rotation)
  {
    hide ReencryptAll, ResignNext;
    var remaining, s := Remaining(input.members, input.removeUser), SigningFor(input);
    var r := PlanFor(input, store).value.rotation;
    EveryoneWrapped(s, remaining);
    RemainingIds(input.members, input.removeUser);
    forall i | 0 <= i < |r.wraps| ensures r.wraps[i].user == remaining[i].userId && r.wraps[i].epoch == r.newEpoch {
      assert IsWrapFor(s, remaining[i], r.wraps[i]);
    }
    assert WrapUsers(r.wraps) == ViewIds(remaining);
    assert (set u | u in WrapUsers(r.wraps)) == ToSet(ViewIds(remaining));
  }

  // ── Items ──────────────────────────────────────────────────────────────────

  function RowIds(rows: seq<ItemRow>): (r: seq<Uuid>)
    ensures |r| == |rows|
  {
    seq(|rows|, i requires 0 <= i < |rows| => rows[i].id)
  }

  /** `blob` holds the plaintext of `row` under the new key, at a higher revision. */
  ghost predicate Reencrypts(input: RotationInput, row: ItemRow, blob: Blob, revision: int) {
    var b := OrgBinding(input.orgId, row);
    var before := Unseal(row.blob, b, input.oldKey, input.oldKey);
    && before.Ok?
    && revision > before.value.revision
    && EncryptItemV2(before.value.plaintext, b, revision, input.newKey) == Ok(blob)
  }

  lemma DecryptedWasUnsealed(blob: Blob, b: Binding, key: ByteString, s: Revisions)
    requires Decrypt(blob, b, key, key, s).0.Ok?
    ensures Unseal(blob, b, key, key) == Decrypt(blob, b, key, key, s).0
  {
  }

  /** If everything opened, each kept row was re-encrypted, in order. */
  lemma {:induction false} EverythingReencrypted(input: RotationInput, items: seq<ItemRow>, store: Revisions)
    requires ReencryptAll(input, items, store).undecryptable == [] && !ReencryptAll(input, items, store).threw
    ensures var p, kept := ReencryptAll(input, items, store), WithoutIds(items, input.dropItems);
            && |p.items| == |p.revisions| == |kept|
            && forall i :: 0 <= i < |kept| ==>
                 && p.items[i].id == kept[i].id == p.revisions[i].0
                 && Reencrypts(input, kept[i], p.items[i].blob, p.revisions[i].1)
  {
    if items != [] {
      var n := |items| - 1;
      var row := items[n];
      EverythingReencrypted(input, items[..n], store);
      if row.id !in input.dropItems {
        var before := ReencryptAll(input, items[..n], store);
        DecryptedWasUnsealed(row.blob, OrgBinding(input.orgId, row), input.oldKey, before.store);
        hide Unseal, Decrypt, EncryptItemV2;
      }
    }
  }

  lemma {:induction false} WithoutDistinct(s: seq<Uuid>, drop: set<Uuid>)
    requires Distinct(s)
    ensures Distinct(Without(s, drop))
  {
    if s != [] {
      var n := |s| - 1;
      WithoutDistinct(s[..n], drop);
      assert s[n] !in s[..n];
    }
  }

  /** Dropping the listed ids and dropping those of them the server has is the same. */
  lemma {:induction false} DropsAgree(items: seq<ItemRow>, drop: seq<Uuid>, deleted: seq<Uuid>)
    requires forall i :: 0 <= i < |items| ==> (items[i].id in drop <==> items[i].id in deleted)
    ensures WithoutIds(items, drop) == WithoutIds(items, deleted)
  {
    if items != [] {
      DropsAgree(items[..|items| - 1], drop, deleted);
    }
  }

  lemma DistinctConcat(a: seq<Uuid>, b: seq<Uuid>)
    requires Distinct(b) && forall x :: x in a ==> x !in b
    ensures Distinct(a + b) <==> Distinct(a)
  {
    var c := a + b;
    if Distinct(c) {
      forall i, j | 0 <= i < j < |a| ensures a[i] != a[j] {
        assert c[i] == a[i] && c[j] == a[j];
      }
    }
    if Distinct(a) {
      forall i, j | 0 <= i < j < |c| ensures c[i] != c[j] {
        assert i < |a| ==> c[i] in a;
        assert j >= |a| ==> c[j] in b && c[j] == b[j - |a|];
        assert i >= |a| ==> c[i] == b[i - |a|];
      }
    }
  }

  ghost function KeptRows(input: RotationInput): seq<ItemRow> {
    WithoutIds(input.items, input.dropItems)
  }

  ghost function DeletedIds(input: RotationInput): seq<Uuid> {
    Without(input.dropItems, ToSet(input.dropItems) - ItemIds(input.items))
  }

  lemma DeletedIdsExact(input: RotationInput, id: Uuid)
    ensures id in DeletedIds(input) <==> id in input.dropItems && id in ItemIds(input.items)
  {
  }

  lemma InRowIds(rows: seq<ItemRow>, id: Uuid)
    ensures id in RowIds(rows) <==> id in ItemIds(rows)
    ensures id in RowIds(rows) <==> exists row :: row in rows && row.id == id
  {
    if id in RowIds(rows) {
      var i :| 0 <= i < |rows| && RowIds(rows)[i] == id;
      assert rows[i] in rows && rows[i].id == id;
    }
    if id in ItemIds(rows) {
      var i :| 0 <= i < |rows| && rows[i].id == id;
      assert RowIds(rows)[i] == id;
    }
    if exists row :: row in rows && row.id == id {
      var row :| row in rows && row.id == id;
      var i :| 0 <= i < |rows| && rows[i] == row;
      assert RowIds(rows)[i] == id;
    }
  }

  /** What the plan covers: the kept rows' ids, then the dropped ids the server has. */
  lemma PlanCovers(input: RotationInput, store: Revisions)
    requires PlanFor(input, store).Ok?
    ensures Covered(PlanFor(input, store).value.rotation) == RowIds(KeptRows(input)) + DeletedIds(input)
  {
    EverythingReencrypted(input, input.items, store);
    hide ReencryptNext, ResignAll, Reencrypts;
    var r, kept := PlanFor(input, store).value.rotation, KeptRows(input);
    assert seq(|r.items|, i requires 0 <= i < |r.items| => r.items[i].id) == RowIds(kept);
  }

  lemma PlanItemsComplete(org: Org, input: RotationInput, store: Revisions)
    requires PlanFor(input, store).Ok? && input.items == org.items && Distinct(input.dropItems)
    ensures ItemsComplete(org, PlanFor(input, store).value.rotation) <==> Distinct(RowIds(KeptRows(input)))
  {
    PlanCovers(input, store);
    hide PlanFor;
    var kept, deleted := KeptRows(input), DeletedIds(input);
    var covered := RowIds(kept) + deleted;
    forall id ensures id in covered <==> id in ItemIds(org.items) {
      InRowIds(kept, id);
      InRowIds(org.items, id);
      DeletedIdsExact(input, id);
    }
    WithoutDistinct(input.dropItems, ToSet(input.dropItems) - ItemIds(input.items));
    forall id | id in RowIds(kept) ensures id !in deleted {
      InRowIds(kept, id);
    }
    DistinctConcat(RowIds(kept), deleted);
  }

  // ── The server's answer ────────────────────────────────────────────────────

  /**
   * A plan built from the server's current lists, removing nobody or a member
   * who is not the owner and dropping distinct ids, is answered Rotated
   * exactly when no two kept items share an id; otherwise IncompleteItems.
   */
  lemma PlanIsAccepted(org: Org, users: Users, input: RotationInput, store: Revisions)
    requires PlanFor(input, store).Ok?
    requires input.currentEpoch == org.epoch && input.items == org.items && Lists(input.members, org, users)
    requires RemovalAllowed(org, input.removeUser) && Distinct(input.dropItems)
    ensures RotationOutcome(org, PlanFor(input, store).value.rotation) ==
            if Distinct(RowIds(KeptRows(input))) then Rotated else IncompleteItems
  {
    PlanWrapsComplete(org, users, input, store);
    PlanItemsComplete(org, input, store);
    hide WrapsComplete, ItemsComplete, ReencryptAll, ResignAll;
  }

  // ── Afterwards: keys ───────────────────────────────────────────────────────

  /** The owner's published bundle is the one the client's private key makes. */
  ghost predicate OwnerPublished(users: Users, owner: Uuid, priv: PrivateKey) {
    owner in users && users[owner].publicKey.Some? && BundleOf(owner, users[owner]) == PublishedBundle(owner, priv)
  }

  lemma PublishedBundleVerifies(owner: Uuid, priv: PrivateKey)
    ensures BundleVerifies(PublishedBundle(owner, priv))
  {
  }

  /** Row of `u` after the rotation: the owner's wrap for them. */
  ghost predicate RowIsWrap(s: Signing, u: Uuid, before: Member, after: Member, m: MemberView) {
    && m.userId == u && m.role == before.role == after.role
    && RecipientKey(s, m).Some?
    && after.encryptedOrgKey == OaepEncrypt(s.orgKey, RecipientKey(s, m).value)
    && after.epoch == Some(s.epoch)
    && after.invitedBy == (if u == s.owner then None else Some(s.owner))
    && WrapMessage(WrapOf(s, m, RecipientKey(s, m).value)).Some?
    && after.signature == Some(Sign(WrapMessage(WrapOf(s, m, RecipientKey(s, m).value)).value, s.priv))
  }

  lemma RotatedRowIsWrap(org: Org, users: Users, input: RotationInput, store: Revisions, u: Uuid) returns (m: MemberView)
    requires PlanFor(input, store).Ok? && Lists(input.members, org, users)
    requires RotationOutcome(org, PlanFor(input, store).value.rotation) == Rotated
    requires u in RemainingMembers(org, input.removeUser)
    ensures m in input.members && KeysMatch(m, users)
    ensures var after := RotatedOrg(org, input.owner, PlanFor(input, store).value.rotation).members;
            u in org.members && u in after && RowIsWrap(SigningFor(input), u, org.members[u], after[u], m)
  {
    hide ReencryptAll, ResignNext, WrapMessage, RecipientKey, ApplyItems, ItemsComplete;
    var r, s := PlanFor(input, store).value.rotation, SigningFor(input);
    var remaining := Remaining(input.members, input.removeUser);
    var i := RotatedRow(org, input.owner, r, u);
    EveryoneWrapped(s, remaining);
    m := remaining[i];
    assert IsWrapFor(s, m, r.wraps[i]);
    assert m in input.members;
    var k :| 0 <= k < |input.members| && input.members[k] == m;
  }

  /** The chain served to `u`: their wrap, and the owner's self-signed one behind it. */
  lemma RotatedChain(org: Org, users: Users, owner: Uuid, u: Uuid)
    requires u in org.members && owner in org.members && owner in users && users[owner].publicKey.Some?
    requires org.members[u].invitedBy == (if u == owner then None else Some(owner))
    requires org.members[owner].invitedBy == None
    ensures WrapChain(org, users, u, 0) ==
            if u == owner then [LinkOf(org, users, owner)] else [LinkOf(org, users, u), LinkOf(org, users, owner)]
  {
  }

  /** The link of a rotated row is pinned and signed for whoever pinned the owner. */
  lemma RotatedLink(s: Signing, org: Org, users: Users, u: Uuid, before: Member, m: MemberView, pins: Pins)
    requires u in org.members && RowIsWrap(s, u, before, org.members[u], m)
    requires OwnerPublished(users, s.owner, s.priv)
    requires s.owner in pins && pins[s.owner] == IdentityPublic(s.priv)
    ensures SignerOf(u, org.members[u]) == s.owner
    ensures var link := LinkFromServer(s.orgId, LinkOf(org, users, u));
            && PinnedBundle(link, pins) && PinnedSignature(link, pins)
            && link.wrap == OrgKeyWrap(s.orgId, s.epoch, u, s.owner, before.role, OaepEncrypt(s.orgKey, RecipientKey(s, m).value))
  {
    PublishedBundleVerifies(s.owner, s.priv);
    hide WrapMessage, BundleMessage, RecipientKey;
  }

  /** The key the owner wraps to for `u` is the public key of `u`'s private key. */
  ghost predicate HoldsKey(users: Users, u: Uuid, priv: PrivateKey) {
    u in users && users[u].publicKey == Some(SpkiOf(priv))
  }

  lemma PlanParts(org: Org, input: RotationInput, store: Revisions, plan: RotationPlan)
    requires PlanFor(input, store) == Ok(plan) && RotationOutcome(org, plan.rotation) == Rotated
    ensures plan.rotation.removeUser == input.removeUser && plan.rotation.newEpoch == SigningFor(input).epoch == org.epoch + 1
  {
    hide ReencryptAll, ResignAll;
  }

  lemma RecipientHoldsKey(s: Signing, m: MemberView, users: Users, priv: PrivateKey)
    requires RecipientKey(s, m).Some? && KeysMatch(m, users) && HoldsKey(users, m.userId, priv)
    requires OwnerPublished(users, s.owner, s.priv)
    ensures RecipientKey(s, m).value == SpkiOf(priv)
  {
  }

  /**
   * After the rotation, every remaining member whose device has the owner
   * pinned gets a chain that verifies and unwraps, with their own private key,
   * to the one new key.
   */
  lemma MembersGetNewKey(org: Org, users: Users, input: RotationInput, store: Revisions, plan: RotationPlan,
                         u: Uuid, priv: PrivateKey, pins: Pins, epochs: Epochs)
    requires PlanFor(input, store) == Ok(plan) && Lists(input.members, org, users)
    requires OwnerIs(org.members, input.owner) && OwnerPublished(users, input.owner, input.priv)
    requires RotationOutcome(org, plan.rotation) == Rotated
    requires u in RemainingMembers(org, input.removeUser) && HoldsKey(users, u, priv)
    requires input.owner in pins && pins[input.owner] == IdentityPublic(input.priv)
    requires input.orgId in epochs ==> epochs[input.orgId] <= org.epoch + 1
    ensures var served := WrapChain(RotatedOrg(org, input.owner, plan.rotation), users, u, 0);
            var verdict := ChainVerdict(ChainFromServer(input.orgId, served), input.orgId, u, pins, epochs);
            && verdict.Ok?
            && verdict.value.epoch == org.epoch + 1
            && OaepDecrypt(verdict.value.encryptedOrgKey, priv) == Some(input.newKey)
  {
    var owner, s := input.owner, SigningFor(input);
    PlanParts(org, input, store, plan);
    hide PlanFor, ChainVerdict, WrapChain, ChainFromServer, RotatedOrg, RotationOutcome, RecipientKey, WrapMessage, OwnerPublished;
    var m := RotatedRowIsWrap(org, users, input, store, u);
    var mo := RotatedRowIsWrap(org, users, input, store, owner);
    RotatedRows(org, owner, plan.rotation);
    assert m.userId == u && RecipientKey(s, m).Some?;
    RecipientHoldsKey(s, m, users, priv);
    hide RowIsWrap;
    StarAccepted(s, RotatedOrg(org, owner, plan.rotation), users, u, org.members[u], m, org.members[owner], mo, pins, epochs);
    OaepOpensOnlyForRecipient(input.newKey, priv, priv);
  }

  lemma StarAccepted(s: Signing, after: Org, users: Users, u: Uuid, before: Member, m: MemberView,
                     ownerBefore: Member, mo: MemberView, pins: Pins, epochs: Epochs)
    requires u in after.members && s.owner in after.members
    requires RowIsWrap(s, u, before, after.members[u], m)
    requires RowIsWrap(s, s.owner, ownerBefore, after.members[s.owner], mo) && ownerBefore.role == "owner"
    requires OwnerPublished(users, s.owner, s.priv)
    requires s.owner in pins && pins[s.owner] == IdentityPublic(s.priv)
    requires s.orgId in epochs ==> epochs[s.orgId] <= s.epoch
    ensures ChainVerdict(ChainFromServer(s.orgId, WrapChain(after, users, u, 0)), s.orgId, u, pins, epochs)
            == Ok(OrgKeyWrap(s.orgId, s.epoch, u, s.owner, before.role, OaepEncrypt(s.orgKey, RecipientKey(s, m).value)))
  {
    RotatedChain(after, users, s.owner, u);
    RotatedLink(s, after, users, u, before, m, pins);
    RotatedLink(s, after, users, s.owner, ownerBefore, mo, pins);
    hide RowIsWrap, PinnedBundle, PinnedSignature, ChainVerdict, TrustedChain, WrapChain, RecipientKey, OwnerPublished;
    var chain := ChainFromServer(s.orgId, WrapChain(after, users, u, 0));
    StarChainTrusted(chain, s.orgId, u, s.owner, pins);
    VerdictIsTrust(chain, s.orgId, u, pins, epochs);
  }

  /** One or two links that end in the owner's self-signed wrap make a trusted chain. */
  lemma StarChainTrusted(chain: seq<Link>, orgId: Uuid, u: Uuid, owner: Uuid, pins: Pins)
    requires |chain| == if u == owner then 1 else 2
    requires chain[0].wrap.recipient == u
    requires forall i :: 0 <= i < |chain| ==>
               && PinnedBundle(chain[i], pins) && PinnedSignature(chain[i], pins)
               && chain[i].wrap.orgId == orgId && chain[i].wrap.epoch == chain[0].wrap.epoch && chain[i].wrap.signer == owner
    requires var last := chain[|chain| - 1].wrap; last.recipient == owner && last.role == "owner"
    ensures TrustedChain(chain, orgId, u, pins)
  {
    hide PinnedBundle, PinnedSignature;
    if u != owner {
      assert VouchedByNext(chain, 0);
    }
  }

  /** The removed member is served no chain, and their private key opens no wrap in the organisation. */
  lemma RemovedLosesAccess(org: Org, users: Users, input: RotationInput, store: Revisions,
                           gone: Uuid, goneKey: PrivateKey, keys: map<Uuid, PrivateKey>, u: Uuid)
    requires PlanFor(input, store).Ok? && Lists(input.members, org, users)
    requires OwnerPublished(users, input.owner, input.priv)
    requires input.removeUser == Some(gone)
    requires RotationOutcome(org, PlanFor(input, store).value.rotation) == Rotated
    requires forall x :: x in org.members && x != gone ==> x in keys && HoldsKey(users, x, keys[x]) && keys[x] != goneKey
    ensures var after := RotatedOrg(org, input.owner, PlanFor(input, store).value.rotation);
            && WrapChain(after, users, gone, 0) == []
            && (u in after.members ==> OaepDecrypt(after.members[u].encryptedOrgKey, goneKey).None?)
  {
    var r := PlanFor(input, store).value.rotation;
    RotatedRows(org, input.owner, r);
    var after := RotatedOrg(org, input.owner, r);
    if u in after.members {
      var m := RotatedRowIsWrap(org, users, input, store, u);
      hide PlanFor, RotatedOrg, RotationOutcome;
      RecipientHoldsKey(SigningFor(input), m, users, keys[u]);
      OaepOpensOnlyForRecipient(input.newKey, keys[u], goneKey);
      hide RecipientKey;
    }
  }

  // ── Afterwards: items ──────────────────────────────────────────────────────

  /** With distinct ids, each row ends up with its own re-encrypted blob. */
  lemma {:induction false} ItemLands(rows: seq<ItemRow>, es: seq<ReencryptedItem>, n: nat, j: nat)
    requires |es| == |rows| && n <= |es| && j < |rows| && Distinct(RowIds(rows))
    requires forall i :: 0 <= i < |rows| ==> es[i].id == rows[i].id
    ensures ApplyItems(rows, es[..n])[j] ==
            if j < n then rows[j].(blob := es[j].blob, version := rows[j].version + 1) else rows[j]
  {
    if n > 0 {
      ItemLands(rows, es, n - 1, j);
      assert es[..n][..n - 1] == es[..n - 1];
      assert j != n - 1 ==> RowIds(rows)[j] != RowIds(rows)[n - 1];
    }
  }

  lemma RotatedItems(org: Org, input: RotationInput, store: Revisions, j: nat)
    requires PlanFor(input, store).Ok? && input.items == org.items && Distinct(RowIds(KeptRows(input)))
    requires j < |KeptRows(input)|
    ensures var plan := PlanFor(input, store).value;
            var rows, kept := RotatedOrg(org, input.owner, plan.rotation).items, KeptRows(input);
            && |rows| == |kept| == |plan.revisions|
            && rows[j].id == kept[j].id && rows[j].itemType == kept[j].itemType && rows[j].version == kept[j].version + 1
            && Reencrypts(input, kept[j], rows[j].blob, plan.revisions[j].1)
  {
    EverythingReencrypted(input, input.items, store);
    var r, kept := PlanFor(input, store).value.rotation, KeptRows(input);
    hide ReencryptAll, ResignAll, Reencrypts;
    forall i | 0 <= i < |org.items| ensures org.items[i].id in input.dropItems <==> org.items[i].id in r.deleteItems {
      DeletedIdsExact(input, org.items[i].id);
    }
    DropsAgree(org.items, input.dropItems, r.deleteItems);
    ItemLands(kept, r.items, |r.items|, j);
    assert r.items[..|r.items|] == r.items;
  }

  /**
   * Every kept item decrypts under the new key to its old plaintext, at a
   * revision above the one it had, on every device that has not seen a later one.
   */
  lemma ItemsSurvive(org: Org, input: RotationInput, store: Revisions, plan: RotationPlan, j: nat, s: Revisions)
    requires PlanFor(input, store) == Ok(plan) && input.items == org.items && Distinct(RowIds(KeptRows(input)))
    requires j < |KeptRows(input)| && j < |plan.revisions|
    requires SeenOr(s, KeptRows(input)[j].id, 0) <= plan.revisions[j].1
    ensures var rows, kept := RotatedOrg(org, input.owner, plan.rotation).items, KeptRows(input)[j];
            var b := OrgBinding(input.orgId, kept);
            var before := Unseal(kept.blob, b, input.oldKey, input.oldKey);
            && j < |rows| && OrgBinding(input.orgId, rows[j]) == b
            && before.Ok?
            && var now := Decrypt(rows[j].blob, b, input.newKey, input.newKey, s).0;
               && now.Ok?
               && now.value.plaintext == before.value.plaintext
               && now.value.revision > before.value.revision
  {
    RotatedItems(org, input, store, j);
    hide PlanFor, RotatedOrg, ItemAad;
    var row, kept := RotatedOrg(org, input.owner, plan.rotation).items[j], KeptRows(input)[j];
    var revision := plan.revisions[j].1;
    var b := OrgBinding(input.orgId, kept);
    var before := Unseal(kept.blob, b, input.oldKey, input.oldKey).value;
    EnvelopeRoundTrip(before.plaintext, b, revision, input.newKey, b, input.newKey, input.newKey);
    assert !IsLegacy(row.blob);
    hide Unseal, KeptRows, EncryptItemV2;
  }

  /** After a rotation to another key the retired key opens nothing the organisation holds, under any binding. */
  lemma RetiredKeyOpensNothing(org: Org, input: RotationInput, store: Revisions, plan: RotationPlan, row: ItemRow, c: Binding)
    requires PlanFor(input, store) == Ok(plan) && input.items == org.items && Distinct(RowIds(KeptRows(input)))
    requires input.newKey != input.oldKey && row in RotatedOrg(org, input.owner, plan.rotation).items
    ensures Unseal(row.blob, c, input.oldKey, input.oldKey).Err?
  {
    hide PlanFor, KeptRows, ItemAad;
    var rows := RotatedOrg(org, input.owner, plan.rotation).items;
    var j :| 0 <= j < |rows| && rows[j] == row;
    RotatedCount(org, input, store, plan);
    RotatedItems(org, input, store, j);
    hide RotatedOrg;
    var kept := KeptRows(input)[j];
    var b := OrgBinding(input.orgId, kept);
    var before := Unseal(kept.blob, b, input.oldKey, input.oldKey).value;
    EnvelopeRoundTrip(before.plaintext, b, plan.revisions[j].1, input.newKey, c, input.oldKey, input.oldKey);
  }

  lemma RotatedCount(org: Org, input: RotationInput, store: Revisions, plan: RotationPlan)
    requires PlanFor(input, store) == Ok(plan) && input.items == org.items
    ensures |RotatedOrg(org, input.owner, plan.rotation).items| == |KeptRows(input)|
  {
    hide ReencryptAll, ResignAll;
    forall i | 0 <= i < |org.items| ensures org.items[i].id in input.dropItems <==> org.items[i].id in plan.rotation.deleteItems {
      DeletedIdsExact(input, org.items[i].id);
    }
    DropsAgree(org.items, input.dropItems, plan.rotation.deleteItems);
  }

  // ── Ledger ─────────────────────────────────────────────────────────────────

  /** A plan accounts for everything the device knew: nothing known is silently left out. */
  lemma KnownIsAccountedFor(input: RotationInput, store: Revisions, id: Uuid)
    requires PlanFor(input, store).Ok?
    ensures id in input.known.items ==>
              || id in RowIds(KeptRows(input)) || id in input.dropItems
              || (id in PlanFor(input, store).value.gone.items && id in input.acknowledged.items)
    ensures id in input.known.members ==>
              || id in PlanFor(input, store).value.keepsAccess
              || Some(id) == input.removeUser
              || (id in PlanFor(input, store).value.gone.members && id in input.acknowledged.members)
  {
    hide ReencryptAll, ResignAll;
    var missingItems := Without(GoneItems(input), ToSet(input.acknowledged.items));
    var missingMembers := Without(GoneMembers(input), ToSet(input.acknowledged.members));
    assert missingItems == [] && missingMembers == [];
    if id in input.known.items && id in ItemIds(input.items) && id !in input.dropItems {
      InRowIds(input.items, id);
      InRowIds(KeptRows(input), id);
    }
    if id in input.known.members && id in ViewIds(input.members) && Some(id) != input.removeUser {
      var i :| 0 <= i < |input.members| && ViewIds(input.members)[i] == id;
      var remaining := Remaining(input.members, input.removeUser);
      assert input.members[i] in remaining;
      var k :| 0 <= k < |remaining| && remaining[k] == input.members[i];
      assert ViewIds(remaining)[k] == id;
    }
  }

  /** After the commit the ledger holds exactly the server's items and members, each once. */
  lemma LedgerIsExact(org: Org, users: Users, input: RotationInput, store: Revisions)
    requires PlanFor(input, store).Ok? && input.items == org.items && Lists(input.members, org, users)
    requires RotationOutcome(org, PlanFor(input, store).value.rotation) == Rotated
    ensures var plan := PlanFor(input, store).value;
            var after := RotatedOrg(org, input.owner, plan.rotation);
            var ledger := CommittedEntry(input.known, plan, input.dropItems);
            && ToSet(ledger.items) == ItemIds(after.items) && Distinct(ledger.items)
            && ToSet(ledger.members) == after.members.Keys && Distinct(ledger.members)
  {
    var plan := PlanFor(input, store).value;
    var after, ledger := RotatedOrg(org, input.owner, plan.rotation), CommittedEntry(input.known, plan, input.dropItems);
    forall id
      ensures id in ToSet(ledger.items) <==> id in ItemIds(after.items)
      ensures id in ToSet(ledger.members) <==> id in after.members.Keys
    {
      KnownIsAccountedFor(input, store, id);
      LedgerItem(org, input, store, id);
      LedgerMember(org, users, input, store, id);
    }
    hide PlanFor, RotatedOrg, RotationOutcome, ItemIds;
  }

  lemma LedgerMember(org: Org, users: Users, input: RotationInput, store: Revisions, id: Uuid)
    requires PlanFor(input, store).Ok? && Lists(input.members, org, users)
    requires id in input.known.members ==>
               || id in PlanFor(input, store).value.keepsAccess || Some(id) == input.removeUser
               || id in PlanFor(input, store).value.gone.members
    ensures var plan := PlanFor(input, store).value;
            id in CommittedEntry(input.known, plan, input.dropItems).members
            <==> id in RotatedOrg(org, input.owner, plan.rotation).members
  {
    hide ReencryptAll, ResignAll, WrapOf;
    var plan := PlanFor(input, store).value;
    RemainingIds(input.members, input.removeUser);
    var ledger := CommittedEntry(input.known, plan, input.dropItems);
    assert id in ledger.members <==> id in ToSet(ledger.members);
    assert id in plan.keepsAccess <==> id in ToSet(ViewIds(Remaining(input.members, input.removeUser)));
    assert id in plan.losesAccess <==> Some(id) == input.removeUser;
  }

  /** The rotated org holds exactly the kept rows, and the plan re-encrypts exactly those. */
  lemma RotatedItemIds(org: Org, input: RotationInput, store: Revisions, plan: RotationPlan, id: Uuid)
    requires PlanFor(input, store) == Ok(plan) && input.items == org.items
    ensures id in ItemIds(RotatedOrg(org, input.owner, plan.rotation).items) <==> id in RowIds(KeptRows(input))
    ensures ReencryptedIds(plan.rotation.items) == RowIds(KeptRows(input))
  {
    var kept, r := KeptRows(input), plan.rotation;
    EverythingReencrypted(input, input.items, store);
    hide ReencryptAll, ResignAll, Reencrypts;
    assert ReencryptedIds(r.items) == RowIds(kept);
    forall i | 0 <= i < |org.items| ensures org.items[i].id in input.dropItems <==> org.items[i].id in r.deleteItems {
      DeletedIdsExact(input, org.items[i].id);
    }
    hide PlanFor;
    DropsAgree(org.items, input.dropItems, r.deleteItems);
    AppliedIds(kept, r.items);
    InRowIds(RotatedOrg(org, input.owner, r).items, id);
  }

  lemma LedgerItem(org: Org, input: RotationInput, store: Revisions, id: Uuid)
    requires PlanFor(input, store).Ok? && input.items == org.items
    requires id in input.known.items ==>
               id in RowIds(KeptRows(input)) || id in input.dropItems || id in PlanFor(input, store).value.gone.items
    ensures var plan := PlanFor(input, store).value;
            id in CommittedEntry(input.known, plan, input.dropItems).items
            <==> id in ItemIds(RotatedOrg(org, input.owner, plan.rotation).items)
  {
    hide PlanFor, RotatedOrg, KeptRows, ItemIds;
    var plan := PlanFor(input, store).value;
    RotatedItemIds(org, input, store, plan, id);
    var ledger := CommittedEntry(input.known, plan, input.dropItems);
    assert id in ledger.items <==> id in ToSet(ledger.items);
  }

  lemma {:induction false} AppliedIds(rows: seq<ItemRow>, es: seq<ReencryptedItem>)
    ensures RowIds(ApplyItems(rows, es)) == RowIds(rows)
  {
    if es != [] {
      AppliedIds(rows, es[..|es| - 1]);
      var a := ApplyItems(rows, es[..|es| - 1]);
      assert forall i :: 0 <= i < |rows| ==> RowIds(a)[i] == a[i].id;
    }
  }
}
