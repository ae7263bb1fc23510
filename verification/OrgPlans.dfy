/**
 * Whom the owner's client wraps to, and when it builds a rotation at all
 * (packages/ui/src/lib/org-trust.ts, packages/crypto/src/identity.ts).
 */
module OrgPlans {
  import opened Wrappers
  import opened Bytes
  import opened IdealCrypto
  import opened Identity
  import opened ItemEnvelope
  import opened OrgServer
  import opened OrgTrust
  import Rotations = OrgRotation
  import Utf8

  // ── Confirmed members ──────────────────────────────────────────────────────

  /** The owner, or a member whose key was signed by the identity the owner has pinned for them. */
  predicate Confirmed(s: Signing, m: MemberView) {
    || m.userId == s.owner
    || (m.publicKey.Some? && m.userId in s.pins && m.identity == Some(s.pins[m.userId]) &&
        m.signature == Some(Signature(s.pins[m.userId], BundleMessage(m.userId, m.publicKey.value))))
  }

  function KeyOf(s: Signing, m: MemberView): ByteString
    requires Confirmed(s, m)
  {
    if m.userId == s.owner then SpkiOf(s.priv) else m.publicKey.value
  }

  lemma RecipientIsConfirmed(s: Signing, m: MemberView)
    ensures RecipientKey(s, m) == if Confirmed(s, m) then Some(KeyOf(s, m)) else None
  {
    if m.userId != s.owner && m.publicKey.Some? && m.userId in s.pins {
      PinnedKeyIsSignedByPin(KeyBundle(m.userId, m.publicKey.value, m.identity, m.signature), s.pins);
    }
    hide BundleMessage;
  }

  /** The wrap can be encoded for signing. */
  predicate Encodes(s: Signing, m: MemberView) {
    1 <= s.epoch <= 0xffff_ffff && |Utf8.Encode(m.role)| <= 255
  }

  /** The signed wrap of the org key for a confirmed member. */
  ghost predicate IsWrap(s: Signing, m: MemberView, w: Rewrap)
    requires Confirmed(s, m)
  {
    var message := WrapMessage(OrgKeyWrap(s.orgId, s.epoch, m.userId, s.owner, m.role, OaepEncrypt(s.orgKey, KeyOf(s, m))));
    message.Some? && w == Rewrap(m.userId, OaepEncrypt(s.orgKey, KeyOf(s, m)), Sign(message.value, s.priv), s.epoch)
  }

  /** Exactly the unconfirmed members are skipped; every wrap is a confirmed member's, and every confirmed member has theirs. */
  lemma {:induction false} WrapsExactlyConfirmed(s: Signing, views: seq<MemberView>)
    ensures var r := ResignAll(s, views);
            && (forall u :: u in r.skipped <==> exists m :: m in views && m.userId == u && !Confirmed(s, m))
            && (forall w :: w in r.wraps <==> exists m :: m in views && Confirmed(s, m) && IsWrap(s, m, w))
            && (r.threw <==> exists m :: m in views && Confirmed(s, m) && !Encodes(s, m))
  {
    hide Confirmed, IsWrap, Encodes, RecipientKey, WrapMessage;
    if views != [] {
      var n := |views| - 1;
      assert views == views[..n] + [views[n]];
      WrapsExactlyConfirmed(s, views[..n]);
      OneMember(s, views[n], ResignAll(s, views[..n]));
      hide ResignNext;
    }
  }

  lemma OneMember(s: Signing, m: MemberView, r: Resigning)
    ensures var next := ResignNext(s, m, r);
            if !Confirmed(s, m) then next == r.(skipped := r.skipped + [m.userId])
            else if !Encodes(s, m) then next == r.(threw := true) && forall w :: !IsWrap(s, m, w)
            else exists w :: IsWrap(s, m, w) && next == r.(wraps := r.wraps + [w]) && forall x :: IsWrap(s, m, x) ==> x == w
  {
    RecipientIsConfirmed(s, m);
    hide RecipientKey, Confirmed;
    if RecipientKey(s, m).Some? {
      var w := WrapOf(s, m, RecipientKey(s, m).value);
      assert WrapMessage(w).Some? <==> Encodes(s, m);
      if Encodes(s, m) {
        var x := Rewrap(m.userId, w.encryptedOrgKey, Sign(WrapMessage(w).value, s.priv), s.epoch);
        hide WrapMessage, Encodes;
        assert IsWrap(s, m, x);
      }
    }
  }

  // ── Items a device can move ────────────────────────────────────────────────

  /** The row opens with the old key, is no rollback for the device, and leaves room for the next revision. */
  predicate Movable(input: RotationInput, row: ItemRow, store: Revisions) {
    var r := Unseal(row.blob, OrgBinding(input.orgId, row), input.oldKey, input.oldKey);
    && r.Ok? && SeenOr(store, row.id, 0) <= r.value.revision < MAX_SAFE_INTEGER
    && !(IsLegacy(row.blob) && store.v2Only) && |Utf8.Encode(row.itemType)| <= 255
  }

  lemma MovableMoves(input: RotationInput, row: ItemRow, p: Progress)
    requires Movable(input, row, p.store) && !p.threw
    ensures var q := ReencryptNext(input, row, p); q.undecryptable == p.undecryptable && !q.threw
  {
    var b := OrgBinding(input.orgId, row);
    var current := Unseal(row.blob, b, input.oldKey, input.oldKey).value;
    assert current.plaintext.itemType == row.itemType;
    hide Unseal;
    var (r, store) := Decrypt(row.blob, b, input.oldKey, input.oldKey, p.store);
    assert r == Ok(current) && store == p.store.Recorded(row.id, current.revision);
    RevisionNatural(row.blob, b, input.oldKey);
    assert NextRevision(store, row.id, current.revision) == current.revision + 1;
    assert ItemAad(b, current.revision + 1).Some?;
  }

  lemma RevisionNatural(blob: Blob, b: Binding, key: ByteString)
    requires Unseal(blob, b, key, key).Ok?
    ensures Unseal(blob, b, key, key).value.revision >= 0
  {
  }

  /** Reading other items does not move a row's mark. */
  lemma MovableLater(input: RotationInput, items: seq<ItemRow>, row: ItemRow, store: Revisions)
    requires Movable(input, row, store) && row.id !in ItemIds(items)
    ensures Movable(input, row, ReencryptAll(input, items, store).store)
  {
    OnlyReadMarksRise(input, items, store, row.id);
    RevisionNatural(row.blob, OrgBinding(input.orgId, row), input.oldKey);
    hide ReencryptAll, Unseal;
  }

  lemma {:induction false} AllMove(input: RotationInput, items: seq<ItemRow>, store: Revisions)
    requires Distinct(Rotations.RowIds(items))
    requires forall i :: 0 <= i < |items| && items[i].id !in input.dropItems ==> Movable(input, items[i], store)
    ensures var p := ReencryptAll(input, items, store); p.undecryptable == [] && !p.threw
  {
    hide Movable, ReencryptNext;
    if items != [] {
      var n := |items| - 1;
      var init, row := items[..n], items[n];
      assert forall i :: 0 <= i < n ==> init[i] == items[i] && Rotations.RowIds(init)[i] == Rotations.RowIds(items)[i];
      AllMove(input, init, store);
      var p := ReencryptAll(input, init, store);
      if row.id in input.dropItems {
        DroppedIsSkipped(input, row, p);
      } else {
        forall i | 0 <= i < n ensures init[i].id != row.id {
          assert Rotations.RowIds(items)[i] != Rotations.RowIds(items)[n];
        }
        MovableLater(input, init, row, store);
        MovableMoves(input, row, p);
      }
    }
  }

  lemma DroppedIsSkipped(input: RotationInput, row: ItemRow, p: Progress)
    requires row.id in input.dropItems
    ensures ReencryptNext(input, row, p) == p
  {
  }

  lemma NoneIn(s: seq<Uuid>)
    ensures s == [] <==> forall x :: x !in s
  {
    if s != [] {
      assert s[0] in s;
    }
  }

  /**
   * A plan is built whenever nothing known is missing, every remaining member is
   * confirmed and every item that is not dropped can be moved; and only if every
   * remaining member is confirmed.
   */
  lemma PlanIsMade(input: RotationInput, store: Revisions)
    requires Distinct(Rotations.RowIds(input.items))
    requires forall id :: id in input.known.items ==> id in ItemIds(input.items) || id in input.dropItems || id in input.acknowledged.items
    requires forall u :: u in input.known.members ==> u in ViewIds(input.members) || u in input.acknowledged.members
    requires forall i :: 0 <= i < |input.items| && input.items[i].id !in input.dropItems ==> Movable(input, input.items[i], store)
    requires forall m :: m in input.members && Some(m.userId) != input.removeUser ==> Encodes(SigningFor(input), m)
    ensures PlanFor(input, store).Ok? <==>
            forall m :: m in input.members && Some(m.userId) != input.removeUser ==> Confirmed(SigningFor(input), m)
  {
    AllMove(input, input.items, store);
    var remaining := Remaining(input.members, input.removeUser);
    WrapsExactlyConfirmed(SigningFor(input), remaining);
    hide Confirmed, Encodes, Movable, ReencryptAll, ResignAll, IsWrap;
    var items := Without(GoneItems(input), ToSet(input.acknowledged.items));
    var members := Without(GoneMembers(input), ToSet(input.acknowledged.members));
    NoneIn(items);
    NoneIn(members);
    var signed := ResignAll(SigningFor(input), remaining);
    if signed.skipped != [] {
      assert signed.skipped[0] in signed.skipped;
    }
    assert forall m :: m in remaining && !Confirmed(SigningFor(input), m) ==> m.userId in signed.skipped;
  }

  // ── Why there is no plan ───────────────────────────────────────────────────

  /** The row opens with the old key and is no rollback for the device. */
  predicate Readable(input: RotationInput, row: ItemRow, store: Revisions) {
    Decrypt(row.blob, OrgBinding(input.orgId, row), input.oldKey, input.oldKey, store).0.Ok?
  }

  lemma ReadableLater(input: RotationInput, items: seq<ItemRow>, row: ItemRow, store: Revisions)
    requires row.id !in ItemIds(items)
    ensures Readable(input, row, store) <==> Readable(input, row, ReencryptAll(input, items, store).store)
  {
    OnlyReadMarksRise(input, items, store, row.id);
    if Unseal(row.blob, OrgBinding(input.orgId, row), input.oldKey, input.oldKey).Ok? {
      RevisionNatural(row.blob, OrgBinding(input.orgId, row), input.oldKey);
    }
    hide ReencryptAll, Unseal;
  }

  predicate Unreadable(input: RotationInput, items: seq<ItemRow>, store: Revisions, i: nat, id: Uuid) {
    i < |items| && items[i].id == id && id !in input.dropItems && !Readable(input, items[i], store)
  }

  /** What is reported as undecryptable is what does not open and is not dropped. */
  lemma {:induction false} UndecryptableAreNamed(input: RotationInput, items: seq<ItemRow>, store: Revisions, id: Uuid)
    requires Distinct(Rotations.RowIds(items)) && !ReencryptAll(input, items, store).threw
    ensures id in ReencryptAll(input, items, store).undecryptable <==> exists i: nat :: Unreadable(input, items, store, i, id)
  {
    hide Readable;
    if items != [] {
      var n := |items| - 1;
      var init, row := items[..n], items[n];
      var p := ReencryptAll(input, init, store);
      assert forall i :: 0 <= i < n ==> init[i] == items[i] && Rotations.RowIds(init)[i] == Rotations.RowIds(items)[i];
      TurnReports(input, row, p);
      hide ReencryptNext;
      UndecryptableAreNamed(input, init, store, id);
      forall i | 0 <= i < n ensures init[i].id != row.id {
        assert Rotations.RowIds(items)[i] != Rotations.RowIds(items)[n];
      }
      ReadableLater(input, init, row, store);
      assert forall i: nat :: i < n ==> Unreadable(input, items, store, i, id) == Unreadable(input, init, store, i, id);
      assert Unreadable(input, items, store, n, id) <==> id == row.id && id !in input.dropItems && !Readable(input, row, p.store);
    }
  }

  lemma TurnReports(input: RotationInput, row: ItemRow, p: Progress)
    ensures p.threw ==> ReencryptNext(input, row, p).threw
    ensures !ReencryptNext(input, row, p).threw ==>
              ReencryptNext(input, row, p).undecryptable ==
              if row.id in input.dropItems || Readable(input, row, p.store) then p.undecryptable else p.undecryptable + [row.id]
  {
    hide Decrypt, EncryptVaultItem;
  }

  /** A refusal names its cause in full: what is missing, whose key is not confirmed, or what does not open. */
  lemma RefusalNamesCause(input: RotationInput, store: Revisions)
    requires PlanFor(input, store).Err?
    ensures var e := PlanFor(input, store).error;
            match e
            case SetIncomplete(items, members) =>
              && (forall id :: id in items <==>
                    id in input.known.items && id !in ItemIds(input.items) && id !in input.dropItems && id !in input.acknowledged.items)
              && (forall u :: u in members <==>
                    u in input.known.members && u !in ViewIds(input.members) && u !in input.acknowledged.members)
            case UnconfirmedMembers(users) =>
              forall u :: u in users <==>
                exists m :: m in input.members && m.userId == u && Some(u) != input.removeUser && !Confirmed(SigningFor(input), m)
            case Undecryptable(ids) =>
              Distinct(Rotations.RowIds(input.items)) ==>
                forall id :: id in ids <==> exists i: nat :: Unreadable(input, input.items, store, i, id)
            case CannotEncode => true
  {
    var e := PlanFor(input, store).error;
    if e.Undecryptable? && Distinct(Rotations.RowIds(input.items)) {
      forall id ensures id in e.ids <==> exists i: nat :: Unreadable(input, input.items, store, i, id) {
        UndecryptableAreNamed(input, input.items, store, id);
      }
    }
    if e.UnconfirmedMembers? {
      WrapsExactlyConfirmed(SigningFor(input), Remaining(input.members, input.removeUser));
    }
    hide ReencryptAll, ResignAll, Confirmed, IsWrap, Encodes, Unreadable;
  }
}
