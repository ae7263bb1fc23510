/**
 * The client side of an organisation: opening its key, re-signing wraps,
 * building a rotation and keeping the local ledger
 * (packages/ui/src/lib/org-trust.ts, packages/ui/src/lib/local-trust-state.ts).
 */
module OrgTrust {
  import opened Wrappers
  import opened Bytes
  import opened IdealCrypto
  import opened Identity
  import opened ItemEnvelope
  import opened OrgServer

  // ── Opening a key ──────────────────────────────────────────────────────────

  datatype Check =
    | Usable(wrap: OrgKeyWrap)
    | Confirm(signers: seq<KeyBundle>)
    | UnsignedWrap(canResign: bool)
    | Refused(error: ChainError)

  function CheckOrgKey(orgId: Uuid, chain: seq<WrapLink>, me: Uuid, role: string, pins: Pins, epochs: Epochs): Check {
    if |chain| > 0 && chain[0].recipient == me && chain[0].signature.None? then UnsignedWrap(role == "owner")
    else match ChainVerdict(ChainFromServer(orgId, chain), orgId, me, pins, epochs)
      case Ok(wrap) => Usable(wrap)
      case Err(Unconfirmed(signers)) => Confirm(signers)
      case Err(e) => Refused(e)
  }

  function EpochRecorded(epochs: Epochs, orgId: Uuid, epoch: int): Epochs {
    if epoch <= (if orgId in epochs then epochs[orgId] else 0) then epochs else epochs[orgId := epoch]
  }

  /** Pins and epochs this device keeps. */
  class TrustStores {
    var pins: Pins
    var epochs: Epochs

    /** Pin a key the user confirmed; a verified bundle with a different pin is refused. */
    method ConfirmKey(bundle: KeyBundle) returns (r: Result<VerifiedKey, KeyError>)
      modifies this`pins
      ensures r == VerifyMemberKey(bundle, old(pins))
      ensures pins == if r.Ok? && r.value.firstSeen then old(pins)[bundle.userId := bundle.identity.value] else old(pins)
      ensures forall u :: u in old(pins) ==> u in pins && pins[u] == old(pins)[u]
    {
      r := VerifyMemberKey(bundle, pins);
      if r.Ok? && r.value.firstSeen {
        pins := pins[bundle.userId := bundle.identity.value];
      }
    }

    method RecordEpoch(orgId: Uuid, epoch: int)
      modifies this`epochs
      ensures epochs == EpochRecorded(old(epochs), orgId, epoch)
    {
      var known := if orgId in epochs then epochs[orgId] else 0;
      if epoch <= known {
        return;
      }
      epochs := epochs[orgId := epoch];
    }

    /** `decrypt` is applied to a usable wrap only, and the epoch recorded only if it succeeds. */
    method OpenOrgKey(orgId: Uuid, chain: seq<WrapLink>, me: Uuid, role: string, decrypt: ByteString -> Option<OrgKey>)
      returns (check: Check, key: Option<OrgKey>)
      modifies this`epochs
      ensures check == CheckOrgKey(orgId, chain, me, role, pins, old(epochs))
      ensures key == if check.Usable? then decrypt(check.wrap.encryptedOrgKey) else None
      ensures epochs == if key.Some? then EpochRecorded(old(epochs), orgId, check.wrap.epoch) else old(epochs)
    {
      hide ChainVerdict, ChainFromServer;
      check := CheckOrgKey(orgId, chain, me, role, pins, epochs);
      key := None;
      if !check.Usable? {
        return;
      }
      key := decrypt(check.wrap.encryptedOrgKey);
      if key.Some? {
        RecordEpoch(orgId, check.wrap.epoch);
      }
    }
  }

  /** One call of openOrgKey: whatever the server served, whatever is pinned by then. */
  datatype Opening = Opening(orgId: Uuid, chain: seq<WrapLink>, me: Uuid, role: string, pins: Pins, decrypts: bool)

  function CheckOf(o: Opening, epochs: Epochs): Check {
    CheckOrgKey(o.orgId, o.chain, o.me, o.role, o.pins, epochs)
  }

  predicate Opens(o: Opening, epochs: Epochs) {
    CheckOf(o, epochs).Usable? && o.decrypts
  }

  function EpochsAt(epochs: Epochs, calls: seq<Opening>, n: nat): Epochs
    requires n <= |calls|
  {
    if n == 0 then epochs
    else
      var before := EpochsAt(epochs, calls, n - 1);
      if Opens(calls[n - 1], before) then EpochRecorded(before, calls[n - 1].orgId, CheckOf(calls[n - 1], before).wrap.epoch)
      else before
  }

  lemma UsableIsNoRollback(o: Opening, epochs: Epochs)
    requires CheckOf(o, epochs).Usable?
    ensures CheckOf(o, epochs).wrap.epoch >= 1
    ensures o.orgId in epochs ==> CheckOf(o, epochs).wrap.epoch >= epochs[o.orgId]
  {
    VerdictIsTrust(ChainFromServer(o.orgId, o.chain), o.orgId, o.me, o.pins, epochs);
    hide ChainVerdict, TrustedChain;
  }

  lemma {:induction false} EpochsOnlyRise(epochs: Epochs, calls: seq<Opening>, i: nat, j: nat, orgId: Uuid)
    requires i <= j <= |calls|
    ensures orgId in EpochsAt(epochs, calls, i) ==>
              orgId in EpochsAt(epochs, calls, j) && EpochsAt(epochs, calls, i)[orgId] <= EpochsAt(epochs, calls, j)[orgId]
    decreases j
  {
    hide CheckOf, Opens;
    if i < j {
      EpochsOnlyRise(epochs, calls, i, j - 1, orgId);
    }
  }

  /** Over any sequence of calls, against any server, the epochs accepted for an org never decrease. */
  lemma AcceptedEpochsNeverDecrease(epochs: Epochs, calls: seq<Opening>, i: nat, j: nat)
    requires i < j < |calls| && calls[i].orgId == calls[j].orgId
    requires Opens(calls[i], EpochsAt(epochs, calls, i)) && Opens(calls[j], EpochsAt(epochs, calls, j))
    ensures CheckOf(calls[i], EpochsAt(epochs, calls, i)).wrap.epoch <= CheckOf(calls[j], EpochsAt(epochs, calls, j)).wrap.epoch
  {
    hide CheckOf;
    UsableIsNoRollback(calls[i], EpochsAt(epochs, calls, i));
    UsableIsNoRollback(calls[j], EpochsAt(epochs, calls, j));
    EpochsOnlyRise(epochs, calls, i + 1, j, calls[i].orgId);
  }

  // ── Re-signing ─────────────────────────────────────────────────────────────

  /** A member as listed by the server: their row and their published keys. */
  datatype MemberView = MemberView(userId: Uuid, role: string, publicKey: Option<ByteString>,
                                   identity: Option<IdentityPublic>, signature: Option<Signature>)

  datatype Signing = Signing(orgId: Uuid, epoch: int, owner: Uuid, orgKey: OrgKey, pins: Pins, priv: PrivateKey)

  /** The RSA key to wrap to; None for members without a confirmed key. */
  function RecipientKey(s: Signing, m: MemberView): Option<ByteString> {
    if m.userId == s.owner then Some(SpkiOf(s.priv))
    else if m.publicKey.None? then None
    else match VerifyMemberKey(KeyBundle(m.userId, m.publicKey.value, m.identity, m.signature), s.pins)
      case Err(_) => None
      case Ok(v) => if v.firstSeen then None else Some(v.spki)
  }

  function WrapOf(s: Signing, m: MemberView, spki: ByteString): OrgKeyWrap {
    OrgKeyWrap(s.orgId, s.epoch, m.userId, s.owner, m.role, OaepEncrypt(s.orgKey, spki))
  }

  /** `threw`: some wrap could not be encoded for signing. */
  datatype Resigning = Resigning(wraps: seq<Rewrap>, skipped: seq<Uuid>, threw: bool)

  function ResignNext(s: Signing, m: MemberView, r: Resigning): Resigning {
    match RecipientKey(s, m)
    case None => r.(skipped := r.skipped + [m.userId])
    case Some(spki) =>
      var w := WrapOf(s, m, spki);
      match WrapMessage(w)
      case None => r.(threw := true)
      case Some(message) =>
        r.(wraps := r.wraps + [Rewrap(m.userId, w.encryptedOrgKey, Sign(message, s.priv), s.epoch)])
  }

  function ResignAll(s: Signing, members: seq<MemberView>): Resigning {
    if members == [] then Resigning([], [], false)
    else ResignNext(s, members[|members| - 1], ResignAll(s, members[..|members| - 1]))
  }

  method BuildResignedWraps(s: Signing, members: seq<MemberView>) returns (r: Resigning)
    ensures r == ResignAll(s, members)
  {
    hide WrapMessage, BundleMessage;
    var wraps: seq<Rewrap>, skipped: seq<Uuid>, threw := [], [], false;
    for i := 0 to |members|
      invariant Resigning(wraps, skipped, threw) == ResignAll(s, members[..i])
    {
      assert members[..i + 1][..i] == members[..i];
      var m := members[i];
      var spki := RecipientKey(s, m);
      if spki.None? {
        skipped := skipped + [m.userId];
        continue;
      }
      var w := WrapOf(s, m, spki.value);
      var message := WrapMessage(w);
      if message.None? {
        threw := true;
        continue;
      }
      wraps := wraps + [Rewrap(m.userId, w.encryptedOrgKey, Sign(message.value, s.priv), s.epoch)];
    }
    assert members[..|members|] == members;
    r := Resigning(wraps, skipped, threw);
  }

  // ── Building a rotation ────────────────────────────────────────────────────

  datatype LedgerEntry = LedgerEntry(items: seq<Uuid>, members: seq<Uuid>)

  datatype RotationInput = RotationInput(
    orgId: Uuid, owner: Uuid, currentEpoch: int, oldKey: OrgKey,
    items: seq<ItemRow>, members: seq<MemberView>, removeUser: Option<Uuid>,
    known: LedgerEntry, dropItems: seq<Uuid>, acknowledged: LedgerEntry,
    pins: Pins, priv: PrivateKey, newKey: OrgKey)

  datatype RotationError =
    | SetIncomplete(items: seq<Uuid>, members: seq<Uuid>)
    | UnconfirmedMembers(users: seq<Uuid>)
    | Undecryptable(ids: seq<Uuid>)
    | CannotEncode

  datatype RotationPlan = RotationPlan(
    rotation: Rotation, revisions: seq<(Uuid, int)>,
    keepsAccess: seq<Uuid>, losesAccess: seq<Uuid>, gone: LedgerEntry)

  function Without(s: seq<Uuid>, drop: set<Uuid>): (r: seq<Uuid>)
    ensures forall x :: x in r <==> x in s && x !in drop
    ensures |r| <= |s|
  {
    if s == [] then []
    else
      var r := Without(s[..|s| - 1], drop);
      assert s == s[..|s| - 1] + [s[|s| - 1]];
      if s[|s| - 1] in drop then r else r + [s[|s| - 1]]
  }

  function Remaining(members: seq<MemberView>, removed: Option<Uuid>): (r: seq<MemberView>)
    ensures forall m :: m in r <==> m in members && Some(m.userId) != removed
  {
    if members == [] then []
    else
      var n := |members| - 1;
      var r := Remaining(members[..n], removed);
      assert members == members[..n] + [members[n]];
      if Some(members[n].userId) == removed then r else r + [members[n]]
  }

  function ViewIds(members: seq<MemberView>): (r: seq<Uuid>)
    ensures |r| == |members|
  {
    seq(|members|, i requires 0 <= i < |members| => members[i].userId)
  }

  function ToSet<T>(s: seq<T>): set<T> {
    set x | x in s
  }

  function GoneItems(input: RotationInput): seq<Uuid> {
    Without(input.known.items, ItemIds(input.items) + ToSet(input.dropItems))
  }

  function GoneMembers(input: RotationInput): seq<Uuid> {
    Without(input.known.members, ToSet(ViewIds(input.members)))
  }

  function SigningFor(input: RotationInput): Signing {
    Signing(input.orgId, input.currentEpoch + 1, input.owner, input.newKey, input.pins, input.priv)
  }

  function OrgBinding(orgId: Uuid, row: ItemRow): Binding {
    Binding(OfOrg(orgId), row.id, row.itemType)
  }

  /** The item loop: the store it reads through, what it has re-encrypted, and what would not open. */
  datatype Progress = Progress(
    store: Revisions, items: seq<ReencryptedItem>, revisions: seq<(Uuid, int)>, undecryptable: seq<Uuid>, threw: bool)

  function ReencryptNext(input: RotationInput, row: ItemRow, p: Progress): Progress {
    if p.threw || row.id in input.dropItems then p
    else
      var b := OrgBinding(input.orgId, row);
      var (unsealed, store) := Decrypt(row.blob, b, input.oldKey, input.oldKey, p.store);
      match unsealed
      case Err(_) => p.(undecryptable := p.undecryptable + [row.id])
      case Ok(current) =>
        match EncryptVaultItem(current.plaintext, b, input.newKey, store, current.revision)
        case Err(_) => p.(store := store, threw := true)
        case Ok(blob) =>
          p.(store := store,
             items := p.items + [ReencryptedItem(row.id, blob)],
             revisions := p.revisions + [(row.id, NextRevision(store, row.id, current.revision))])
  }

  function ReencryptAll(input: RotationInput, items: seq<ItemRow>, store: Revisions): Progress {
    if items == [] then Progress(store, [], [], [], false)
    else ReencryptNext(input, items[|items| - 1], ReencryptAll(input, items[..|items| - 1], store))
  }

  /** Nothing after a throw is looked at. */
  lemma {:induction false} ThrowEnds(input: RotationInput, items: seq<ItemRow>, n: nat, store: Revisions)
    requires n <= |items| && ReencryptAll(input, items[..n], store).threw
    ensures ReencryptAll(input, items, store) == ReencryptAll(input, items[..n], store)
    decreases |items|
  {
    hide Decrypt, EncryptVaultItem;
    if n == |items| {
      assert items[..n] == items;
    } else {
      var init := items[..|items| - 1];
      assert init[..n] == items[..n];
      ThrowEnds(input, init, n, store);
    }
  }

  /** The plan, or the first reason there is none. */
  function PlanFor(input: RotationInput, store: Revisions): (r: Result<RotationPlan, RotationError>) {
    var missingItems := Without(GoneItems(input), ToSet(input.acknowledged.items));
    var missingMembers := Without(GoneMembers(input), ToSet(input.acknowledged.members));
    var remaining := Remaining(input.members, input.removeUser);
    var signed := ResignAll(SigningFor(input), remaining);
    var p := ReencryptAll(input, input.items, store);
    if missingItems != [] || missingMembers != [] then Err(SetIncomplete(missingItems, missingMembers))
    else if signed.threw then Err(CannotEncode)
    else if signed.skipped != [] then Err(UnconfirmedMembers(signed.skipped))
    else if p.threw then Err(CannotEncode)
    else if p.undecryptable != [] then Err(Undecryptable(p.undecryptable))
    else
      var deleted := Without(input.dropItems, ToSet(input.dropItems) - ItemIds(input.items));
      Ok(RotationPlan(
           Rotation(input.currentEpoch + 1, input.removeUser, signed.wraps, p.items, deleted),
           p.revisions,
           ViewIds(remaining),
           if input.removeUser.Some? then [input.removeUser.value] else [],
           LedgerEntry(GoneItems(input), GoneMembers(input))))
  }

  /** Items are read, and their marks raised, only once both lists are complete and every member is wrapped. */
  function StoreAfter(input: RotationInput, store: Revisions): Revisions {
    var missingItems := Without(GoneItems(input), ToSet(input.acknowledged.items));
    var missingMembers := Without(GoneMembers(input), ToSet(input.acknowledged.members));
    var signed := ResignAll(SigningFor(input), Remaining(input.members, input.removeUser));
    if missingItems != [] || missingMembers != [] || signed.threw || signed.skipped != [] then store
    else ReencryptAll(input, input.items, store).store
  }

  /** Reading items for a rotation only raises marks, and only those of listed items it does not drop. */
  lemma {:induction false} OnlyReadMarksRise(input: RotationInput, items: seq<ItemRow>, store: Revisions, id: Uuid)
    ensures var after := ReencryptAll(input, items, store).store;
            && after.v2Only == store.v2Only
            && SeenOr(after, id, -1) >= SeenOr(store, id, -1)
            && (SeenOr(after, id, -1) > SeenOr(store, id, -1) ==> id in ItemIds(items) && id !in input.dropItems)
  {
    hide ReencryptNext;
    if items != [] {
      var n := |items| - 1;
      OnlyReadMarksRise(input, items[..n], store, id);
      assert forall i :: 0 <= i < n ==> items[..n][i] == items[i];
      assert items[n].id in ItemIds(items);
      NextRaisesOwn(input, items[n], ReencryptAll(input, items[..n], store), id);
    }
  }

  lemma NextRaisesOwn(input: RotationInput, row: ItemRow, p: Progress, id: Uuid)
    ensures var after := ReencryptNext(input, row, p).store;
            && after.v2Only == p.store.v2Only
            && SeenOr(after, id, -1) >= SeenOr(p.store, id, -1)
            && (SeenOr(after, id, -1) > SeenOr(p.store, id, -1) ==> id == row.id && id !in input.dropItems)
  {
    hide Unseal, EncryptVaultItem;
  }

  /** Refuses to build a partial rotation; reading items through the store only raises what it has seen. */
  method BuildRotation(input: RotationInput, store: MemoryRevisionStore) returns (r: Result<RotationPlan, RotationError>)
    requires store.Valid()
    modifies store
    ensures store.Valid()
    ensures r == PlanFor(input, old(store.State()))
    ensures store.State() == StoreAfter(input, old(store.State()))
  {
    hide Decrypt, EncryptVaultItem, ResignAll;
    var goneItems, goneMembers := GoneItems(input), GoneMembers(input);
    var missingItems := Without(goneItems, ToSet(input.acknowledged.items));
    var missingMembers := Without(goneMembers, ToSet(input.acknowledged.members));
    if |missingItems| > 0 || |missingMembers| > 0 {
      return Err(SetIncomplete(missingItems, missingMembers));
    }
    var remaining := Remaining(input.members, input.removeUser);
    var signed := BuildResignedWraps(SigningFor(input), remaining);
    if signed.threw {
      return Err(CannotEncode);
    }
    if |signed.skipped| > 0 {
      return Err(UnconfirmedMembers(signed.skipped));
    }
    var p := ReencryptItems(input, store);
    if p.threw {
      return Err(CannotEncode);
    }
    if |p.undecryptable| > 0 {
      return Err(Undecryptable(p.undecryptable));
    }
    var deleted := Without(input.dropItems, ToSet(input.dropItems) - ItemIds(input.items));
    return Ok(RotationPlan(
                Rotation(input.currentEpoch + 1, input.removeUser, signed.wraps, p.items, deleted),
                p.revisions,
                ViewIds(remaining),
                if input.removeUser.Some? then [input.removeUser.value] else [],
                LedgerEntry(goneItems, goneMembers)));
  }

  method ReencryptItems(input: RotationInput, store: MemoryRevisionStore) returns (p: Progress)
    requires store.Valid()
    modifies store
    ensures store.Valid()
    ensures p == ReencryptAll(input, input.items, old(store.State())) && store.State() == p.store
  {
    hide Decrypt, EncryptVaultItem;
    p := Progress(Revisions(store.revisions, store.legacyClosed), [], [], [], false);
    for i := 0 to |input.items|
      invariant store.Valid()
      invariant !p.threw && p == ReencryptAll(input, input.items[..i], old(store.State())) && store.State() == p.store
    {
      assert input.items[..i + 1][..i] == input.items[..i];
      var row := input.items[i];
      if row.id in input.dropItems {
        continue;
      }
      var b := OrgBinding(input.orgId, row);
      ghost var before := store.State();
      var current := DecryptVaultItem(row.blob, b, input.oldKey, input.oldKey, store);
      if current.Err? {
        FailureRecordsNothing(row.blob, b, input.oldKey, input.oldKey, before);
        p := p.(undecryptable := p.undecryptable + [row.id]);
        continue;
      }
      var now := Revisions(store.revisions, store.legacyClosed);
      var sealed := EncryptVaultItem(current.value.plaintext, b, input.newKey, now, current.value.revision);
      if sealed.Err? {
        p := p.(store := now, threw := true);
        ThrowEnds(input, input.items, i + 1, old(store.State()));
        return;
      }
      p := Progress(now, p.items + [ReencryptedItem(row.id, sealed.value)],
                    p.revisions + [(row.id, NextRevision(now, row.id, current.value.revision))], p.undecryptable, p.threw);
    }
    assert input.items[..|input.items|] == input.items;
  }

  lemma FailureRecordsNothing(blob: Blob, b: Binding, key: ByteString, macKey: ByteString, s: Revisions)
    requires Decrypt(blob, b, key, macKey, s).0.Err?
    ensures Decrypt(blob, b, key, macKey, s).1 == s
  {
  }

  // ── Ledger ─────────────────────────────────────────────────────────────────

  /** `[...new Set([...a, ...b])]` */
  function Union(a: seq<Uuid>, b: seq<Uuid>): (r: seq<Uuid>)
    ensures ToSet(r) == ToSet(a) + ToSet(b)
    ensures Distinct(r)
  {
    Dedupe(a + b)
  }

  function Dedupe(s: seq<Uuid>): (r: seq<Uuid>)
    ensures ToSet(r) == ToSet(s)
    ensures Distinct(r)
  {
    if s == [] then []
    else
      var r, x := Dedupe(s[..|s| - 1]), s[|s| - 1];
      assert s == s[..|s| - 1] + [x];
      assert x in r <==> x in ToSet(r);
      assert ToSet(s) == ToSet(s[..|s| - 1]) + {x} && ToSet(r + [x]) == ToSet(r) + {x};
      if x in r then r else r + [x]
  }

  class OrgLedger {
    var entries: map<Uuid, LedgerEntry>

    function Entry(orgId: Uuid): LedgerEntry
      reads this
    {
      if orgId in entries then entries[orgId] else LedgerEntry([], [])
    }

    method Remember(orgId: Uuid, seen: LedgerEntry)
      modifies this
      ensures entries == old(entries)[orgId := LedgerEntry(Union(old(Entry(orgId)).items, seen.items),
                                                           Union(old(Entry(orgId)).members, seen.members))]
    {
      var e := Entry(orgId);
      entries := entries[orgId := LedgerEntry(Union(e.items, seen.items), Union(e.members, seen.members))];
    }

    method Forget(orgId: Uuid, gone: LedgerEntry)
      modifies this
      ensures entries == old(entries)[orgId := LedgerEntry(Without(old(Entry(orgId)).items, ToSet(gone.items)),
                                                           Without(old(Entry(orgId)).members, ToSet(gone.members)))]
    {
      var e := Entry(orgId);
      entries := entries[orgId := LedgerEntry(Without(e.items, ToSet(gone.items)), Without(e.members, ToSet(gone.members)))];
    }

    /** The store updates once the server accepted the plan: forget what went, remember what stayed. */
    method CommitRotation(orgId: Uuid, plan: RotationPlan, dropItems: seq<Uuid>)
      modifies this
      ensures Entry(orgId) == CommittedEntry(old(Entry(orgId)), plan, dropItems)
      ensures forall x :: x != orgId ==> (x in entries <==> x in old(entries)) && (x in entries ==> entries[x] == old(entries)[x])
    {
      Forget(orgId, LedgerEntry(dropItems + plan.gone.items, plan.losesAccess + plan.gone.members));
      Remember(orgId, LedgerEntry(ReencryptedIds(plan.rotation.items), plan.keepsAccess));
    }
  }

  function ReencryptedIds(items: seq<ReencryptedItem>): seq<Uuid> {
    seq(|items|, i requires 0 <= i < |items| => items[i].id)
  }

  function CommittedEntry(e: LedgerEntry, plan: RotationPlan, dropItems: seq<Uuid>): LedgerEntry {
    LedgerEntry(
      Union(Without(e.items, ToSet(dropItems + plan.gone.items)), ReencryptedIds(plan.rotation.items)),
      Union(Without(e.members, ToSet(plan.losesAccess + plan.gone.members)), plan.keepsAccess))
  }
}
