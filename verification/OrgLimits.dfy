/**
 * Inputs on which the organisation protocol falls short: chains that grow past
 * what clients accept, creations without a signature, and items that share an
 * id (crates/nopass-api/src/db/orgs.rs, crates/nopass-api/src/routes/orgs.rs).
 */
module OrgLimits {
  import opened Wrappers
  import opened Bytes
  import opened IdealCrypto
  import opened Identity
  import opened OrgServer
  import opened OrgGraph
  import opened ItemEnvelope
  import opened OrgTrust
  import opened OrgAgreement
  import Rotations = OrgRotation
  import Utf8

  // ── Nested invitations ─────────────────────────────────────────────────────

  function UserId(n: nat): (u: Uuid)
    requires n < 256
    ensures u[15] == n
  {
    seq(15, _ => 0) + [n]
  }

  const ORG: Uuid := UserId(255)
  const SOME_SIGNATURE := Signature(IdentityPublic([]), [])

  /** Users 0 to n have published a key. */
  predicate Published(users: Users, n: nat)
    requires n < 256
  {
    forall i: nat :: i <= n ==> UserId(i) in users && users[UserId(i)].publicKey.Some?
  }

  function CreateByFirst(): Request {
    CreateOrg(UserId(0), ORG, [], [], Some(SOME_SIGNATURE), Some(1))
  }

  function InviteByPrevious(n: nat): Request
    requires 1 <= n < 256
  {
    Invite(UserId(n - 1), ORG, UserId(n), "admin", Rewrap(UserId(n), [], SOME_SIGNATURE, 1), true)
  }

  /** User 0 creates an organisation; each user invites the next one as an admin, who accepts. */
  function Nested(n: nat): (reqs: seq<Request>)
    requires n < 256
  {
    if n == 0 then [CreateByFirst()] else Nested(n - 1) + [InviteByPrevious(n)] + [Accept(UserId(n), ORG)]
  }

  function RowOf(n: nat): Member
    requires n < 256
  {
    Member(if n == 0 then "owner" else "admin", Active, [], Some(SOME_SIGNATURE), Some(1),
           if n == 0 then None else Some(UserId(n - 1)))
  }

  function Tower(n: nat): Members
    requires n < 256
  {
    if n == 0 then map[UserId(0) := RowOf(0)] else Tower(n - 1)[UserId(n) := RowOf(n)]
  }

  lemma UserIdsDiffer(i: nat, j: nat)
    requires i < 256 && j < 256 && i != j
    ensures UserId(i) != UserId(j)
  {
    assert UserId(i)[15] != UserId(j)[15];
  }

  lemma {:induction false} TowerRow(n: nat, i: nat)
    requires i <= n < 256
    ensures UserId(i) in Tower(n) && Tower(n)[UserId(i)] == RowOf(i)
    decreases n
  {
    hide UserId, RowOf;
    if i < n {
      TowerRow(n - 1, i);
      UserIdsDiffer(i, n);
    }
  }

  lemma {:induction false} TowerUsers(n: nat, u: Uuid) returns (i: nat)
    requires n < 256 && u in Tower(n)
    ensures i <= n && u == UserId(i) && Tower(n)[u] == RowOf(i)
  {
    hide UserId, RowOf;
    if u == UserId(n) {
      i := n;
    } else {
      i := TowerUsers(n - 1, u);
    }
  }

  function OneOrg(users: Users, members: Members): Db {
    Db(map[ORG := Org(1, members, [])], users)
  }

  lemma InviteStep(users: Users, members: Members, n: nat)
    requires 1 <= n < 256 && Published(users, n) && UserId(n) !in members
    requires UserId(n - 1) in members && members[UserId(n - 1)] == RowOf(n - 1)
    ensures Handle(OneOrg(users, members), InviteByPrevious(n)) == OneOrg(users, members[UserId(n) := RowOf(n).(status := Pending)])
  {
    hide UserId;
    assert UserId(n) in users && users[UserId(n)].publicKey.Some?;
    hide Published;
  }

  lemma AcceptStep(users: Users, members: Members, u: Uuid)
    requires u in members && members[u].status == Pending
    ensures Handle(OneOrg(users, members), Accept(u, ORG)) == OneOrg(users, members[u := members[u].(status := Active)])
  {
    hide UserId;
  }

  /** One more invitation and its acceptance put one more row on top. */
  lemma TowerGrows(users: Users, n: nat)
    requires 1 <= n < 256 && Published(users, n)
    ensures Handle(Handle(OneOrg(users, Tower(n - 1)), InviteByPrevious(n)), Accept(UserId(n), ORG)) == OneOrg(users, Tower(n))
  {
    hide UserId, Handle, Published;
    TowerRow(n - 1, n - 1);
    var members, u := Tower(n - 1), UserId(n);
    if u in members {
      var i := TowerUsers(n - 1, u);
      UserIdsDiffer(i, n);
    }
    InviteStep(users, members, n);
    var invited := members[u := RowOf(n).(status := Pending)];
    AcceptStep(users, invited, u);
    assert invited[u := RowOf(n)] == members[u := RowOf(n)];
  }

  /** The server has no limit of its own: the run builds a tower as high as there are users to invite. */
  lemma {:induction false} NestedBuildsTower(users: Users, n: nat)
    requires n < 256 && Published(users, n)
    ensures Run(Db(map[], users), Nested(n)) == OneOrg(users, Tower(n))
  {
    if n == 0 {
      FirstRow(users);
    } else {
      NestedBuildsTower(users, n - 1);
      TowerGrows(users, n);
      hide Handle, Tower, Published;
      var reqs, last := Nested(n - 1) + [InviteByPrevious(n)], Accept(UserId(n), ORG);
      assert (reqs + [last])[..|reqs|] == reqs && reqs[..|reqs| - 1] == Nested(n - 1);
    }
  }

  lemma FirstRow(users: Users)
    requires Published(users, 0)
    ensures Run(Db(map[], users), Nested(0)) == OneOrg(users, Tower(0))
  {
    var db, reqs := Db(map[], users), [CreateByFirst()];
    assert reqs[..0] == [] && Run(db, reqs) == Handle(Run(db, []), CreateByFirst());
    assert users[UserId(0) := users[UserId(0)]] == users;
  }

  lemma {:induction false} TowerHeight(m: nat, n: nat)
    requires n <= m < 256
    ensures Climbs(Tower(m), UserId(n), n)
    decreases n
  {
    hide UserId, Tower;
    TowerRow(m, n);
    if n > 0 {
      TowerHeight(m, n - 1);
      TowerRow(m, n - 1);
    }
  }

  lemma {:induction false} TowerAncestor(m: nat, n: nat, i: nat)
    requires i <= n <= m < 256
    ensures Ancestor(Tower(m), UserId(n), i) == UserId(n - i)
    decreases i
  {
    hide UserId, Tower;
    if i > 0 {
      TowerRow(m, n);
      TowerAncestor(m, n - 1, i - 1);
    }
  }

  lemma TowerIsSigned(n: nat)
    requires n < 256
    ensures PathSigned(Tower(n), UserId(n), n)
  {
    hide UserId, Tower;
    forall i: nat | i <= n
      ensures var a := Ancestor(Tower(n), UserId(n), i);
              a in Tower(n) && Tower(n)[a].signature.Some? && Tower(n)[a].epoch.Some?
    {
      TowerAncestor(n, n, i);
      TowerRow(n, n - i);
    }
  }

  /**
   * The last of `n` nested invitations, all signed at the current epoch, is
   * served a chain that passes every structural check up to n = 15, and that
   * clients refuse as too long from 16 on, whatever they have pinned.
   */
  lemma NestedInvitationsHitTheLimit(users: Users, n: nat, pins: Pins, epochs: Epochs)
    requires n < 256 && Published(users, n)
    ensures var after := Run(Db(map[], users), Nested(n));
            && ORG in after.orgs
            && var chain := ChainFromServer(ORG, WrapChain(after.orgs[ORG], after.users, UserId(n), 0));
               && (StructureHolds(chain, ORG, UserId(n)) <==> n <= 15)
               && (n >= 16 ==> ChainVerdict(chain, ORG, UserId(n), pins, epochs) == Err(TooLong))
  {
    hide Climbs, PathSigned, Nested, Run, StructureHolds;
    NestedBuildsTower(users, n);
    TowerHeight(n, n);
    TowerIsSigned(n);
    TowerIsSound(users, n);
    var org := Org(1, Tower(n), []);
    ServedChainHolds(org, users, ORG, UserId(n), n);
    LongPathIsTooLong(org, users, ORG, UserId(n), n, pins, epochs);
  }

  lemma TowerIsSound(users: Users, n: nat)
    requires n < 256 && Published(users, n)
    ensures HaveKeys(Tower(n), users) && EpochsCurrent(Org(1, Tower(n), []))
  {
    hide UserId, Tower;
    forall u | u in Tower(n) ensures u in users && users[u].publicKey.Some? && Tower(n)[u].epoch == Some(1) {
      var i := TowerUsers(n, u);
    }
  }

  /** A member at height 16 or more is refused by every client. */
  lemma LongPathIsTooLong(org: Org, users: Users, orgId: Uuid, u: Uuid, n: nat, pins: Pins, epochs: Epochs)
    requires Climbs(org.members, u, n) && HaveKeys(org.members, users)
    ensures n >= MAX_CHAIN ==>
              ChainVerdict(ChainFromServer(orgId, WrapChain(org, users, u, 0)), orgId, u, pins, epochs) == Err(TooLong)
  {
    ChainIsPath(org, users, u, n, 0);
    hide WrapChain, Climbs;
    var chain := ChainFromServer(orgId, WrapChain(org, users, u, 0));
    assert Ancestor(org.members, u, 0) == u;
    assert chain[0] == LinkFromServer(orgId, LinkOf(org, users, u));
  }

  // ── Unsigned creation ──────────────────────────────────────────────────────

  /** A creation that leaves the signature or the epoch out is stored, and its owner's own chain is refused as unsigned. */
  lemma UnsignedCreationIsRefused(db: Db, caller: Uuid, orgId: Uuid, publicKey: ByteString, encryptedOrgKey: ByteString,
                                  signature: Option<Signature>, epoch: Option<int>, pins: Pins, epochs: Epochs)
    requires caller in db.users && orgId !in db.orgs && (epoch.Some? ==> epoch.value >= 1)
    requires signature.None? || epoch.None?
    ensures var after := Handle(db, CreateOrg(caller, orgId, publicKey, encryptedOrgKey, signature, epoch));
            && orgId in after.orgs
            && ChainVerdict(ChainFromServer(orgId, WrapChain(after.orgs[orgId], after.users, caller, 0)), orgId, caller, pins, epochs)
               == Err(Unsigned)
  {
    var after := Handle(db, CreateOrg(caller, orgId, publicKey, encryptedOrgKey, signature, epoch));
    var chain := ChainFromServer(orgId, WrapChain(after.orgs[orgId], after.users, caller, 0));
    assert |chain| == 1 && StructureProblem(chain, 0, orgId) == Some(Unsigned);
  }

  // ── Items that share an id ─────────────────────────────────────────────────

  const EMPTY := LedgerEntry([], [])

  /** The rows two members own with one id and one blob: ids are unique per user only. */
  function SharedRows(owner: Uuid, other: Uuid, id: Uuid, blob: Blob): seq<ItemRow> {
    [ItemRow(id, owner, "login", blob, 1), ItemRow(id, other, "login", blob, 1)]
  }

  /** An active member whose row carries `key`, signed at epoch 1. */
  function SignedRow(orgId: Uuid, u: Uuid, role: string, inviter: Option<Uuid>, key: OrgKey, privs: Privs): Member {
    var row := Member(role, Active, OaepEncrypt(key, SpkiOf(privs(u))), None, Some(1), inviter);
    var s := SignerOf(u, row);
    var message := WrapMessage(OrgKeyWrap(orgId, 1, u, s, role, row.encryptedOrgKey));
    row.(signature := if message.Some? then Some(Sign(message.value, privs(s))) else None)
  }

  /** The owner and a member invited by the owner. */
  function TwoMembers(orgId: Uuid, owner: Uuid, other: Uuid, key: OrgKey, privs: Privs, items: seq<ItemRow>): Org {
    Org(1, map[owner := SignedRow(orgId, owner, "owner", None, key, privs), other := SignedRow(orgId, other, "member", Some(owner), key, privs)],
        items)
  }

  function PublishedKeys(u: Uuid, privs: Privs): UserKeys {
    var b := PublishedBundle(u, privs(u));
    UserKeys(Some(b.publicKey), b.identity, b.signature)
  }

  function ViewOf(u: Uuid, role: string, privs: Privs): MemberView {
    var b := PublishedBundle(u, privs(u));
    MemberView(u, role, Some(b.publicKey), b.identity, b.signature)
  }

  /** The owner, who has the member pinned, rotates the key of what the server lists, dropping and removing nothing. */
  function PlainRotation(orgId: Uuid, owner: Uuid, other: Uuid, privs: Privs, oldKey: OrgKey, newKey: OrgKey, items: seq<ItemRow>): RotationInput {
    RotationInput(orgId, owner, 1, oldKey, items, [ViewOf(owner, "owner", privs), ViewOf(other, "member", privs)], None, EMPTY, [], EMPTY,
                  map[other := IdentityPublic(privs(other))], privs(owner), newKey)
  }

  lemma RowIsSigned(orgId: Uuid, u: Uuid, role: string, inviter: Option<Uuid>, key: OrgKey, privs: Privs)
    requires role == "owner" || role == "member"
    ensures Carries(orgId, 1, key, privs, u, SignedRow(orgId, u, role, inviter, key, privs))
  {
    Utf8.EncodeWidth(role);
  }

  lemma TwoMembersShare(orgId: Uuid, owner: Uuid, other: Uuid, key: OrgKey, privs: Privs, items: seq<ItemRow>)
    ensures owner != other ==> Shares(orgId, TwoMembers(orgId, owner, other, key, privs, items), key, privs)
  {
    RowIsSigned(orgId, owner, "owner", None, key, privs);
    RowIsSigned(orgId, other, "member", Some(owner), key, privs);
    hide Carries, SignedRow;
  }

  lemma MemberIsWrapped(s: Signing, u: Uuid, role: string, privs: Privs, r: Resigning)
    requires role == "owner" || role == "member"
    requires s.priv == privs(s.owner) && s.epoch == 2 && (u == s.owner || (u in s.pins && s.pins[u] == IdentityPublic(privs(u))))
    ensures var next := ResignNext(s, ViewOf(u, role, privs), r); next.skipped == r.skipped && next.threw == r.threw
  {
    Utf8.EncodeWidth(role);
    var view := ViewOf(u, role, privs);
    hide BundleMessage;
    assert RecipientKey(s, view).Some?;
    assert WrapMessage(WrapOf(s, view, RecipientKey(s, view).value)).Some?;
  }

  lemma BothAreWrapped(s: Signing, other: Uuid, privs: Privs)
    requires s.priv == privs(s.owner) && s.epoch == 2 && other in s.pins && s.pins[other] == IdentityPublic(privs(other))
    ensures var r := ResignAll(s, [ViewOf(s.owner, "owner", privs), ViewOf(other, "member", privs)]); r.skipped == [] && !r.threw
  {
    var views := [ViewOf(s.owner, "owner", privs), ViewOf(other, "member", privs)];
    assert views[..1] == [views[0]] && views[..1][..0] == [];
    hide ResignNext;
    MemberIsWrapped(s, s.owner, "owner", privs, ResignAll(s, []));
    MemberIsWrapped(s, other, "member", privs, ResignAll(s, views[..1]));
  }

  lemma SealsAt(p: Plaintext, b: Binding, revision: int, key: ByteString)
    requires p.itemType == b.itemType == "login" && ValidRevision(revision)
    ensures EncryptItemV2(p, b, revision, key).Ok? && !IsLegacy(EncryptItemV2(p, b, revision, key).value)
  {
    Utf8.EncodeWidth("login");
  }

  /** A row sealed at revision 1 is re-encrypted, by a device that has seen no more of it. */
  lemma RowReencrypts(input: RotationInput, row: ItemRow, p: Progress, text: Plaintext)
    requires row.itemType == text.itemType == "login" && input.dropItems == []
    requires EncryptItemV2(text, OrgBinding(input.orgId, row), 1, input.oldKey) == Ok(row.blob)
    requires SeenOr(p.store, row.id, 0) <= 1 && !p.store.v2Only && !p.threw
    ensures var q := ReencryptNext(input, row, p);
            && q.undecryptable == p.undecryptable && q.threw == p.threw
            && q.store == p.store.Recorded(row.id, 1)
  {
    var b := OrgBinding(input.orgId, row);
    EnvelopeRoundTrip(text, b, 1, input.oldKey, b, input.oldKey, input.oldKey);
    SealsAt(text, b, 2, input.newKey);
    hide Unseal, EncryptItemV2;
    assert Decrypt(row.blob, b, input.oldKey, input.oldKey, p.store) == (Ok(DecryptedItem(text, 1, 2)), p.store.Recorded(row.id, 1));
    assert NextRevision(p.store.Recorded(row.id, 1), row.id, 1) == 2;
  }

  lemma SharedRowsReencrypt(input: RotationInput, owner: Uuid, other: Uuid, id: Uuid, text: Plaintext, blob: Blob)
    requires text.itemType == "login" && input.dropItems == []
    requires EncryptItemV2(text, Binding(OfOrg(input.orgId), id, "login"), 1, input.oldKey) == Ok(blob)
    ensures var p := ReencryptAll(input, SharedRows(owner, other, id, blob), Revisions(map[], false));
            p.undecryptable == [] && !p.threw
  {
    hide EncryptItemV2, ReencryptNext;
    var rows, store := SharedRows(owner, other, id, blob), Revisions(map[], false);
    assert rows[..1] == [rows[0]] && rows[..1][..0] == [];
    var none := ReencryptAll(input, [], store);
    RowReencrypts(input, rows[0], none, text);
    var one := ReencryptAll(input, rows[..1], store);
    assert one == ReencryptNext(input, rows[0], none);
    RowReencrypts(input, rows[1], one, text);
  }

  lemma SharedPlanIsMade(orgId: Uuid, owner: Uuid, other: Uuid, id: Uuid, privs: Privs, oldKey: OrgKey, newKey: OrgKey, text: Plaintext, blob: Blob)
    requires text.itemType == "login" && owner != other
    requires EncryptItemV2(text, Binding(OfOrg(orgId), id, "login"), 1, oldKey) == Ok(blob)
    ensures PlanFor(PlainRotation(orgId, owner, other, privs, oldKey, newKey, SharedRows(owner, other, id, blob)), Revisions(map[], false)).Ok?
  {
    hide EncryptItemV2, ReencryptAll, ResignAll;
    var input := PlainRotation(orgId, owner, other, privs, oldKey, newKey, SharedRows(owner, other, id, blob));
    SharedRowsReencrypt(input, owner, other, id, text, blob);
    BothAreWrapped(SigningFor(input), other, privs);
    NobodyRemoved(input.members);
  }

  lemma {:induction false} NobodyRemoved(members: seq<MemberView>)
    ensures Remaining(members, None) == members
  {
    if members != [] {
      NobodyRemoved(members[..|members| - 1]);
    }
  }

  lemma BothAreListed(orgId: Uuid, owner: Uuid, other: Uuid, key: OrgKey, privs: Privs, items: seq<ItemRow>, users: Users)
    requires owner != other && users == map[owner := PublishedKeys(owner, privs), other := PublishedKeys(other, privs)]
    ensures Rotations.Lists([ViewOf(owner, "owner", privs), ViewOf(other, "member", privs)], TwoMembers(orgId, owner, other, key, privs, items), users)
  {
    hide BundleMessage, WrapMessage;
    var views := [ViewOf(owner, "owner", privs), ViewOf(other, "member", privs)];
    assert ViewIds(views) == [owner, other];
    assert ToSet([owner, other]) == {owner, other};
  }

  lemma SharedIdsRepeat(input: RotationInput, owner: Uuid, other: Uuid, id: Uuid, blob: Blob)
    requires input.items == SharedRows(owner, other, id, blob) && input.dropItems == []
    ensures !Distinct(Rotations.RowIds(Rotations.KeptRows(input)))
  {
    var rows := input.items;
    assert rows[..1] == [rows[0]] && rows[..1][..0] == [];
    assert WithoutIds(rows[..1], []) == [rows[0]];
    assert WithoutIds(rows, []) == [rows[0], rows[1]];
    var ids := Rotations.RowIds(Rotations.KeptRows(input));
    assert ids[0] == ids[1];
  }

  /**
   * Two members' rows with one id, in an organisation whose rows all carry its
   * key: the owner's plan is made, and the server answers IncompleteItems, for
   * every content, key and pair of users.
   */
  lemma SharedIdIsRefused(orgId: Uuid, owner: Uuid, other: Uuid, id: Uuid, privs: Privs, oldKey: OrgKey, newKey: OrgKey, content: string, blob: Blob)
    requires owner != other && EncryptItemV2(Plaintext("login", content), Binding(OfOrg(orgId), id, "login"), 1, oldKey) == Ok(blob)
    ensures var rows := SharedRows(owner, other, id, blob);
            var org := TwoMembers(orgId, owner, other, oldKey, privs, rows);
            var plan := PlanFor(PlainRotation(orgId, owner, other, privs, oldKey, newKey, rows), Revisions(map[], false));
            && Shares(orgId, org, oldKey, privs)
            && plan.Ok? && RotationOutcome(org, plan.value.rotation) == IncompleteItems
  {
    hide EncryptItemV2, PlanFor, RotationOutcome, Rotations.Lists, Shares, ViewOf, PublishedKeys;
    var rows := SharedRows(owner, other, id, blob);
    var org := TwoMembers(orgId, owner, other, oldKey, privs, rows);
    var input := PlainRotation(orgId, owner, other, privs, oldKey, newKey, rows);
    TwoMembersShare(orgId, owner, other, oldKey, privs, rows);
    SharedPlanIsMade(orgId, owner, other, id, privs, oldKey, newKey, Plaintext("login", content), blob);
    SharedIdsRepeat(input, owner, other, id, blob);
    var users := map[owner := PublishedKeys(owner, privs), other := PublishedKeys(other, privs)];
    BothAreListed(orgId, owner, other, oldKey, privs, rows, users);
    hide TwoMembers;
    assert RemovalAllowed(org, None) && org.epoch == 1 && org.items == rows by { OrgParts(orgId, owner, other, oldKey, privs, rows); }
    Rotations.PlanIsAccepted(org, users, input, Revisions(map[], false));
  }

  lemma OrgParts(orgId: Uuid, owner: Uuid, other: Uuid, key: OrgKey, privs: Privs, items: seq<ItemRow>)
    ensures TwoMembers(orgId, owner, other, key, privs, items).epoch == 1 && TwoMembers(orgId, owner, other, key, privs, items).items == items
  {
  }
}
