/**
 * One organisation key for everybody: in every run whose clients build their
 * requests as the client code does, from any earlier answer of the server, all
 * members who can verify their chain open the same key
 * (packages/ui/src/components/OrgPanel.tsx, packages/ui/src/lib/org-trust.ts,
 * crates/nopass-api/src/db/orgs.rs, packages/crypto/src/identity.ts).
 */
module OrgAgreement {
  import opened Wrappers
  import opened Bytes
  import opened IdealCrypto
  import opened Identity
  import opened ItemEnvelope
  import opened OrgServer
  import opened OrgGraph
  import opened OrgTrust
  import Rotations = OrgRotation

  /** Everybody's private key. */
  type Privs = Uuid -> PrivateKey

  // ── What honest rows look like ─────────────────────────────────────────────

  /** Users published their own keys, signed by themselves. */
  ghost predicate TrueKeys(users: Users, privs: Privs) {
    forall u :: u in users ==>
      && (users[u].publicKey.Some? ==> users[u].publicKey.value == SpkiOf(privs(u)))
      && (users[u].identity.Some? ==> users[u].publicKey.Some? && BundleOf(u, users[u]) == PublishedBundle(u, privs(u)))
  }

  /** A row of user `u` that carries `key`, signed by whoever the row says signed it. */
  ghost predicate Carries(id: Uuid, epoch: int, key: OrgKey, privs: Privs, u: Uuid, row: Member) {
    var s := SignerOf(u, row);
    var message := WrapMessage(OrgKeyWrap(id, epoch, u, s, row.role, row.encryptedOrgKey));
    && row.epoch == Some(epoch)
    && row.encryptedOrgKey == OaepEncrypt(key, SpkiOf(privs(u)))
    && message.Some? && row.signature == Some(Sign(message.value, privs(s)))
  }

  ghost predicate Shares(id: Uuid, org: Org, key: OrgKey, privs: Privs) {
    forall u :: u in org.members ==> Carries(id, org.epoch, key, privs, u, org.members[u])
  }

  // ── What clients send ──────────────────────────────────────────────────────

  function Verdict(db: Db, id: Uuid, me: Uuid, pins: Pins, epochs: Epochs): Result<OrgKeyWrap, ChainError>
    requires id in db.orgs
  {
    ChainVerdict(ChainFromServer(id, WrapChain(db.orgs[id], db.users, me, 0)), id, me, pins, epochs)
  }

  /** The key in the caller's own row, as the server gave it out in state `p`. */
  predicate OwnKey(p: Db, id: Uuid, me: Uuid, privs: Privs, key: OrgKey) {
    id in p.orgs && me in p.orgs[id].members && OaepDecrypt(p.orgs[id].members[me].encryptedOrgKey, privs(me)) == Some(key)
  }

  /** createOrg: a fresh key in a self-signed wrap at epoch 1. */
  ghost predicate HonestCreate(req: Request, privs: Privs)
    requires req.CreateOrg?
  {
    exists key: OrgKey ::
      var message := WrapMessage(OrgKeyWrap(req.id, 1, req.caller, req.caller, "owner", req.encryptedOrgKey));
      && req.publicKey == SpkiOf(privs(req.caller)) && req.encryptedOrgKey == OaepEncrypt(key, SpkiOf(privs(req.caller)))
      && message.Some? && req.signature == Some(Sign(message.value, privs(req.caller))) && req.epoch == Some(1)
  }

  /** inviteMember: after a chain that verified, the key of the caller's own row, wrapped to the invitee's published key. */
  ghost predicate InviteFrom(p: Db, q: Db, req: Request, pins: Pins, epochs: Epochs, key: OrgKey, privs: Privs)
    requires req.Invite?
  {
    var message := WrapMessage(OrgKeyWrap(req.org, req.wrap.epoch, req.user, req.caller, req.role, req.wrap.encryptedOrgKey));
    && OwnKey(p, req.org, req.caller, privs, key)
    && Verdict(p, req.org, req.caller, pins, epochs).Ok? && req.wrap.epoch == Verdict(p, req.org, req.caller, pins, epochs).value.epoch
    && req.user in q.users && q.users[req.user].publicKey.Some?
    && req.wrap.encryptedOrgKey == OaepEncrypt(key, q.users[req.user].publicKey.value)
    && message.Some? && req.wrap.signature == Sign(message.value, privs(req.caller))
  }

  ghost predicate HonestInvite(past: seq<Db>, req: Request, privs: Privs)
    requires req.Invite?
  {
    exists p, q, pins, epochs, key :: p in past && q in past && InviteFrom(p, q, req, pins, epochs, key, privs)
  }

  /** resignOrg: at the verified epoch, or at 1 if the chain did not verify. */
  ghost predicate ResignFrom(p: Db, caller: Uuid, id: Uuid, wraps: seq<Rewrap>, views: seq<MemberView>, pins: Pins, epochs: Epochs, key: OrgKey, privs: Privs) {
    && OwnKey(p, id, caller, privs, key) && Rotations.Lists(views, p.orgs[id], p.users)
    && var v := Verdict(p, id, caller, pins, epochs);
       wraps == ResignAll(Signing(id, if v.Ok? then v.value.epoch else 1, caller, key, pins, privs(caller)), views).wraps
  }

  ghost predicate HonestResign(past: seq<Db>, caller: Uuid, id: Uuid, wraps: seq<Rewrap>, privs: Privs) {
    exists p, views, pins, epochs, key :: p in past && ResignFrom(p, caller, id, wraps, views, pins, epochs, key, privs)
  }

  /** prepareRotation and commitRotation: a plan from the members listed with a chain that verified. */
  ghost predicate RotateFrom(p: Db, caller: Uuid, id: Uuid, r: Rotation, input: RotationInput, store: Revisions, epochs: Epochs, privs: Privs) {
    && id in p.orgs && Rotations.Lists(input.members, p.orgs[id], p.users)
    && input.orgId == id && input.owner == caller && input.priv == privs(caller)
    && Verdict(p, id, caller, input.pins, epochs).Ok? && input.currentEpoch == Verdict(p, id, caller, input.pins, epochs).value.epoch
    && PlanFor(input, store).Ok? && r == PlanFor(input, store).value.rotation
  }

  ghost predicate HonestRotate(past: seq<Db>, caller: Uuid, id: Uuid, r: Rotation, privs: Privs) {
    exists p, input, store, epochs :: p in past && RotateFrom(p, caller, id, r, input, store, epochs, privs)
  }

  /** The request is one the client code makes, given the states the server has answered from so far. */
  ghost predicate Honest(past: seq<Db>, req: Request, privs: Privs) {
    match req
    case CreateOrg(_, _, _, _, _, _) => HonestCreate(req, privs)
    case Invite(_, _, _, _, _, _) => HonestInvite(past, req, privs)
    case Accept(_, _) => true
    case ChangeItems(_, _) => true
    case Resign(caller, org, wraps) => HonestResign(past, caller, org, wraps, privs)
    case Rotate(caller, org, rotation) => HonestRotate(past, caller, org, rotation, privs)
    case PublishIdentity(caller, identity, sig) =>
      identity == IdentityPublic(privs(caller)) && sig == Sign(BundleMessage(caller, SpkiOf(privs(caller))), privs(caller))
  }

  // ── From one state to a later one ──────────────────────────────────────────

  /** An organisation with a shared key, and what it still says about a later state of itself. */
  ghost predicate Leads(id: Uuid, a: Org, b: Org, privs: Privs) {
    && 1 <= a.epoch <= b.epoch
    && (exists key :: Shares(id, a, key, privs))
    && (a.epoch == b.epoch ==>
          && (forall u :: u in a.members ==> u in b.members && b.members[u].role == a.members[u].role)
          && (forall key :: Shares(id, a, key, privs) ==> Shares(id, b, key, privs)))
  }

  lemma LeadsOn(id: Uuid, a: Org, b: Org, c: Org, privs: Privs)
    requires Leads(id, a, b, privs) && Leads(id, b, c, privs)
    ensures Leads(id, a, c, privs)
  {
    hide Shares;
  }

  /** Every earlier state is sound and leads to this one. */
  ghost predicate PastLeads(past: seq<Db>, db: Db, privs: Privs) {
    forall p :: p in past ==>
      && TrueKeys(p.users, privs) && GraphInv(p)
      && (forall id :: id in p.orgs ==> id in db.orgs && Leads(id, p.orgs[id], db.orgs[id], privs))
  }

  /** A member's own row holds the shared key, and a chain that verifies is at the organisation's epoch. */
  lemma OwnKeyIsShared(p: Db, id: Uuid, me: Uuid, privs: Privs, shared: OrgKey, key: OrgKey)
    requires OwnKey(p, id, me, privs, key) && Shares(id, p.orgs[id], shared, privs)
    ensures key == shared
  {
    assert Carries(id, p.orgs[id].epoch, shared, privs, me, p.orgs[id].members[me]);
    hide WrapMessage;
    OaepOpensOnlyForRecipient(shared, privs(me), privs(me));
  }

  lemma VerifiedEpoch(p: Db, id: Uuid, me: Uuid, pins: Pins, epochs: Epochs, privs: Privs, shared: OrgKey)
    requires id in p.orgs && GraphInv(p) && Shares(id, p.orgs[id], shared, privs)
    requires Verdict(p, id, me, pins, epochs).Ok?
    ensures me in p.orgs[id].members && Verdict(p, id, me, pins, epochs).value.epoch == p.orgs[id].epoch
    ensures Verdict(p, id, me, pins, epochs).value.encryptedOrgKey == p.orgs[id].members[me].encryptedOrgKey
  {
    var org := p.orgs[id];
    var chain := ChainFromServer(id, WrapChain(org, p.users, me, 0));
    VerdictIsTrust(chain, id, me, pins, epochs);
    hide ChainVerdict, TrustedChain, WrapMessage;
    assert me in org.members by { assert WrapChain(org, p.users, me, 0) != []; }
    assert Rooted(org.members, me);
    var n: nat :| Climbs(org.members, me, n);
    ChainIsPath(org, p.users, me, n, 0);
    assert Ancestor(org.members, me, 0) == me;
    assert chain[0] == LinkFromServer(id, LinkOf(org, p.users, me));
    assert Carries(id, org.epoch, shared, privs, me, org.members[me]);
  }

  lemma KeyIsUnique(id: Uuid, org: Org, privs: Privs, u: Uuid, key: OrgKey, other: OrgKey)
    requires u in org.members && Shares(id, org, key, privs) && Shares(id, org, other, privs)
    ensures key == other
  {
    hide WrapMessage;
    var row := org.members[u];
    assert Carries(id, org.epoch, key, privs, u, row) && Carries(id, org.epoch, other, privs, u, row);
    assert OaepEncrypt(key, SpkiOf(privs(u)))[..32] == key && OaepEncrypt(other, SpkiOf(privs(u)))[..32] == other;
  }

  /** Within an epoch, members stay, roles stay, and so does the one key. */
  lemma SameEpochLeads(id: Uuid, a: Org, b: Org, privs: Privs, u: Uuid, key: OrgKey)
    requires 1 <= a.epoch == b.epoch && u in a.members && Shares(id, a, key, privs) && Shares(id, b, key, privs)
    requires forall x :: x in a.members ==> x in b.members && b.members[x].role == a.members[x].role
    ensures Leads(id, a, b, privs)
  {
    forall other | Shares(id, a, other, privs) ensures Shares(id, b, other, privs) {
      KeyIsUnique(id, a, privs, u, key, other);
    }
    hide Shares;
  }

  // ── One request ────────────────────────────────────────────────────────────

  lemma CreateStep(db: Db, req: Request, privs: Privs)
    requires req.CreateOrg? && TrueKeys(db.users, privs) && HonestCreate(req, privs) && Handle(db, req) != db
    ensures var db' := Handle(db, req);
            && TrueKeys(db'.users, privs) && req.id !in db.orgs && db'.orgs == db.orgs[req.id := db'.orgs[req.id]]
            && db'.orgs[req.id].epoch == 1 && exists key :: Shares(req.id, db'.orgs[req.id], key, privs)
  {
    hide WrapMessage, BundleMessage;
    var key: OrgKey :|
      var message := WrapMessage(OrgKeyWrap(req.id, 1, req.caller, req.caller, "owner", req.encryptedOrgKey));
      && req.publicKey == SpkiOf(privs(req.caller)) && req.encryptedOrgKey == OaepEncrypt(key, SpkiOf(privs(req.caller)))
      && message.Some? && req.signature == Some(Sign(message.value, privs(req.caller))) && req.epoch == Some(1);
    assert Shares(req.id, Handle(db, req).orgs[req.id], key, privs);
  }

  lemma PublishStep(db: Db, req: Request, privs: Privs)
    requires req.PublishIdentity? && TrueKeys(db.users, privs) && Honest([], req, privs)
    ensures TrueKeys(Handle(db, req).users, privs) && Handle(db, req).orgs == db.orgs
  {
    hide BundleMessage;
  }

  lemma AcceptStep(id: Uuid, org: Org, user: Uuid, privs: Privs, key: OrgKey)
    requires 1 <= org.epoch && Shares(id, org, key, privs)
    ensures Leads(id, org, Accepted(org, user), privs) && Shares(id, Accepted(org, user), key, privs)
  {
    hide WrapMessage;
    forall other | Shares(id, org, other, privs) ensures Shares(id, Accepted(org, user), other, privs) {
      forall u | u in org.members ensures Carries(id, org.epoch, other, privs, u, Accepted(org, user).members[u]) {
        assert Carries(id, org.epoch, other, privs, u, org.members[u]);
      }
    }
    hide Shares;
  }

  lemma InviteStep(past: seq<Db>, db: Db, req: Request, privs: Privs)
    requires req.Invite? && PastLeads(past, db, privs) && HonestInvite(past, req, privs)
    requires req.org in db.orgs && req.caller in db.orgs[req.org].members && req.wrap.epoch == db.orgs[req.org].epoch
    ensures var org := db.orgs[req.org];
            var org' := Invited(org, req.user, req.role, req.wrap, req.caller);
            Leads(req.org, org, org', privs) && exists key :: Shares(req.org, org', key, privs)
  {
    hide WrapMessage, Verdict, GraphInv, Shares, TrueKeys, Leads;
    var p, q, pins, epochs, key :| p in past && q in past && InviteFrom(p, q, req, pins, epochs, key, privs);
    var id, org := req.org, db.orgs[req.org];
    var shared := PastKey(past, db, p, id, privs);
    OwnKeyIsShared(p, id, req.caller, privs, shared, key);
    VerifiedEpoch(p, id, req.caller, pins, epochs, privs, shared);
    StillShared(past, db, p, id, privs, key);
    TrueKey(q.users, req.user, privs);
    InvitedShares(org, req, privs, key);
    SameEpochLeads(id, org, Invited(org, req.user, req.role, req.wrap, req.caller), privs, req.caller, key);
  }

  /** The key an organisation shared in an earlier state. */
  lemma PastKey(past: seq<Db>, db: Db, p: Db, id: Uuid, privs: Privs) returns (key: OrgKey)
    requires PastLeads(past, db, privs) && p in past && id in p.orgs
    ensures Shares(id, p.orgs[id], key, privs) && GraphInv(p) && TrueKeys(p.users, privs)
    ensures id in db.orgs && 1 <= p.orgs[id].epoch <= db.orgs[id].epoch
  {
    hide Shares, GraphInv, TrueKeys;
    assert Leads(id, p.orgs[id], db.orgs[id], privs);
    key :| Shares(id, p.orgs[id], key, privs);
  }

  /** It is still the key if the epoch has not moved. */
  lemma StillShared(past: seq<Db>, db: Db, p: Db, id: Uuid, privs: Privs, key: OrgKey)
    requires PastLeads(past, db, privs) && p in past && id in p.orgs && Shares(id, p.orgs[id], key, privs)
    requires id in db.orgs && p.orgs[id].epoch == db.orgs[id].epoch
    ensures Shares(id, db.orgs[id], key, privs) && 1 <= db.orgs[id].epoch
    ensures forall u :: u in p.orgs[id].members ==> u in db.orgs[id].members && db.orgs[id].members[u].role == p.orgs[id].members[u].role
  {
    hide Shares, GraphInv, TrueKeys;
    assert Leads(id, p.orgs[id], db.orgs[id], privs);
  }

  lemma TrueKey(users: Users, u: Uuid, privs: Privs)
    requires TrueKeys(users, privs) && u in users && users[u].publicKey.Some?
    ensures users[u].publicKey.value == SpkiOf(privs(u))
  {
  }

  lemma InvitedShares(org: Org, req: Request, privs: Privs, key: OrgKey)
    requires req.Invite? && Shares(req.org, org, key, privs) && req.wrap.epoch == org.epoch
    requires req.wrap.encryptedOrgKey == OaepEncrypt(key, SpkiOf(privs(req.user)))
    requires var message := WrapMessage(OrgKeyWrap(req.org, req.wrap.epoch, req.user, req.caller, req.role, req.wrap.encryptedOrgKey));
             message.Some? && req.wrap.signature == Sign(message.value, privs(req.caller))
    ensures Shares(req.org, Invited(org, req.user, req.role, req.wrap, req.caller), key, privs)
  {
    hide WrapMessage;
    var org' := Invited(org, req.user, req.role, req.wrap, req.caller);
    forall u | u in org'.members ensures Carries(req.org, org.epoch, key, privs, u, org'.members[u]) {
      assert u in org.members ==> Carries(req.org, org.epoch, key, privs, u, org.members[u]);
    }
  }

  // ── Owner-signed wraps ─────────────────────────────────────────────────────

  lemma {:induction false} WrapIsFor(s: Signing, views: seq<MemberView>, w: Rewrap) returns (m: MemberView)
    requires w in ResignAll(s, views).wraps
    ensures m in views && Rotations.IsWrapFor(s, m, w)
  {
    hide WrapMessage, RecipientKey;
    var n := |views| - 1;
    assert views == views[..n] + [views[n]];
    if w in ResignAll(s, views[..n]).wraps {
      m := WrapIsFor(s, views[..n], w);
    } else {
      m := views[n];
    }
  }

  /** A wrap the owner made for a listed member, applied to that member's row, carries the key. */
  lemma RewrappedCarries(s: Signing, m: MemberView, w: Rewrap, row: Member, users: Users, privs: Privs)
    requires Rotations.IsWrapFor(s, m, w) && Rotations.KeysMatch(m, users) && TrueKeys(users, privs)
    requires s.priv == privs(s.owner) && row.role == m.role
    ensures Carries(s.orgId, s.epoch, s.orgKey, privs, w.user, Rewrapped(row, w, s.owner))
  {
    hide WrapMessage, BundleMessage;
    assert RecipientKey(s, m).value == SpkiOf(privs(m.userId));
  }

  /** Every listed member is a member, under the listed role. */
  lemma ListedRole(views: seq<MemberView>, org: Org, users: Users, m: MemberView)
    requires Rotations.Lists(views, org, users) && m in views
    ensures m.userId in org.members && m.role == org.members[m.userId].role && Rotations.KeysMatch(m, users)
  {
    var i :| 0 <= i < |views| && views[i] == m;
    assert ViewIds(views)[i] == m.userId;
    assert m.userId in ToSet(ViewIds(views));
  }

  /** Applying wraps that carry the key to rows that carry it leaves rows that carry it. */
  lemma {:induction false} WrapsKeepSharing(id: Uuid, org: Org, wraps: seq<Rewrap>, owner: Uuid, privs: Privs, key: OrgKey)
    requires Shares(id, org, key, privs)
    requires forall w :: w in wraps && w.user in org.members ==>
               forall row: Member :: row.role == org.members[w.user].role ==> Carries(id, org.epoch, key, privs, w.user, Rewrapped(row, w, owner))
    ensures Shares(id, Resigned(org, wraps, owner), key, privs)
    ensures forall u :: u in org.members ==> Resigned(org, wraps, owner).members[u].role == org.members[u].role
  {
    hide Carries;
    if wraps != [] {
      var n := |wraps| - 1;
      assert wraps == wraps[..n] + [wraps[n]];
      WrapsKeepSharing(id, org, wraps[..n], owner, privs, key);
      var before := Resigned(org, wraps[..n], owner).members;
      assert Resigned(org, wraps, owner).members == ApplyWrap(before, wraps[n], owner);
    }
  }

  lemma ResignStep(past: seq<Db>, db: Db, caller: Uuid, id: Uuid, wraps: seq<Rewrap>, privs: Privs)
    requires PastLeads(past, db, privs) && db in past && HonestResign(past, caller, id, wraps, privs)
    requires id in db.orgs && forall i :: 0 <= i < |wraps| ==> wraps[i].epoch == db.orgs[id].epoch
    ensures var org := db.orgs[id];
            Leads(id, org, Resigned(org, wraps, caller), privs) && exists key :: Shares(id, Resigned(org, wraps, caller), key, privs)
  {
    hide WrapMessage, Verdict, GraphInv, ResignAll, Carries, RecipientKey, Shares, TrueKeys, Rotations.Lists;
    var p, views, pins, epochs, key :| p in past && ResignFrom(p, caller, id, wraps, views, pins, epochs, key, privs);
    var org := db.orgs[id];
    var shared := PastKey(past, db, p, id, privs);
    OwnKeyIsShared(p, id, caller, privs, shared, key);
    var v := Verdict(p, id, caller, pins, epochs);
    if v.Ok? {
      VerifiedEpoch(p, id, caller, pins, epochs, privs, shared);
    }
    var s := Signing(id, if v.Ok? then v.value.epoch else 1, caller, key, pins, privs(caller));
    if wraps == [] {
      assert Resigned(org, wraps, caller) == org;
      assert Leads(id, org, org, privs);
    } else {
      hide Leads, PastLeads;
      WrapEpoch(s, views, wraps[0]);
      assert s.epoch == org.epoch == p.orgs[id].epoch;
      StillShared(past, db, p, id, privs, key);
      forall w: Rewrap, row: Member | w in wraps && w.user in org.members && row.role == org.members[w.user].role
        ensures Carries(id, org.epoch, key, privs, w.user, Rewrapped(row, w, caller))
      {
        var m := WrapIsFor(s, views, w);
        ListedRole(views, p.orgs[id], p.users, m);
        RewrappedCarries(s, m, w, row, p.users, privs);
      }
      WrapsKeepSharing(id, org, wraps, caller, privs, key);
      SameEpochLeads(id, org, Resigned(org, wraps, caller), privs, caller, key);
    }
  }

  lemma WrapEpoch(s: Signing, views: seq<MemberView>, w: Rewrap)
    requires w in ResignAll(s, views).wraps
    ensures w.epoch == s.epoch
  {
    hide WrapMessage, RecipientKey;
    var m := WrapIsFor(s, views, w);
  }

  /** What a plan says of its wraps and its epoch. */
  lemma PlanWraps(input: RotationInput, store: Revisions)
    requires PlanFor(input, store).Ok?
    ensures var r := PlanFor(input, store).value.rotation;
            && r.newEpoch == input.currentEpoch + 1
            && r.wraps == ResignAll(SigningFor(input), Remaining(input.members, input.removeUser)).wraps
  {
    hide ReencryptAll, ResignAll;
  }

  lemma RotateStep(past: seq<Db>, db: Db, caller: Uuid, id: Uuid, r: Rotation, privs: Privs)
    requires PastLeads(past, db, privs) && db in past && HonestRotate(past, caller, id, r, privs)
    requires id in db.orgs && RotationOutcome(db.orgs[id], r) == Rotated
    ensures var org' := RotatedOrg(db.orgs[id], caller, r);
            Leads(id, db.orgs[id], org', privs) && exists key :: Shares(id, org', key, privs)
  {
    hide PastLeads, RotationOutcome, RotatedOrg, Shares, RotateFrom, Leads, TrueKeys;
    Standing(past, db, privs);
    OwnStanding(id, db.orgs[id], privs);
    var p, input, store, epochs :| p in past && RotateFrom(p, caller, id, r, input, store, epochs, privs);
    RotatedShares(past, db, p, caller, id, r, input, store, epochs, privs);
    NextEpochLeads(id, db.orgs[id], caller, r, privs);
  }

  lemma NextEpochLeads(id: Uuid, org: Org, caller: Uuid, r: Rotation, privs: Privs)
    requires RotationOutcome(org, r) == Rotated && org.epoch >= 1 && exists key :: Shares(id, org, key, privs)
    ensures Leads(id, org, RotatedOrg(org, caller, r), privs)
  {
    hide Shares;
  }

  /** The key every row carries afterwards is the one the plan was built with. */
  lemma RotatedShares(past: seq<Db>, db: Db, p: Db, caller: Uuid, id: Uuid, r: Rotation, input: RotationInput, store: Revisions, epochs: Epochs, privs: Privs)
    requires PastLeads(past, db, privs) && p in past && RotateFrom(p, caller, id, r, input, store, epochs, privs)
    requires id in db.orgs && RotationOutcome(db.orgs[id], r) == Rotated
    ensures Shares(id, RotatedOrg(db.orgs[id], caller, r), input.newKey, privs)
  {
    hide WrapMessage, Verdict, GraphInv, ResignAll, Carries, RecipientKey, PlanFor, TrueKeys, Rotations.Lists;
    var org, org' := db.orgs[id], RotatedOrg(db.orgs[id], caller, r);
    var shared := PastKey(past, db, p, id, privs);
    VerifiedEpoch(p, id, caller, input.pins, epochs, privs, shared);
    PlanWraps(input, store);
    RotatedRows(org, caller, r);
    assert org'.epoch == org.epoch + 1 == r.newEpoch && p.orgs[id].epoch == org.epoch;
    StillShared(past, db, p, id, privs, shared);
    forall u | u in org'.members ensures Carries(id, org'.epoch, input.newKey, privs, u, org'.members[u]) {
      RotatedCarries(p, org, caller, id, r, input, u, privs);
    }
  }

  lemma RotatedCarries(p: Db, org: Org, caller: Uuid, id: Uuid, r: Rotation, input: RotationInput, u: Uuid, privs: Privs)
    requires id in p.orgs && Rotations.Lists(input.members, p.orgs[id], p.users) && TrueKeys(p.users, privs)
    requires input.orgId == id && input.owner == caller && input.priv == privs(caller) && r.newEpoch == input.currentEpoch + 1
    requires r.wraps == ResignAll(SigningFor(input), Remaining(input.members, input.removeUser)).wraps
    requires RotationOutcome(org, r) == Rotated && u in RotatedOrg(org, caller, r).members
    requires forall x :: x in p.orgs[id].members ==> x in org.members && org.members[x].role == p.orgs[id].members[x].role
    ensures Carries(id, r.newEpoch, input.newKey, privs, u, RotatedOrg(org, caller, r).members[u])
  {
    hide WrapMessage, ResignAll, Carries, RecipientKey;
    RotatedRows(org, caller, r);
    var i := RotatedRow(org, caller, r, u);
    hide RotatedOrg, RotationOutcome;
    var s := SigningFor(input);
    var m := WrapIsFor(s, Remaining(input.members, input.removeUser), r.wraps[i]);
    assert m.userId == u;
    ListedRole(input.members, p.orgs[id], p.users, m);
    RewrappedCarries(s, m, r.wraps[i], org.members[u], p.users, privs);
  }

  /** The state after a request: keys still true, every organisation with a shared key that its past leads to. */
  ghost predicate Advances(db: Db, db': Db, privs: Privs) {
    && TrueKeys(db'.users, privs)
    && (forall id :: id in db.orgs ==> id in db'.orgs && Leads(id, db.orgs[id], db'.orgs[id], privs))
    && (forall id :: id in db'.orgs ==> db'.orgs[id].epoch >= 1 && exists key :: Shares(id, db'.orgs[id], key, privs))
  }

  lemma OneOrgAdvances(db: Db, db': Db, id: Uuid, privs: Privs)
    requires TrueKeys(db'.users, privs) && id in db'.orgs && db'.orgs == db.orgs[id := db'.orgs[id]]
    requires forall x :: x in db.orgs ==> Leads(x, db.orgs[x], db.orgs[x], privs)
    requires db'.orgs[id].epoch >= 1 && exists key :: Shares(id, db'.orgs[id], key, privs)
    requires id in db.orgs ==> Leads(id, db.orgs[id], db'.orgs[id], privs)
    ensures Advances(db, db', privs)
  {
    hide Shares, TrueKeys;
  }

  /** What the present state says of itself. */
  lemma Standing(past: seq<Db>, db: Db, privs: Privs)
    requires PastLeads(past, db, privs) && db in past
    ensures TrueKeys(db.users, privs) && forall x :: x in db.orgs ==> Leads(x, db.orgs[x], db.orgs[x], privs)
  {
  }

  lemma OwnStanding(id: Uuid, org: Org, privs: Privs)
    requires Leads(id, org, org, privs)
    ensures org.epoch >= 1 && exists key :: Shares(id, org, key, privs)
  {
  }

  lemma SameOrgsAdvance(db: Db, db': Db, privs: Privs)
    requires TrueKeys(db'.users, privs) && db'.orgs == db.orgs
    requires forall x :: x in db.orgs ==> Leads(x, db.orgs[x], db.orgs[x], privs)
    ensures Advances(db, db', privs)
  {
    hide Shares, TrueKeys;
  }

  lemma CreateAdvances(past: seq<Db>, db: Db, req: Request, privs: Privs)
    requires req.CreateOrg? && PastLeads(past, db, privs) && db in past && Handle(db, req) != db && Honest(past, req, privs)
    ensures Advances(db, Handle(db, req), privs)
  {
    Standing(past, db, privs);
    hide PastLeads, Shares, TrueKeys, HonestCreate, HonestInvite, HonestResign, HonestRotate, Leads;
    var db' := Handle(db, req);
    CreateStep(db, req, privs);
    hide Handle;
    OneOrgAdvances(db, db', req.id, privs);
  }

  lemma InviteAdvances(past: seq<Db>, db: Db, req: Request, privs: Privs)
    requires req.Invite? && PastLeads(past, db, privs) && db in past && Handle(db, req) != db && Honest(past, req, privs)
    ensures Advances(db, Handle(db, req), privs)
  {
    Standing(past, db, privs);
    hide PastLeads, Shares, TrueKeys, HonestCreate, HonestInvite, HonestResign, HonestRotate, Leads, Invited;
    var db' := Handle(db, req);
    var org' := Invited(db.orgs[req.org], req.user, req.role, req.wrap, req.caller);
    assert req.org in db.orgs && db'.orgs == db.orgs[req.org := org'] && db'.users == db.users;
    assert req.caller in db.orgs[req.org].members && req.wrap.epoch == db.orgs[req.org].epoch;
    hide Handle;
    InviteStep(past, db, req, privs);
    LeadsUp(req.org, db.orgs[req.org], org', privs);
    OneOrgAdvances(db, db', req.org, privs);
  }

  lemma AcceptAdvances(past: seq<Db>, db: Db, req: Request, privs: Privs)
    requires req.Accept? && PastLeads(past, db, privs) && db in past && Handle(db, req) != db && Honest(past, req, privs)
    ensures Advances(db, Handle(db, req), privs)
  {
    Standing(past, db, privs);
    hide PastLeads, Shares, TrueKeys, HonestCreate, HonestInvite, HonestResign, HonestRotate, Leads, Accepted;
    var db' := Handle(db, req);
    var id, org' := req.org, Accepted(db.orgs[req.org], req.caller);
    assert id in db.orgs && db'.orgs == db.orgs[id := org'] && db'.users == db.users;
    hide Handle;
    OwnStanding(id, db.orgs[id], privs);
    var key :| Shares(id, db.orgs[id], key, privs);
    AcceptStep(id, db.orgs[id], req.caller, privs, key);
    LeadsUp(id, db.orgs[id], org', privs);
    OneOrgAdvances(db, db', id, privs);
  }

  lemma ResignAdvances(past: seq<Db>, db: Db, req: Request, privs: Privs)
    requires req.Resign? && PastLeads(past, db, privs) && db in past && Handle(db, req) != db && Honest(past, req, privs)
    ensures Advances(db, Handle(db, req), privs)
  {
    Standing(past, db, privs);
    hide PastLeads, Shares, TrueKeys, HonestCreate, HonestInvite, HonestResign, HonestRotate, Leads, Resigned;
    var db' := Handle(db, req);
    var id, org' := req.org, Resigned(db.orgs[req.org], req.wraps, req.caller);
    assert id in db.orgs && db'.orgs == db.orgs[id := org'] && db'.users == db.users;
    assert forall i :: 0 <= i < |req.wraps| ==> req.wraps[i].epoch == db.orgs[id].epoch;
    hide Handle;
    ResignStep(past, db, req.caller, id, req.wraps, privs);
    LeadsUp(id, db.orgs[id], org', privs);
    OneOrgAdvances(db, db', id, privs);
  }

  lemma RotateAdvances(past: seq<Db>, db: Db, req: Request, privs: Privs)
    requires req.Rotate? && PastLeads(past, db, privs) && db in past && Handle(db, req) != db && Honest(past, req, privs)
    ensures Advances(db, Handle(db, req), privs)
  {
    Standing(past, db, privs);
    hide PastLeads, Shares, TrueKeys, HonestCreate, HonestInvite, HonestResign, HonestRotate, Leads, RotatedOrg, RotationOutcome;
    var db' := Handle(db, req);
    var id, org' := req.org, RotatedOrg(db.orgs[req.org], req.caller, req.rotation);
    assert id in db.orgs && db'.orgs == db.orgs[id := org'] && db'.users == db.users;
    assert RotationOutcome(db.orgs[id], req.rotation) == Rotated;
    hide Handle;
    RotateStep(past, db, req.caller, id, req.rotation, privs);
    LeadsUp(id, db.orgs[id], org', privs);
    OneOrgAdvances(db, db', id, privs);
  }

  lemma PublishAdvances(past: seq<Db>, db: Db, req: Request, privs: Privs)
    requires req.PublishIdentity? && PastLeads(past, db, privs) && db in past && Honest(past, req, privs)
    ensures Advances(db, Handle(db, req), privs)
  {
    Standing(past, db, privs);
    PublishStep(db, req, privs);
    hide Handle, TrueKeys, Leads, PastLeads;
    SameOrgsAdvance(db, Handle(db, req), privs);
  }

  lemma ItemsAdvance(past: seq<Db>, db: Db, req: Request, privs: Privs)
    requires req.ChangeItems? && PastLeads(past, db, privs) && db in past && Handle(db, req) != db
    ensures Advances(db, Handle(db, req), privs)
  {
    hide PastLeads, TrueKeys, Leads, Shares;
    Standing(past, db, privs);
    var id, org := req.org, db.orgs[req.org];
    OwnStanding(id, org, privs);
    var key :| Shares(id, org, key, privs);
    SameMembersLead(id, org, org.(items := req.items), privs, key);
    OneOrgAdvances(db, Handle(db, req), id, privs);
  }

  lemma SameMembersLead(id: Uuid, a: Org, b: Org, privs: Privs, key: OrgKey)
    requires 1 <= a.epoch == b.epoch && a.members == b.members && Shares(id, a, key, privs)
    ensures Leads(id, a, b, privs) && Shares(id, b, key, privs)
  {
    hide Carries;
  }

  lemma LeadsUp(id: Uuid, a: Org, b: Org, privs: Privs)
    requires Leads(id, a, b, privs)
    ensures b.epoch >= 1
  {
  }

  lemma StepAdvances(past: seq<Db>, db: Db, req: Request, privs: Privs)
    requires PastLeads(past, db, privs) && db in past && (Handle(db, req) != db ==> Honest(past, req, privs))
    ensures Advances(db, Handle(db, req), privs)
  {
    hide Handle, PastLeads, Advances, Honest, TrueKeys, Leads;
    Standing(past, db, privs);
    if Handle(db, req) == db {
      SameOrgsAdvance(db, db, privs);
    } else {
      match req
      case CreateOrg(_, _, _, _, _, _) => CreateAdvances(past, db, req, privs);
      case Invite(_, _, _, _, _, _) => InviteAdvances(past, db, req, privs);
      case Accept(_, _) => AcceptAdvances(past, db, req, privs);
      case Resign(_, _, _) => ResignAdvances(past, db, req, privs);
      case Rotate(_, _, _) => RotateAdvances(past, db, req, privs);
      case PublishIdentity(_, _, _) => PublishAdvances(past, db, req, privs);
      case ChangeItems(_, _) => ItemsAdvance(past, db, req, privs);
    }
  }

  // ── Over whole runs ────────────────────────────────────────────────────────

  /** Every state the server can have answered from. */
  ghost function History(db: Db, reqs: seq<Request>): seq<Db> {
    if reqs == [] then [db] else History(db, reqs[..|reqs| - 1]) + [Run(db, reqs)]
  }

  /** Whatever changes the database was built by the client code. */
  ghost predicate HonestRun(db: Db, reqs: seq<Request>, privs: Privs) {
    forall k :: 0 <= k < |reqs| ==>
      Handle(Run(db, reqs[..k]), reqs[k]) != Run(db, reqs[..k]) ==> Honest(History(db, reqs[..k]), reqs[k], privs)
  }

  lemma {:induction false} RunLeads(db: Db, reqs: seq<Request>, privs: Privs)
    requires db.orgs == map[] && TrueKeys(db.users, privs) && HonestRun(db, reqs, privs)
    ensures PastLeads(History(db, reqs), Run(db, reqs), privs) && Run(db, reqs) in History(db, reqs)
  {
    hide Handle, Honest, TrueKeys;
    if reqs == [] {
      assert GraphInv(db);
    } else {
      var n := |reqs| - 1;
      var init := reqs[..n];
      forall k | 0 <= k < n ensures init[..k] == reqs[..k] && init[k] == reqs[k] {}
      RunLeads(db, init, privs);
      StepAdvances(History(db, init), Run(db, init), reqs[n], privs);
      EveryRunKeepsGraph(db, reqs);
      HistoryStep(History(db, init), Run(db, init), Run(db, reqs), privs);
    }
  }

  lemma HistoryStep(past: seq<Db>, db: Db, db': Db, privs: Privs)
    requires PastLeads(past, db, privs) && Advances(db, db', privs) && GraphInv(db')
    ensures PastLeads(past + [db'], db', privs)
  {
    hide GraphInv, TrueKeys, Shares;
    forall p, id | p in past && id in p.orgs ensures id in db'.orgs && Leads(id, p.orgs[id], db'.orgs[id], privs) {
      assert Leads(id, p.orgs[id], db.orgs[id], privs);
      LeadsOn(id, p.orgs[id], db.orgs[id], db'.orgs[id], privs);
    }
  }

  // ── What members open ──────────────────────────────────────────────────────

  /** Every signer on the way to the owner is pinned, under the identity they published. */
  ghost predicate SignersPinned(org: Org, users: Users, u: Uuid, n: nat, pins: Pins) {
    forall i :: 0 <= i <= n ==>
      var a := Ancestor(org.members, u, i);
      && a in org.members
      && var s := SignerOf(a, org.members[a]);
         s in users && s in pins && users[s].identity == Some(pins[s])
  }

  lemma PathCarries(id: Uuid, org: Org, users: Users, u: Uuid, n: nat, i: nat, key: OrgKey, privs: Privs)
    requires Climbs(org.members, u, n) && HaveKeys(org.members, users) && Shares(id, org, key, privs) && TrueKeys(users, privs)
    requires i <= n <= MAX_CHAIN - 1
    ensures var chain, a := ChainFromServer(id, WrapChain(org, users, u, 0)), Ancestor(org.members, u, i);
            && i < |chain| == n + 1 && a in org.members && SignerOf(a, org.members[a]) in users
            && chain[i].wrap == OrgKeyWrap(id, org.epoch, a, SignerOf(a, org.members[a]), org.members[a].role, org.members[a].encryptedOrgKey)
            && Carries(id, org.epoch, key, privs, a, org.members[a]) && chain[i].signature == org.members[a].signature
            && users[SignerOf(a, org.members[a])].publicKey.Some?
            && chain[i].signer == BundleOf(SignerOf(a, org.members[a]), users[SignerOf(a, org.members[a])])
  {
    ChainIsPath(org, users, u, n, 0);
    hide WrapChain, Climbs, WrapMessage;
    var a := Ancestor(org.members, u, i);
    assert Carries(id, org.epoch, key, privs, a, org.members[a]);
  }

  lemma LinkPinned(id: Uuid, org: Org, users: Users, a: Uuid, link: Link, key: OrgKey, privs: Privs, pins: Pins)
    requires a in org.members && Carries(id, org.epoch, key, privs, a, org.members[a]) && TrueKeys(users, privs)
    requires var s := SignerOf(a, org.members[a]); s in users && users[s].publicKey.Some? && link.signer == BundleOf(s, users[s])
    requires link.wrap == OrgKeyWrap(id, org.epoch, a, SignerOf(a, org.members[a]), org.members[a].role, org.members[a].encryptedOrgKey)
    requires link.signature == org.members[a].signature
    ensures var s := SignerOf(a, org.members[a]);
            PinnedBundle(link, pins) && PinnedSignature(link, pins) <==> s in pins && users[s].identity == Some(pins[s])
  {
    hide WrapMessage, BundleMessage;
    var s := SignerOf(a, org.members[a]);
    if users[s].identity.Some? {
      assert link.signer == PublishedBundle(s, privs(s));
    }
  }

  /** Rows that carry the key are all signed at the current epoch. */
  lemma SharingIsSigned(id: Uuid, org: Org, u: Uuid, n: nat, key: OrgKey, privs: Privs)
    requires Shares(id, org, key, privs) && Climbs(org.members, u, n)
    ensures EpochsCurrent(org) && PathSigned(org.members, u, n)
  {
    hide WrapMessage;
    assert forall x :: x in org.members ==> Carries(id, org.epoch, key, privs, x, org.members[x]);
    forall i: nat | i <= n ensures Ancestor(org.members, u, i) in org.members {
      AncestorClimbs(org.members, u, n, i);
    }
  }

  /** A structurally sound chain whose links are all pinned is trusted, and only such a one. */
  lemma TrustedIffPinned(chain: seq<Link>, id: Uuid, me: Uuid, pins: Pins)
    requires StructureHolds(chain, id, me)
    ensures TrustedChain(chain, id, me, pins) <==>
            forall i :: 0 <= i < |chain| ==> PinnedBundle(chain[i], pins) && PinnedSignature(chain[i], pins)
  {
    hide PinnedBundle, PinnedSignature;
    forall i | 0 <= i < |chain|
      ensures chain[i].wrap.orgId == id && chain[i].wrap.epoch == chain[0].wrap.epoch
      ensures if i + 1 < |chain| then VouchedByNext(chain, i) else chain[i].wrap.signer == chain[i].wrap.recipient && chain[i].wrap.role == "owner"
    {
      assert StructureProblem(chain, i, id).None?;
    }
  }

  /** The links of a served chain are pinned exactly when the signers on the path are. */
  lemma LinksPinnedIff(id: Uuid, org: Org, users: Users, u: Uuid, n: nat, key: OrgKey, privs: Privs, pins: Pins)
    requires Climbs(org.members, u, n) && HaveKeys(org.members, users) && Shares(id, org, key, privs) && TrueKeys(users, privs)
    requires n + 1 <= MAX_CHAIN
    ensures var chain := ChainFromServer(id, WrapChain(org, users, u, 0));
            (forall i :: 0 <= i < |chain| ==> PinnedBundle(chain[i], pins) && PinnedSignature(chain[i], pins))
            <==> SignersPinned(org, users, u, n, pins)
  {
    hide WrapChain, ChainFromServer, Climbs, Shares, TrueKeys, Carries, PinnedBundle, PinnedSignature, HaveKeys;
    var chain := ChainFromServer(id, WrapChain(org, users, u, 0));
    PathCarries(id, org, users, u, n, 0, key, privs);
    forall i: nat | i <= n
      ensures Ancestor(org.members, u, i) in org.members
      ensures var a := Ancestor(org.members, u, i);
              var s := SignerOf(a, org.members[a]);
              s in users && (PinnedBundle(chain[i], pins) && PinnedSignature(chain[i], pins) <==> s in pins && users[s].identity == Some(pins[s]))
    {
      PathCarries(id, org, users, u, n, i, key, privs);
      LinkPinned(id, org, users, Ancestor(org.members, u, i), chain[i], key, privs, pins);
    }
  }

  /** A verified chain starts with the member's own row, which holds the key. */
  lemma OwnLinkOpens(id: Uuid, org: Org, users: Users, u: Uuid, n: nat, key: OrgKey, privs: Privs)
    requires Climbs(org.members, u, n) && HaveKeys(org.members, users) && Shares(id, org, key, privs) && TrueKeys(users, privs)
    requires n + 1 <= MAX_CHAIN
    ensures var chain := ChainFromServer(id, WrapChain(org, users, u, 0));
            |chain| > 0 && chain[0].wrap.epoch == org.epoch && OaepDecrypt(chain[0].wrap.encryptedOrgKey, privs(u)) == Some(key)
  {
    hide WrapChain, ChainFromServer, Climbs, Shares, TrueKeys, HaveKeys, Carries;
    PathCarries(id, org, users, u, n, 0, key, privs);
    assert Ancestor(org.members, u, 0) == u;
    OpensOwn(id, org, u, key, privs);
  }

  /** Exactly who can verify their chain, and what they open. */
  lemma MemberOpens(db: Db, id: Uuid, u: Uuid, n: nat, key: OrgKey, privs: Privs, pins: Pins, epochs: Epochs)
    requires id in db.orgs && TrueKeys(db.users, privs) && HaveKeys(db.orgs[id].members, db.users)
    requires Climbs(db.orgs[id].members, u, n) && Shares(id, db.orgs[id], key, privs)
    ensures Verdict(db, id, u, pins, epochs).Ok? <==>
            && n + 1 <= MAX_CHAIN
            && SignersPinned(db.orgs[id], db.users, u, n, pins)
            && (id in epochs ==> epochs[id] <= db.orgs[id].epoch)
    ensures Verdict(db, id, u, pins, epochs).Ok? ==>
            OaepDecrypt(Verdict(db, id, u, pins, epochs).value.encryptedOrgKey, privs(u)) == Some(key)
  {
    hide ChainVerdict, TrustedChain, WrapChain, ChainFromServer, StructureHolds, Climbs, Shares, TrueKeys, PathSigned, EpochsCurrent, HaveKeys,
         PinnedBundle, PinnedSignature, SignersPinned;
    var org, users := db.orgs[id], db.users;
    var chain := ChainFromServer(id, WrapChain(org, users, u, 0));
    SharingIsSigned(id, org, u, n, key, privs);
    ServedChainHolds(org, users, id, u, n);
    VerdictIsTrust(chain, id, u, pins, epochs);
    if TrustedChain(chain, id, u, pins) {
      TrustedIsSound(chain, id, u, pins);
    }
    if n + 1 <= MAX_CHAIN {
      TrustedIffPinned(chain, id, u, pins);
      LinksPinnedIff(id, org, users, u, n, key, privs, pins);
      OwnLinkOpens(id, org, users, u, n, key, privs);
    }
  }

  /** A member's place above the owner decides whether they can verify their chain; the key they then open is `key`. */
  ghost predicate AllOpen(db: Db, id: Uuid, key: OrgKey, privs: Privs)
    requires id in db.orgs
  {
    forall u, pins, epochs :: u in db.orgs[id].members ==> Agrees(db, id, u, key, privs, pins, epochs)
  }

  ghost predicate Agrees(db: Db, id: Uuid, u: Uuid, key: OrgKey, privs: Privs, pins: Pins, epochs: Epochs)
    requires id in db.orgs
  {
    exists n: nat :: HeightIs(db.orgs[id].members, u, n) && OpensExactly(db, id, u, n, key, privs, pins, epochs)
  }

  ghost predicate OpensExactly(db: Db, id: Uuid, u: Uuid, n: nat, key: OrgKey, privs: Privs, pins: Pins, epochs: Epochs)
    requires id in db.orgs
  {
    var v := Verdict(db, id, u, pins, epochs);
    && (v.Ok? <==> n + 1 <= MAX_CHAIN && SignersPinned(db.orgs[id], db.users, u, n, pins) && (id in epochs ==> epochs[id] <= db.orgs[id].epoch))
    && (v.Ok? ==> OaepDecrypt(v.value.encryptedOrgKey, privs(u)) == Some(key))
  }

  /**
   * In every run whose clients build their requests as the code does, from any
   * earlier answers, an organisation has one key, and every member whose chain
   * has at most 16 links and whose signers on it are pinned under the identities
   * they published verifies that chain and opens exactly that key; nobody else does.
   */
  lemma EveryHonestRunAgrees(db: Db, reqs: seq<Request>, privs: Privs, id: Uuid)
    requires db.orgs == map[] && TrueKeys(db.users, privs) && HonestRun(db, reqs, privs)
    requires id in Run(db, reqs).orgs
    ensures exists key :: AllOpen(Run(db, reqs), id, key, privs)
  {
    hide HonestRun, Handle, Shares, TrueKeys, Agrees;
    RunLeads(db, reqs, privs);
    var after := Run(db, reqs);
    Standing(History(db, reqs), after, privs);
    OwnStanding(id, after.orgs[id], privs);
    var key :| Shares(id, after.orgs[id], key, privs);
    EveryRunKeepsGraph(db, reqs);
    forall u, pins, epochs | u in after.orgs[id].members
      ensures Agrees(after, id, u, key, privs, pins, epochs)
    {
      MemberAgrees(after, id, u, key, privs, pins, epochs);
    }
    assert AllOpen(after, id, key, privs);
  }

  lemma MemberAgrees(db: Db, id: Uuid, u: Uuid, key: OrgKey, privs: Privs, pins: Pins, epochs: Epochs)
    requires id in db.orgs && u in db.orgs[id].members && GraphInv(db) && TrueKeys(db.users, privs) && Shares(id, db.orgs[id], key, privs)
    ensures Agrees(db, id, u, key, privs, pins, epochs)
  {
    hide Shares, TrueKeys;
    var members := db.orgs[id].members;
    assert Rooted(members, u);
    var n: nat :| Climbs(members, u, n);
    forall m: nat | Climbs(members, u, m) ensures m == n {
      HeightIsUnique(members, u, m, n);
    }
    assert HeightIs(members, u, n);
    MemberOpens(db, id, u, n, key, privs, pins, epochs);
    hide Verdict, SignersPinned, HeightIs, Climbs;
    assert OpensExactly(db, id, u, n, key, privs, pins, epochs);
  }

  lemma TrustedIsSound(chain: seq<Link>, id: Uuid, me: Uuid, pins: Pins)
    requires TrustedChain(chain, id, me, pins)
    ensures StructureHolds(chain, id, me)
  {
    TrustedHasNoProblem(chain, id, me, pins);
    hide PinnedBundle, PinnedSignature, SignatureHolds, VerifyMemberKey;
    forall i | 0 <= i < |chain| ensures StructureProblem(chain, i, id).None? {
      assert LinkProblem(chain, i, id, pins).None?;
    }
  }

  lemma OpensOwn(id: Uuid, org: Org, u: Uuid, key: OrgKey, privs: Privs)
    requires u in org.members && Carries(id, org.epoch, key, privs, u, org.members[u])
    ensures OaepDecrypt(org.members[u].encryptedOrgKey, privs(u)) == Some(key)
  {
    hide WrapMessage;
    OaepOpensOnlyForRecipient(key, privs(u), privs(u));
  }
}
