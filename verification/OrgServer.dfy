/**
 * Organisations on the server: the rows of one organisation, the statements
 * that change them and the guards of the handlers in front of them
 * (crates/nopass-api/src/db/orgs.rs, crates/nopass-api/src/routes/orgs.rs).
 */
module OrgServer {
  import opened Wrappers
  import opened Bytes
  import opened IdealCrypto
  import opened Identity
  import opened ItemEnvelope

  datatype Status = Pending | Active

  datatype Member = Member(
    role: string,
    status: Status,
    encryptedOrgKey: ByteString,
    signature: Option<Signature>,
    epoch: Option<int>,
    invitedBy: Option<Uuid>)

  /** Item ids are unique per user only, so an org may hold two rows with one id. */
  datatype ItemRow = ItemRow(id: Uuid, user: Uuid, itemType: string, blob: Blob, version: nat)

  datatype Org = Org(epoch: int, members: map<Uuid, Member>, items: seq<ItemRow>)

  /** A user's published keys. */
  datatype UserKeys = UserKeys(publicKey: Option<ByteString>, identity: Option<IdentityPublic>, signature: Option<Signature>)

  type Users = map<Uuid, UserKeys>

  /** A new wrap for one member, signed by the owner. */
  datatype Rewrap = Rewrap(user: Uuid, encryptedOrgKey: ByteString, signature: Signature, epoch: int)

  // ── Wraps ──────────────────────────────────────────────────────────────────

  /** The UPDATE of one wrap: the owner's row stays self-signed, others become signed by the owner. */
  function Rewrapped(m: Member, w: Rewrap, owner: Uuid): Member {
    m.(encryptedOrgKey := w.encryptedOrgKey, signature := Some(w.signature), epoch := Some(w.epoch),
       invitedBy := if w.user == owner then None else Some(owner))
  }

  function ApplyWrap(members: map<Uuid, Member>, w: Rewrap, owner: Uuid): map<Uuid, Member> {
    if w.user in members then members[w.user := Rewrapped(members[w.user], w, owner)] else members
  }

  function ApplyWraps(members: map<Uuid, Member>, wraps: seq<Rewrap>, owner: Uuid): (r: map<Uuid, Member>)
    ensures r.Keys == members.Keys
  {
    if wraps == [] then members
    else ApplyWrap(ApplyWraps(members, wraps[..|wraps| - 1], owner), wraps[|wraps| - 1], owner)
  }

  function WrapUsers(wraps: seq<Rewrap>): seq<Uuid> {
    seq(|wraps|, i requires 0 <= i < |wraps| => wraps[i].user)
  }

  ghost predicate Distinct<T>(s: seq<T>) {
    forall i, j :: 0 <= i < j < |s| ==> s[i] != s[j]
  }

  // ── Rotation ───────────────────────────────────────────────────────────────

  datatype ReencryptedItem = ReencryptedItem(id: Uuid, blob: Blob)

  datatype Rotation = Rotation(
    newEpoch: int,
    removeUser: Option<Uuid>,
    wraps: seq<Rewrap>,
    items: seq<ReencryptedItem>,
    deleteItems: seq<Uuid>)

  datatype Outcome = Rotated | StaleEpoch | BadRemoval | IncompleteWraps | IncompleteItems

  function ItemIds(items: seq<ItemRow>): set<Uuid> {
    set i | 0 <= i < |items| :: items[i].id
  }

  /** Ids re-encrypted, then ids deleted. */
  function Covered(r: Rotation): seq<Uuid> {
    seq(|r.items|, i requires 0 <= i < |r.items| => r.items[i].id) + r.deleteItems
  }

  function WithoutIds(items: seq<ItemRow>, ids: seq<Uuid>): (r: seq<ItemRow>)
    ensures forall row :: row in r <==> row in items && row.id !in ids
  {
    if items == [] then []
    else
      var n := |items| - 1;
      var r := WithoutIds(items[..n], ids);
      assert items == items[..n] + [items[n]];
      if items[n].id in ids then r else r + [items[n]]
  }

  /** The UPDATE of one re-encrypted item: every row with its id. */
  function ApplyItem(items: seq<ItemRow>, e: ReencryptedItem): (r: seq<ItemRow>)
    ensures |r| == |items|
  {
    seq(|items|, i requires 0 <= i < |items| =>
      if items[i].id == e.id then items[i].(blob := e.blob, version := items[i].version + 1) else items[i])
  }

  function ApplyItems(items: seq<ItemRow>, es: seq<ReencryptedItem>): (r: seq<ItemRow>)
    ensures |r| == |items|
  {
    if es == [] then items else ApplyItem(ApplyItems(items, es[..|es| - 1]), es[|es| - 1])
  }

  function RemainingMembers(org: Org, removed: Option<Uuid>): map<Uuid, Member> {
    if removed.Some? then org.members - {removed.value} else org.members
  }

  predicate RemovalAllowed(org: Org, removed: Option<Uuid>) {
    removed.Some? ==> removed.value in org.members && org.members[removed.value].role != "owner"
  }

  ghost predicate WrapsComplete(org: Org, r: Rotation) {
    && Distinct(WrapUsers(r.wraps))
    && (set u | u in WrapUsers(r.wraps)) == RemainingMembers(org, r.removeUser).Keys
    && (forall i :: 0 <= i < |r.wraps| ==> r.wraps[i].epoch == r.newEpoch)
  }

  ghost predicate ItemsComplete(org: Org, r: Rotation) {
    Distinct(Covered(r)) && (set id | id in Covered(r)) == ItemIds(org.items)
  }

  /** The first check that fails, or Rotated. */
  ghost function RotationOutcome(org: Org, r: Rotation): Outcome {
    if r.newEpoch != org.epoch + 1 then StaleEpoch
    else if !RemovalAllowed(org, r.removeUser) then BadRemoval
    else if !WrapsComplete(org, r) then IncompleteWraps
    else if !ItemsComplete(org, r) then IncompleteItems
    else Rotated
  }

  /** The organisation after an accepted rotation. */
  function RotatedOrg(org: Org, owner: Uuid, r: Rotation): Org {
    Org(r.newEpoch,
        ApplyWraps(RemainingMembers(org, r.removeUser), r.wraps, owner),
        ApplyItems(WithoutIds(org.items, r.deleteItems), r.items))
  }

  /** As many distinct values as positions: no repetition. */
  lemma {:induction false} CountsDistinct(s: seq<Uuid>)
    ensures |set x | x in s| <= |s|
    ensures |set x | x in s| == |s| <==> Distinct(s)
  {
    if s == [] {
      assert (set x | x in s) == {};
    } else {
      var n := |s| - 1;
      var front, last := s[..n], s[n];
      assert s == front + [last];
      CountsDistinct(front);
      var a, b := set x | x in front, set x | x in s;
      assert b == a + {last};
      assert last in a <==> last in front;
      DistinctPush(front, last);
    }
  }

  lemma DistinctPush(front: seq<Uuid>, last: Uuid)
    ensures Distinct(front + [last]) <==> Distinct(front) && last !in front
  {
    var s := front + [last];
    assert forall i :: 0 <= i < |front| ==> s[i] == front[i];
    if last in front {
      var i :| 0 <= i < |front| && front[i] == last;
      assert s[i] == s[|front|];
    }
  }

  class OrgStore {
    var orgs: map<Uuid, Org>

    method InviteMember(orgId: Uuid, user: Uuid, role: string, w: Rewrap, invitedBy: Uuid) returns (ok: bool)
      requires orgId in orgs
      modifies this
      ensures ok == (old(orgs[orgId]).epoch == w.epoch)
      ensures orgs == old(orgs)[orgId := if ok then Invited(old(orgs[orgId]), user, role, w, invitedBy) else old(orgs[orgId])]
    {
      var org := orgs[orgId];
      if org.epoch != w.epoch {
        assert orgs == old(orgs)[orgId := org];
        return false;
      }
      if user !in org.members {
        var row := Member(role, Pending, w.encryptedOrgKey, Some(w.signature), Some(w.epoch), Some(invitedBy));
        orgs := orgs[orgId := org.(members := org.members[user := row])];
      }
      assert orgs == old(orgs)[orgId := Invited(org, user, role, w, invitedBy)];
      return true;
    }

    method AcceptInvite(orgId: Uuid, user: Uuid) returns (ok: bool)
      requires orgId in orgs
      modifies this
      ensures orgs == old(orgs)[orgId := Accepted(old(orgs[orgId]), user)]
      ensures ok == (user in old(orgs[orgId]).members && old(orgs[orgId]).members[user].status == Pending)
    {
      var org := orgs[orgId];
      if user !in org.members || org.members[user].status != Pending {
        assert orgs == old(orgs)[orgId := org];
        return false;
      }
      orgs := orgs[orgId := org.(members := org.members[user := org.members[user].(status := Active)])];
      return true;
    }

    /** All wraps or none: a wrap for somebody who is not a member rolls the batch back. */
    method RewrapMembers(orgId: Uuid, owner: Uuid, wraps: seq<Rewrap>) returns (ok: bool)
      requires orgId in orgs
      modifies this
      ensures ok == forall i :: 0 <= i < |wraps| ==> wraps[i].user in old(orgs[orgId]).members
      ensures orgs == old(orgs)[orgId := if ok then Resigned(old(orgs[orgId]), wraps, owner) else old(orgs[orgId])]
    {
      var org := orgs[orgId];
      assert orgs == old(orgs)[orgId := org];
      var members := org.members;
      for i := 0 to |wraps|
        invariant members == ApplyWraps(org.members, wraps[..i], owner)
        invariant forall j :: 0 <= j < i ==> wraps[j].user in org.members
      {
        assert wraps[..i + 1][..i] == wraps[..i];
        var w := wraps[i];
        if w.user !in members {
          return false;
        }
        members := members[w.user := Rewrapped(members[w.user], w, owner)];
      }
      assert wraps[..|wraps|] == wraps;
      orgs := orgs[orgId := org.(members := members)];
      return true;
    }

    /** Nothing changes unless the request covers exactly the remaining members and all items. */
    method RotateKey(orgId: Uuid, owner: Uuid, r: Rotation) returns (outcome: Outcome)
      requires orgId in orgs
      modifies this
      ensures outcome == RotationOutcome(old(orgs[orgId]), r)
      ensures orgs == if outcome == Rotated
                      then old(orgs)[orgId := RotatedOrg(old(orgs[orgId]), owner, r)]
                      else old(orgs)
    {
      var org := orgs[orgId];
      if r.newEpoch != org.epoch + 1 {
        return StaleEpoch;
      }
      var members := org.members;
      if r.removeUser.Some? {
        if r.removeUser.value !in members || members[r.removeUser.value].role == "owner" {
          return BadRemoval;
        }
        members := members - {r.removeUser.value};
      }
      var wrapped := set u | u in WrapUsers(r.wraps);
      CountsDistinct(WrapUsers(r.wraps));
      if |wrapped| != |r.wraps| || wrapped != members.Keys
         || exists i :: 0 <= i < |r.wraps| && r.wraps[i].epoch != r.newEpoch {
        return IncompleteWraps;
      }
      var covered := Covered(r);
      var submitted := set id | id in covered;
      CountsDistinct(covered);
      if |submitted| != |covered| || submitted != ItemIds(org.items) {
        return IncompleteItems;
      }
      var items := UpdateItems(WithoutIds(org.items, r.deleteItems), r.items);
      members := UpdateWraps(members, r.wraps, owner);
      orgs := orgs[orgId := Org(r.newEpoch, members, items)];
      return Rotated;
    }
  }

  method UpdateItems(rows: seq<ItemRow>, es: seq<ReencryptedItem>) returns (items: seq<ItemRow>)
    ensures items == ApplyItems(rows, es)
  {
    items := rows;
    for i := 0 to |es|
      invariant items == ApplyItems(rows, es[..i])
    {
      assert es[..i + 1][..i] == es[..i];
      items := ApplyItem(items, es[i]);
    }
    assert es[..|es|] == es;
  }

  method UpdateWraps(rows: map<Uuid, Member>, wraps: seq<Rewrap>, owner: Uuid) returns (members: map<Uuid, Member>)
    ensures members == ApplyWraps(rows, wraps, owner)
  {
    members := rows;
    for i := 0 to |wraps|
      invariant members == ApplyWraps(rows, wraps[..i], owner)
    {
      assert wraps[..i + 1][..i] == wraps[..i];
      members := ApplyWrap(members, wraps[i], owner);
    }
    assert wraps[..|wraps|] == wraps;
  }

  // ── Handlers ───────────────────────────────────────────────────────────────

  function Invited(org: Org, user: Uuid, role: string, w: Rewrap, invitedBy: Uuid): Org {
    if user in org.members then org
    else org.(members := org.members[user :=
      Member(role, Pending, w.encryptedOrgKey, Some(w.signature), Some(w.epoch), Some(invitedBy))])
  }

  function Accepted(org: Org, user: Uuid): Org {
    if user in org.members && org.members[user].status == Pending
    then org.(members := org.members[user := org.members[user].(status := Active)]) else org
  }

  function Resigned(org: Org, wraps: seq<Rewrap>, owner: Uuid): Org {
    org.(members := ApplyWraps(org.members, wraps, owner))
  }

  predicate IsActive(org: Org, user: Uuid) {
    user in org.members && org.members[user].status == Active
  }

  predicate IsOwner(org: Org, user: Uuid) {
    IsActive(org, user) && org.members[user].role == "owner"
  }

  datatype Db = Db(orgs: map<Uuid, Org>, users: Users)

  datatype Request =
    | CreateOrg(caller: Uuid, id: Uuid, publicKey: ByteString, encryptedOrgKey: ByteString,
                signature: Option<Signature>, epoch: Option<int>)
    | Invite(caller: Uuid, org: Uuid, user: Uuid, role: string, wrap: Rewrap, withinPlan: bool)
    | Accept(caller: Uuid, org: Uuid)
    | Resign(caller: Uuid, org: Uuid, wraps: seq<Rewrap>)
    | Rotate(caller: Uuid, org: Uuid, rotation: Rotation)
    | PublishIdentity(caller: Uuid, identity: IdentityPublic, bundleSignature: Signature)
    | ChangeItems(org: Uuid, items: seq<ItemRow>)

  function NewOrg(caller: Uuid, encryptedOrgKey: ByteString, signature: Option<Signature>, epoch: Option<int>): Org {
    Org(1, map[caller := Member("owner", Active, encryptedOrgKey, signature, epoch, None)], [])
  }

  /** What one handler does to the database; a refused request changes nothing. Items may change in any way between them. */
  ghost function Handle(db: Db, req: Request): Db {
    match req
    case CreateOrg(caller, id, publicKey, encryptedOrgKey, signature, epoch) =>
      if caller !in db.users || id in db.orgs || (epoch.Some? && epoch.value < 1) then db
      else
        var keys := db.users[caller];
        var keys' := if keys.publicKey.None? then keys.(publicKey := Some(publicKey)) else keys;
        Db(db.orgs[id := NewOrg(caller, encryptedOrgKey, signature, epoch)], db.users[caller := keys'])
    case Invite(caller, org, user, role, wrap, withinPlan) =>
      if && org in db.orgs && IsActive(db.orgs[org], caller) && IsAdminRole(db.orgs[org].members[caller].role)
         && (role == "admin" || role == "member") && withinPlan
         && user in db.users && db.users[user].publicKey.Some? && wrap.epoch == db.orgs[org].epoch
      then db.(orgs := db.orgs[org := Invited(db.orgs[org], user, role, wrap, caller)]) else db
    case Accept(caller, org) =>
      if org in db.orgs then db.(orgs := db.orgs[org := Accepted(db.orgs[org], caller)]) else db
    case Resign(caller, org, wraps) =>
      if && org in db.orgs && IsOwner(db.orgs[org], caller)
         && (forall i :: 0 <= i < |wraps| ==> wraps[i].epoch == db.orgs[org].epoch && wraps[i].user in db.orgs[org].members)
      then db.(orgs := db.orgs[org := Resigned(db.orgs[org], wraps, caller)]) else db
    case Rotate(caller, org, rotation) =>
      if && org in db.orgs && IsOwner(db.orgs[org], caller) && rotation.removeUser != Some(caller)
         && RotationOutcome(db.orgs[org], rotation) == Rotated
      then db.(orgs := db.orgs[org := RotatedOrg(db.orgs[org], caller, rotation)]) else db
    case PublishIdentity(caller, identity, sig) =>
      if caller in db.users && db.users[caller].publicKey.Some? && db.users[caller].identity.None?
      then db.(users := db.users[caller := db.users[caller].(identity := Some(identity), signature := Some(sig))])
      else db
    case ChangeItems(org, items) =>
      if org in db.orgs then db.(orgs := db.orgs[org := db.orgs[org].(items := items)]) else db
  }

  // ── Wrap chains ────────────────────────────────────────────────────────────

  datatype WrapLink = WrapLink(
    recipient: Uuid, role: string, encryptedOrgKey: ByteString,
    signature: Option<Signature>, epoch: Option<int>, signerId: Uuid, signer: KeyBundle)

  const MAX_DEPTH := 16

  function SignerOf(user: Uuid, m: Member): Uuid {
    if m.invitedBy.Some? then m.invitedBy.value else user
  }

  function BundleOf(user: Uuid, keys: UserKeys): KeyBundle
    requires keys.publicKey.Some?
  {
    KeyBundle(user, keys.publicKey.value, keys.identity, keys.signature)
  }

  /** The recursive query: the member's row, the signer's row, and so on; rows without a signer key are left out. */
  function WrapChain(org: Org, users: Users, user: Uuid, depth: nat): (chain: seq<WrapLink>)
    requires depth <= MAX_DEPTH
    decreases MAX_DEPTH - depth
  {
    if user !in org.members then []
    else
      var m := org.members[user];
      var signer := SignerOf(user, m);
      var here := if signer in users && users[signer].publicKey.Some?
                  then [WrapLink(user, m.role, m.encryptedOrgKey, m.signature, m.epoch, signer, BundleOf(signer, users[signer]))]
                  else [];
      if signer != user && depth < MAX_DEPTH then here + WrapChain(org, users, signer, depth + 1) else here
  }

  function LinkFromServer(orgId: Uuid, l: WrapLink): Link {
    Link(OrgKeyWrap(orgId, if l.epoch.Some? then l.epoch.value else 0, l.recipient, l.signerId, l.role, l.encryptedOrgKey),
         if l.epoch.None? then None else l.signature,
         l.signer)
  }

  /** chainFromServer */
  function ChainFromServer(orgId: Uuid, chain: seq<WrapLink>): (links: seq<Link>)
    ensures |links| == |chain|
  {
    seq(|chain|, i requires 0 <= i < |chain| => LinkFromServer(orgId, chain[i]))
  }
}
