/**
 * The membership graph of an organisation over every run of requests, and
 * what that means for the wrap chains the server hands out
 * (crates/nopass-api/src/db/orgs.rs, crates/nopass-api/src/routes/orgs.rs).
 */
module OrgGraph {
  import opened Wrappers
  import opened Bytes
  import opened IdealCrypto
  import opened Identity
  import opened OrgServer

  type Members = map<Uuid, Member>

  // ── Invariant ──────────────────────────────────────────────────────────────

  /** The one owner row: active, invited by nobody; everyone else is no owner and has an inviter. */
  ghost predicate OwnerIs(members: Members, owner: Uuid) {
    && owner in members
    && members[owner].role == "owner" && members[owner].status == Active && members[owner].invitedBy.None?
    && (forall u :: u in members && u != owner ==> members[u].role != "owner" && members[u].invitedBy.Some?)
  }

  /** Following `invited_by` for `n` steps, through owners and admins only, leads from `u` to the owner. */
  ghost predicate Climbs(members: Members, u: Uuid, n: nat)
    decreases n
  {
    && u in members
    && if n == 0 then members[u].role == "owner" && members[u].invitedBy.None?
       else && members[u].role != "owner" && members[u].invitedBy.Some?
            && members[u].invitedBy.value in members
            && IsAdminRole(members[members[u].invitedBy.value].role)
            && Climbs(members, members[u].invitedBy.value, n - 1)
  }

  ghost predicate Rooted(members: Members, u: Uuid) {
    exists n: nat :: Climbs(members, u, n)
  }

  /** One owner, and a forest of inviters rooted at it. */
  ghost predicate IsForest(members: Members) {
    && (exists owner :: OwnerIs(members, owner))
    && (forall u :: u in members ==> Rooted(members, u))
  }

  ghost predicate HaveKeys(members: Members, users: Users) {
    forall u :: u in members ==> u in users && users[u].publicKey.Some?
  }

  /** Every signed row is at the organisation's current epoch. */
  ghost predicate EpochsCurrent(org: Org) {
    forall u :: u in org.members && org.members[u].signature.Some? && org.members[u].epoch.Some? ==>
      org.members[u].epoch.value == org.epoch
  }

  ghost predicate GraphInv(db: Db) {
    forall id :: id in db.orgs ==> IsForest(db.orgs[id].members) && HaveKeys(db.orgs[id].members, db.users)
  }

  ghost predicate EpochInv(db: Db) {
    forall id :: id in db.orgs ==> EpochsCurrent(db.orgs[id])
  }

  // ── Steps ──────────────────────────────────────────────────────────────────

  lemma {:induction false} ClimbsWithin(a: Members, b: Members, u: Uuid, n: nat)
    requires Climbs(a, u, n)
    requires forall x :: x in a ==> x in b && a[x].role == b[x].role && a[x].invitedBy == b[x].invitedBy
    ensures Climbs(b, u, n)
    decreases n
  {
    if n > 0 {
      ClimbsWithin(a, b, a[u].invitedBy.value, n - 1);
    }
  }

  lemma SameEdgesKeepForest(a: Members, b: Members)
    requires IsForest(a) && a.Keys == b.Keys
    requires forall x :: x in a ==> a[x].role == b[x].role && a[x].invitedBy == b[x].invitedBy
    requires forall x :: x in a && a[x].status == Active ==> b[x].status == Active
    ensures IsForest(b)
  {
    var owner :| OwnerIs(a, owner);
    assert OwnerIs(b, owner);
    forall u | u in b ensures Rooted(b, u) {
      assert Rooted(a, u);
      var n: nat :| Climbs(a, u, n);
      ClimbsWithin(a, b, u, n);
    }
  }

  lemma InviteKeepsForest(a: Members, u: Uuid, row: Member, caller: Uuid)
    requires IsForest(a) && u !in a
    requires caller in a && IsAdminRole(a[caller].role)
    requires row.role != "owner" && row.invitedBy == Some(caller)
    ensures IsForest(a[u := row])
  {
    var b := a[u := row];
    var owner :| OwnerIs(a, owner);
    assert OwnerIs(b, owner);
    forall x | x in b ensures Rooted(b, x) {
      var y := if x == u then caller else x;
      assert Rooted(a, y);
      var n: nat :| Climbs(a, y, n);
      ClimbsWithin(a, b, y, n);
      assert x == u ==> Climbs(b, u, n + 1);
    }
  }

  /** `b` is `a` with some rows hung directly under the owner. */
  ghost predicate Reparented(a: Members, b: Members, owner: Uuid) {
    && a.Keys == b.Keys
    && (forall x :: x in a ==>
          && a[x].role == b[x].role && a[x].status == b[x].status
          && (b[x].invitedBy == a[x].invitedBy || b[x].invitedBy == if x == owner then None else Some(owner)))
  }

  lemma {:induction false} ApplyWrapsReparents(members: Members, wraps: seq<Rewrap>, owner: Uuid)
    ensures Reparented(members, ApplyWraps(members, wraps, owner), owner)
  {
    if wraps != [] {
      ApplyWrapsReparents(members, wraps[..|wraps| - 1], owner);
    }
  }

  lemma {:induction false} ClimbsReparented(a: Members, b: Members, owner: Uuid, u: Uuid, n: nat)
    requires OwnerIs(a, owner) && Reparented(a, b, owner) && Climbs(a, u, n)
    ensures Rooted(b, u)
    decreases n
  {
    if b[u].invitedBy != a[u].invitedBy || n == 0 {
      assert Climbs(b, owner, 0);
      assert u == owner || Climbs(b, u, 1);
    } else {
      var p := a[u].invitedBy.value;
      ClimbsReparented(a, b, owner, p, n - 1);
      var m: nat :| Climbs(b, p, m);
      assert Climbs(b, u, m + 1);
    }
  }

  lemma ReparentedKeepsForest(a: Members, b: Members, owner: Uuid)
    requires IsForest(a) && OwnerIs(a, owner) && Reparented(a, b, owner)
    ensures IsForest(b) && OwnerIs(b, owner)
  {
    assert OwnerIs(b, owner);
    forall u | u in b ensures Rooted(b, u) {
      assert Rooted(a, u);
      var n: nat :| Climbs(a, u, n);
      ClimbsReparented(a, b, owner, u, n);
    }
  }

  /** With distinct users, every wrapped row carries exactly its own wrap, and no other row changes. */
  lemma {:induction false} WrapLands(members: Members, wraps: seq<Rewrap>, owner: Uuid, i: nat)
    requires i < |wraps| && Distinct(WrapUsers(wraps)) && wraps[i].user in members
    ensures ApplyWraps(members, wraps, owner)[wraps[i].user] == Rewrapped(members[wraps[i].user], wraps[i], owner)
  {
    var n := |wraps| - 1;
    var front := wraps[..n];
    assert forall k :: 0 <= k < |wraps| ==> WrapUsers(wraps)[k] == wraps[k].user;
    assert forall k :: 0 <= k < n ==> WrapUsers(front)[k] == wraps[k].user;
    if i < n {
      assert WrapUsers(wraps)[i] != WrapUsers(wraps)[n];
      WrapLands(members, front, owner, i);
    } else {
      OthersStay(members, front, owner, wraps[n].user);
    }
  }

  lemma {:induction false} OthersStay(members: Members, wraps: seq<Rewrap>, owner: Uuid, u: Uuid)
    requires u in members && forall k :: 0 <= k < |wraps| ==> WrapUsers(wraps)[k] != u
    ensures ApplyWraps(members, wraps, owner)[u] == members[u]
  {
    if wraps != [] {
      var front := wraps[..|wraps| - 1];
      assert forall k :: 0 <= k < |front| ==> WrapUsers(front)[k] == WrapUsers(wraps)[k];
      assert WrapUsers(wraps)[|wraps| - 1] != u;
      OthersStay(members, front, owner, u);
    }
  }

  /** After an accepted rotation each remaining row is its own wrap's, at the new epoch. */
  lemma RotatedRow(org: Org, owner: Uuid, r: Rotation, u: Uuid) returns (i: nat)
    requires RotationOutcome(org, r) == Rotated
    requires u in RemainingMembers(org, r.removeUser)
    ensures i < |r.wraps| && r.wraps[i].user == u && r.wraps[i].epoch == r.newEpoch
    ensures RotatedOrg(org, owner, r).members[u] == Rewrapped(org.members[u], r.wraps[i], owner)
  {
    assert u in WrapUsers(r.wraps);
    i :| 0 <= i < |r.wraps| && WrapUsers(r.wraps)[i] == u;
    WrapLands(RemainingMembers(org, r.removeUser), r.wraps, owner, i);
  }

  /** Everyone hangs directly under the owner. */
  lemma StarIsForest(b: Members, owner: Uuid)
    requires OwnerIs(b, owner)
    requires forall u :: u in b && u != owner ==> b[u].invitedBy == Some(owner)
    ensures IsForest(b)
  {
    forall u | u in b ensures Rooted(b, u) {
      assert Climbs(b, owner, 0);
      assert u == owner || Climbs(b, u, 1);
    }
  }

  lemma RotatedRows(org: Org, owner: Uuid, r: Rotation)
    requires RotationOutcome(org, r) == Rotated
    ensures var b := RotatedOrg(org, owner, r).members;
            && b.Keys == RemainingMembers(org, r.removeUser).Keys
            && forall u :: u in b ==>
                 && b[u].role == org.members[u].role && b[u].status == org.members[u].status
                 && b[u].invitedBy == (if u == owner then None else Some(owner))
                 && b[u].epoch == Some(r.newEpoch)
  {
    var b := RotatedOrg(org, owner, r).members;
    forall u | u in b
      ensures b[u].role == org.members[u].role && b[u].status == org.members[u].status
      ensures b[u].invitedBy == if u == owner then None else Some(owner)
      ensures b[u].epoch == Some(r.newEpoch)
    {
      var i := RotatedRow(org, owner, r, u);
    }
  }

  lemma RotateKeepsForest(org: Org, owner: Uuid, r: Rotation)
    requires OwnerIs(org.members, owner)
    requires RotationOutcome(org, r) == Rotated
    ensures IsForest(RotatedOrg(org, owner, r).members) && OwnerIs(RotatedOrg(org, owner, r).members, owner)
    ensures EpochsCurrent(RotatedOrg(org, owner, r))
  {
    RotatedRows(org, owner, r);
    hide ApplyWraps, ApplyItems, WithoutIds, WrapsComplete, ItemsComplete;
    StarIsForest(RotatedOrg(org, owner, r).members, owner);
  }

  lemma {:induction false} RewrapEpochs(members: Members, wraps: seq<Rewrap>, owner: Uuid, epoch: int)
    requires forall i :: 0 <= i < |wraps| ==> wraps[i].epoch == epoch
    ensures var b := ApplyWraps(members, wraps, owner);
            forall u :: u in b ==> b[u].epoch == Some(epoch) || (b[u].epoch == members[u].epoch && b[u].signature == members[u].signature)
  {
    if wraps != [] {
      RewrapEpochs(members, wraps[..|wraps| - 1], owner, epoch);
    }
  }

  /** The caller the owner guard lets through is the owner of the graph. */
  lemma CallerIsOwner(org: Org, caller: Uuid)
    requires IsForest(org.members) && IsOwner(org, caller)
    ensures OwnerIs(org.members, caller)
  {
  }

  /** The organisation `id` is all that a request changes, apart from published keys. */
  lemma OneOrgStep(db: Db, db': Db, id: Uuid)
    requires GraphInv(db)
    requires forall x :: x in db.users ==> x in db'.users && (db.users[x].publicKey.Some? ==> db'.users[x].publicKey.Some?)
    requires db'.orgs.Keys == db.orgs.Keys + {id}
    requires forall x :: x in db.orgs && x != id ==> db'.orgs[x] == db.orgs[x]
    requires IsForest(db'.orgs[id].members) && HaveKeys(db'.orgs[id].members, db'.users)
    ensures GraphInv(db')
  {
    hide IsForest;
  }

  lemma HandleKeepsGraph(db: Db, req: Request)
    requires GraphInv(db)
    ensures GraphInv(Handle(db, req))
  {
    hide Handle, GraphInv;
    match req
    case CreateOrg(_, _, _, _, _, _) => CreateKeepsGraph(db, req);
    case Invite(_, _, _, _, _, _) => InviteKeepsGraph(db, req);
    case Accept(_, _) => AcceptKeepsGraph(db, req);
    case Resign(caller, org, wraps) => ResignKeepsGraph(db, caller, org, wraps);
    case Rotate(caller, org, rotation) => RotateKeepsGraph(db, caller, org, rotation);
    case PublishIdentity(_, _, _) => PublishKeepsGraph(db, req);
    case ChangeItems(_, _) => ItemsKeepGraph(db, req);
  }

  lemma CreateKeepsGraph(db: Db, req: Request)
    requires GraphInv(db) && req.CreateOrg?
    ensures GraphInv(Handle(db, req))
  {
    var db' := Handle(db, req);
    if db' != db {
      var org := NewOrg(req.caller, req.encryptedOrgKey, req.signature, req.epoch);
      assert db'.orgs == db.orgs[req.id := org];
      NewOrgIsForest(req.caller, org);
      hide IsForest, Handle, NewOrg;
      OneOrgStep(db, db', req.id);
    }
  }

  lemma NewOrgIsForest(caller: Uuid, org: Org)
    requires exists key, signature, epoch :: org == NewOrg(caller, key, signature, epoch)
    ensures IsForest(org.members) && org.members.Keys == {caller}
  {
    assert OwnerIs(org.members, caller);
    StarIsForest(org.members, caller);
  }

  lemma InviteKeepsGraph(db: Db, req: Request)
    requires GraphInv(db) && req.Invite?
    ensures GraphInv(Handle(db, req))
  {
    var db' := Handle(db, req);
    if db' != db && req.user !in db.orgs[req.org].members {
      InviteKeepsForest(db.orgs[req.org].members, req.user, db'.orgs[req.org].members[req.user], req.caller);
      OneOrgStep(db, db', req.org);
    }
  }

  lemma AcceptKeepsGraph(db: Db, req: Request)
    requires GraphInv(db) && req.Accept?
    ensures GraphInv(Handle(db, req))
  {
    hide IsForest;
    if req.org in db.orgs {
      var org := db.orgs[req.org];
      AcceptKeepsForest(org, req.caller);
      hide Accepted;
      OneOrgStep(db, Handle(db, req), req.org);
    }
  }

  lemma AcceptKeepsForest(org: Org, user: Uuid)
    requires IsForest(org.members)
    ensures IsForest(Accepted(org, user).members) && Accepted(org, user).members.Keys == org.members.Keys
  {
    hide IsForest;
    SameEdgesKeepForest(org.members, Accepted(org, user).members);
  }

  lemma ItemsKeepGraph(db: Db, req: Request)
    requires GraphInv(db) && req.ChangeItems?
    ensures GraphInv(Handle(db, req))
  {
    hide IsForest;
    if req.org in db.orgs {
      OneOrgStep(db, Handle(db, req), req.org);
    }
  }

  lemma PublishKeepsGraph(db: Db, req: Request)
    requires GraphInv(db) && req.PublishIdentity?
    ensures GraphInv(Handle(db, req))
  {
    hide IsForest;
  }

  lemma ResignKeepsGraph(db: Db, caller: Uuid, org: Uuid, wraps: seq<Rewrap>)
    requires GraphInv(db)
    ensures GraphInv(Handle(db, Resign(caller, org, wraps)))
  {
    var db' := Handle(db, Resign(caller, org, wraps));
    if db' != db {
      CallerIsOwner(db.orgs[org], caller);
      ApplyWrapsReparents(db.orgs[org].members, wraps, caller);
      ReparentedKeepsForest(db.orgs[org].members, db'.orgs[org].members, caller);
      OneOrgStep(db, db', org);
    }
  }

  lemma RotateKeepsGraph(db: Db, caller: Uuid, org: Uuid, r: Rotation)
    requires GraphInv(db)
    ensures GraphInv(Handle(db, Rotate(caller, org, r)))
  {
    hide IsForest, RotatedOrg, RotationOutcome, IsOwner;
    var db' := Handle(db, Rotate(caller, org, r));
    if db' != db {
      RotatedIsSound(db.orgs[org], caller, r);
      OneOrgStep(db, db', org);
    }
  }

  lemma RotatedIsSound(org: Org, caller: Uuid, r: Rotation)
    requires IsForest(org.members) && IsOwner(org, caller) && RotationOutcome(org, r) == Rotated
    ensures IsForest(RotatedOrg(org, caller, r).members) && RotatedOrg(org, caller, r).members.Keys <= org.members.Keys
  {
    CallerIsOwner(org, caller);
    RotateKeepsForest(org, caller, r);
    RotatedRows(org, caller, r);
    hide IsForest, RotationOutcome, RotatedOrg;
  }

  /** A create request that signs for the epoch the new organisation starts at. */
  predicate SignsFirstEpoch(req: Request) {
    req.CreateOrg? && req.signature.Some? && req.epoch.Some? ==> req.epoch.value == 1
  }

  lemma HandleKeepsEpochs(db: Db, req: Request)
    requires GraphInv(db) && EpochInv(db) && (Handle(db, req) != db ==> SignsFirstEpoch(req))
    ensures EpochInv(Handle(db, req))
  {
    if req.Resign? {
      ResignKeepsEpochs(db, req.caller, req.org, req.wraps);
    } else if req.Rotate? {
      RotateKeepsEpochs(db, req.caller, req.org, req.rotation);
    } else {
      hide GraphInv;
    }
  }

  lemma ResignKeepsEpochs(db: Db, caller: Uuid, org: Uuid, wraps: seq<Rewrap>)
    requires EpochInv(db)
    ensures EpochInv(Handle(db, Resign(caller, org, wraps)))
  {
    if Handle(db, Resign(caller, org, wraps)) != db {
      RewrapEpochs(db.orgs[org].members, wraps, caller, db.orgs[org].epoch);
    }
  }

  lemma RotateKeepsEpochs(db: Db, caller: Uuid, org: Uuid, rotation: Rotation)
    requires GraphInv(db) && EpochInv(db)
    ensures EpochInv(Handle(db, Rotate(caller, org, rotation)))
  {
    if Handle(db, Rotate(caller, org, rotation)) != db {
      CallerIsOwner(db.orgs[org], caller);
      RotateKeepsForest(db.orgs[org], caller, rotation);
    }
    hide GraphInv, RotatedOrg;
  }

  /** The server does not check a new organisation's epoch: signing for any other one breaks the rule at once. */
  lemma WrongFirstEpochBreaksRule(db: Db, req: Request)
    requires EpochInv(db) && req.CreateOrg? && Handle(db, req) != db
    ensures EpochInv(Handle(db, req)) <==> SignsFirstEpoch(req)
  {
    var db' := Handle(db, req);
    assert db'.orgs[req.id].members[req.caller].epoch == req.epoch;
    assert !SignsFirstEpoch(req) ==> !EpochsCurrent(db'.orgs[req.id]);
  }

  ghost function Run(db: Db, reqs: seq<Request>): Db {
    if reqs == [] then db else Handle(Run(db, reqs[..|reqs| - 1]), reqs[|reqs| - 1])
  }

  /** Every creation the server accepts in the run signs epoch 1. */
  ghost predicate CreationsSignFirstEpoch(db: Db, reqs: seq<Request>) {
    forall k :: 0 <= k < |reqs| ==> Handle(Run(db, reqs[..k]), reqs[k]) != Run(db, reqs[..k]) ==> SignsFirstEpoch(reqs[k])
  }

  lemma CreationsOfPrefix(db: Db, reqs: seq<Request>, n: nat)
    requires n <= |reqs| && CreationsSignFirstEpoch(db, reqs)
    ensures CreationsSignFirstEpoch(db, reqs[..n])
  {
    hide Handle, SignsFirstEpoch;
    forall k | 0 <= k < n ensures reqs[..n][..k] == reqs[..k] && reqs[..n][k] == reqs[k] {}
  }

  /**
   * From a database without organisations, in every run of requests by anyone:
   * one owner row per organisation, inviters forming a forest of owners and
   * admins rooted at it, and keys published by every member.
   */
  lemma {:induction false} EveryRunKeepsGraph(db: Db, reqs: seq<Request>)
    requires db.orgs == map[]
    ensures GraphInv(Run(db, reqs))
    ensures CreationsSignFirstEpoch(db, reqs) ==> EpochInv(Run(db, reqs))
  {
    hide Handle, SignsFirstEpoch;
    if reqs != [] {
      var n := |reqs| - 1;
      EveryRunKeepsGraph(db, reqs[..n]);
      HandleKeepsGraph(Run(db, reqs[..n]), reqs[n]);
      if CreationsSignFirstEpoch(db, reqs) {
        CreationsOfPrefix(db, reqs, n);
        HandleKeepsEpochs(Run(db, reqs[..n]), reqs[n]);
      }
    }
  }

  /** Signed rows are at the current epoch throughout a run exactly when every accepted creation signs epoch 1. */
  lemma EpochsCurrentThroughout(db: Db, reqs: seq<Request>)
    requires db.orgs == map[]
    ensures (forall k :: 0 <= k <= |reqs| ==> EpochInv(Run(db, reqs[..k]))) <==> CreationsSignFirstEpoch(db, reqs)
  {
    hide Handle, EpochInv, SignsFirstEpoch;
    if CreationsSignFirstEpoch(db, reqs) {
      forall k | 0 <= k <= |reqs| ensures EpochInv(Run(db, reqs[..k])) {
        CreationsOfPrefix(db, reqs, k);
        EveryRunKeepsGraph(db, reqs[..k]);
      }
    }
    if forall k :: 0 <= k <= |reqs| ==> EpochInv(Run(db, reqs[..k])) {
      forall k | 0 <= k < |reqs| && Handle(Run(db, reqs[..k]), reqs[k]) != Run(db, reqs[..k]) ensures SignsFirstEpoch(reqs[k]) {
        assert reqs[..k + 1][..k] == reqs[..k];
        assert EpochInv(Run(db, reqs[..k])) && EpochInv(Run(db, reqs[..k + 1]));
        OnlyCreationsSign(Run(db, reqs[..k]), reqs[k]);
      }
    }
  }

  lemma OnlyCreationsSign(db: Db, req: Request)
    requires EpochInv(db) && Handle(db, req) != db && EpochInv(Handle(db, req))
    ensures SignsFirstEpoch(req)
  {
    if req.CreateOrg? {
      WrongFirstEpochBreaksRule(db, req);
    }
  }

  // ── Chains ─────────────────────────────────────────────────────────────────

  /** The `i`-th row above `u`. */
  ghost function Ancestor(members: Members, u: Uuid, i: nat): Uuid
    decreases i
  {
    if i == 0 || u !in members then u else Ancestor(members, SignerOf(u, members[u]), i - 1)
  }

  lemma {:induction false} AncestorClimbs(members: Members, u: Uuid, n: nat, i: nat)
    requires Climbs(members, u, n) && i <= n
    ensures Climbs(members, Ancestor(members, u, i), n - i)
    ensures i < n ==> Ancestor(members, u, i + 1) == members[Ancestor(members, u, i)].invitedBy.value
    decreases i
  {
    if i > 0 {
      AncestorClimbs(members, members[u].invitedBy.value, n - 1, i - 1);
    } else if n > 0 {
      assert Ancestor(members, u, 1) == Ancestor(members, SignerOf(u, members[u]), 0);
    }
  }

  lemma {:induction false} HeightIsUnique(members: Members, u: Uuid, m: nat, n: nat)
    requires Climbs(members, u, m) && Climbs(members, u, n)
    ensures m == n
    decreases n
  {
    if m > 0 && n > 0 {
      HeightIsUnique(members, members[u].invitedBy.value, m - 1, n - 1);
    }
  }

  lemma InviterIsAnother(members: Members, u: Uuid, n: nat)
    requires Climbs(members, u, n) && n > 0
    ensures members[u].invitedBy.value != u
  {
  }

  function LinkOf(org: Org, users: Users, u: Uuid): WrapLink
    requires u in org.members && SignerOf(u, org.members[u]) in users && users[SignerOf(u, org.members[u])].publicKey.Some?
  {
    var m := org.members[u];
    var s := SignerOf(u, m);
    WrapLink(u, m.role, m.encryptedOrgKey, m.signature, m.epoch, s, BundleOf(s, users[s]))
  }

  /** The server's chain is the path to the owner, cut off after seventeen rows. */
  lemma {:induction false} ChainIsPath(org: Org, users: Users, u: Uuid, n: nat, depth: nat)
    requires Climbs(org.members, u, n) && HaveKeys(org.members, users) && depth <= MAX_DEPTH
    ensures var chain := WrapChain(org, users, u, depth);
            && |chain| == (if n <= MAX_DEPTH - depth then n else MAX_DEPTH - depth) + 1
            && (forall i :: 0 <= i < |chain| ==>
                  var a := Ancestor(org.members, u, i);
                  && a in org.members && SignerOf(a, org.members[a]) in users
                  && users[SignerOf(a, org.members[a])].publicKey.Some?
                  && chain[i] == LinkOf(org, users, a))
    decreases n
  {
    var chain := WrapChain(org, users, u, depth);
    assert Ancestor(org.members, u, 0) == u;
    if n > 0 && depth < MAX_DEPTH {
      var p := org.members[u].invitedBy.value;
      InviterIsAnother(org.members, u, n);
      ChainIsPath(org, users, p, n - 1, depth + 1);
      var rest := WrapChain(org, users, p, depth + 1);
      assert chain == [LinkOf(org, users, u)] + rest;
      forall i | 0 < i < |chain| ensures chain[i] == rest[i - 1] && Ancestor(org.members, u, i) == Ancestor(org.members, p, i - 1) {
      }
    }
  }

  /** Every row on the path is signed. */
  ghost predicate PathSigned(members: Members, u: Uuid, n: nat) {
    forall i :: 0 <= i <= n ==>
      var a := Ancestor(members, u, i);
      a in members && members[a].signature.Some? && members[a].epoch.Some?
  }

  ghost predicate StructureHolds(chain: seq<Link>, orgId: Uuid, me: Uuid) {
    && OwnLink(chain, orgId, me) && |chain| <= MAX_CHAIN
    && forall i :: 0 <= i < |chain| ==> StructureProblem(chain, i, orgId).None?
  }

  predicate HasLink(org: Org, users: Users, orgId: Uuid, chain: seq<Link>, i: nat, u: Uuid) {
    && i < |chain| && u in org.members && SignerOf(u, org.members[u]) in users
    && users[SignerOf(u, org.members[u])].publicKey.Some?
    && chain[i] == LinkFromServer(orgId, LinkOf(org, users, u))
    && org.members[u].signature.Some? && org.members[u].epoch == Some(org.epoch)
  }

  lemma PathHasLink(org: Org, users: Users, orgId: Uuid, u: Uuid, n: nat, i: nat)
    requires Climbs(org.members, u, n) && HaveKeys(org.members, users) && EpochsCurrent(org)
    requires i <= n <= MAX_CHAIN - 1 && PathSigned(org.members, u, n)
    ensures |ChainFromServer(orgId, WrapChain(org, users, u, 0))| == n + 1
    ensures HasLink(org, users, orgId, ChainFromServer(orgId, WrapChain(org, users, u, 0)), i, Ancestor(org.members, u, i))
  {
    ChainIsPath(org, users, u, n, 0);
    hide WrapChain, Climbs;
    var a := Ancestor(org.members, u, i);
    assert a in org.members && org.members[a].signature.Some? && org.members[a].epoch.Some?;
  }

  /** The checks on one link, given the rows of the chain's first link, this link and the next. */
  lemma LinkHolds(org: Org, users: Users, orgId: Uuid, chain: seq<Link>, i: nat, first: Uuid, a: Uuid, n: nat)
    requires i <= n && |chain| == n + 1 && Climbs(org.members, a, n - i)
    requires HasLink(org, users, orgId, chain, 0, first) && HasLink(org, users, orgId, chain, i, a)
    requires i < n ==> HasLink(org, users, orgId, chain, i + 1, org.members[a].invitedBy.value)
    ensures StructureProblem(chain, i, orgId).None?
  {
    if i < n {
      InviterIsAnother(org.members, a, n - i);
    }
  }

  lemma PathLinkHolds(org: Org, users: Users, orgId: Uuid, u: Uuid, n: nat, i: nat)
    requires Climbs(org.members, u, n) && HaveKeys(org.members, users) && EpochsCurrent(org)
    requires i <= n <= MAX_CHAIN - 1 && PathSigned(org.members, u, n)
    ensures var chain := ChainFromServer(orgId, WrapChain(org, users, u, 0));
            i < |chain| && StructureProblem(chain, i, orgId).None?
  {
    hide HasLink, WrapChain, ChainFromServer, Climbs, PathSigned, StructureProblem, Ancestor, HaveKeys, EpochsCurrent;
    AncestorClimbs(org.members, u, n, i);
    PathHasLink(org, users, orgId, u, n, 0);
    PathHasLink(org, users, orgId, u, n, i);
    if i < n {
      PathHasLink(org, users, orgId, u, n, i + 1);
    }
    LinkHolds(org, users, orgId, ChainFromServer(orgId, WrapChain(org, users, u, 0)), i,
              Ancestor(org.members, u, 0), Ancestor(org.members, u, i), n);
  }

  /**
   * In an organisation that keeps the invariants, the chain served to a member
   * passes every structural check of the client exactly when its full length
   * is at most 16 and no row on it is unsigned.
   */
  lemma ServedChainHolds(org: Org, users: Users, orgId: Uuid, u: Uuid, n: nat)
    requires Climbs(org.members, u, n) && HaveKeys(org.members, users) && EpochsCurrent(org)
    ensures StructureHolds(ChainFromServer(orgId, WrapChain(org, users, u, 0)), orgId, u)
            <==> n + 1 <= MAX_CHAIN && PathSigned(org.members, u, n)
  {
    var chain := ChainFromServer(orgId, WrapChain(org, users, u, 0));
    ChainIsPath(org, users, u, n, 0);
    assert Ancestor(org.members, u, 0) == u;
    assert chain[0] == LinkFromServer(orgId, LinkOf(org, users, u));
    if n + 1 <= MAX_CHAIN && PathSigned(org.members, u, n) {
      forall i | 0 <= i < |chain| ensures StructureProblem(chain, i, orgId).None? {
        PathLinkHolds(org, users, orgId, u, n, i);
      }
    }
    if StructureHolds(chain, orgId, u) {
      forall i | 0 <= i <= n
        ensures var a := Ancestor(org.members, u, i);
                a in org.members && org.members[a].signature.Some? && org.members[a].epoch.Some?
      {
        assert StructureProblem(chain, i, orgId).None?;
        assert chain[i] == LinkFromServer(orgId, LinkOf(org, users, Ancestor(org.members, u, i)));
      }
    }
  }

  /** The rows from `u` to the owner, counted without `u`: every member has one such height. */
  ghost predicate HeightIs(members: Members, u: Uuid, n: nat) {
    Climbs(members, u, n) && forall m: nat :: Climbs(members, u, m) ==> m == n
  }

  /**
   * In every run from a database without organisations, whose accepted creations
   * sign epoch 1, every member is at one height above the owner, and the chain served
   * to them passes all structural checks exactly when that height is at most 15
   * and every row up to the owner is signed.
   */
  lemma EveryRunServesChains(db: Db, reqs: seq<Request>, orgId: Uuid, u: Uuid)
    requires db.orgs == map[] && CreationsSignFirstEpoch(db, reqs)
    requires var after := Run(db, reqs); orgId in after.orgs && u in after.orgs[orgId].members
    ensures var after := Run(db, reqs);
            var org := after.orgs[orgId];
            exists n: nat ::
              && HeightIs(org.members, u, n)
              && (StructureHolds(ChainFromServer(orgId, WrapChain(org, after.users, u, 0)), orgId, u)
                  <==> n + 1 <= MAX_CHAIN && PathSigned(org.members, u, n))
  {
    EveryRunKeepsGraph(db, reqs);
    var after := Run(db, reqs);
    var org := after.orgs[orgId];
    assert Rooted(org.members, u);
    var n: nat :| Climbs(org.members, u, n);
    forall m: nat | Climbs(org.members, u, m) ensures m == n {
      HeightIsUnique(org.members, u, m, n);
    }
    assert HeightIs(org.members, u, n);
    hide Climbs, StructureHolds, PathSigned, WrapChain;
    ServedChainHolds(org, after.users, orgId, u, n);
  }
}
