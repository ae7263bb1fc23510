/**
 * Who may change an organisation: over every run, members come in by an
 * invitation of an active admin and their own acceptance, leave by the owner's
 * rotation, and are re-wrapped by an owner alone; published identities stay
 * (crates/nopass-api/src/routes/orgs.rs, crates/nopass-api/src/db/orgs.rs).
 */
module OrgAuthority {
  import opened Wrappers
  import opened Bytes
  import opened IdealCrypto
  import opened Identity
  import opened OrgServer
  import opened OrgGraph

  /** An active admin of the organisation invites the user with this role. */
  predicate Invites(db: Db, req: Request, id: Uuid, user: Uuid, role: string) {
    && req.Invite? && req.org == id && req.user == user && req.role == role && (role == "admin" || role == "member")
    && id in db.orgs && req.caller in db.orgs[id].members
    && var inviter := db.orgs[id].members[req.caller];
       inviter.status == Active && (inviter.role == "owner" || inviter.role == "admin")
  }

  /** The user creates the organisation. */
  predicate Creates(db: Db, req: Request, id: Uuid, user: Uuid) {
    req.CreateOrg? && req.id == id && req.caller == user && id !in db.orgs && user in db.users
  }

  /** An active owner sends the request for this organisation. */
  predicate ByOwner(db: Db, caller: Uuid, id: Uuid) {
    id in db.orgs && caller in db.orgs[id].members && db.orgs[id].members[caller].status == Active
    && db.orgs[id].members[caller].role == "owner"
  }

  function MembersOf(db: Db, id: Uuid): map<Uuid, Member> {
    if id in db.orgs then db.orgs[id].members else map[]
  }

  /** What one request may do to one member row, and who has to send it. */
  ghost predicate Authorised(db: Db, req: Request, id: Uuid, u: Uuid) {
    var a, b := MembersOf(db, id), MembersOf(Handle(db, req), id);
    && (u !in a && u in b ==>
          || (Creates(db, req, id, u) && b[u].role == "owner" && b[u].status == Active)
          || (Invites(db, req, id, u, b[u].role) && b[u].status == Pending && b[u].invitedBy == Some(req.caller)))
    && (u in a && u !in b ==> req.Rotate? && ByOwner(db, req.caller, id) && req.rotation.removeUser == Some(u) && a[u].role != "owner")
    && (u in a && u in b ==>
          && b[u].role == a[u].role
          && (b[u].status == a[u].status || (req == Accept(u, id) && a[u].status == Pending && b[u].status == Active))
          && (b[u].(status := a[u].status) == a[u] || ((req.Resign? || req.Rotate?) && ByOwner(db, req.caller, id))))
  }

  lemma MemberChangeIsAuthorised(db: Db, req: Request, id: Uuid, u: Uuid)
    ensures Authorised(db, req, id, u)
  {
    hide RotationOutcome, ApplyWraps;
    match req
    case Resign(caller, org, wraps) =>
      if id in db.orgs {
        WrapsKeepRole(db.orgs[id].members, wraps, caller, u);
      }
    case Rotate(caller, org, rotation) =>
      if id in db.orgs {
        WrapsKeepRole(RemainingMembers(db.orgs[id], rotation.removeUser), rotation.wraps, caller, u);
        RotatedRemoves(db.orgs[id], rotation);
      }
    case _ =>
  }

  lemma RotatedRemoves(org: Org, r: Rotation)
    ensures RotationOutcome(org, r) == Rotated && r.removeUser.Some? ==>
              r.removeUser.value in org.members && org.members[r.removeUser.value].role != "owner"
  {
  }

  lemma {:induction false} WrapsKeepRole(members: map<Uuid, Member>, wraps: seq<Rewrap>, owner: Uuid, u: Uuid)
    ensures u in members ==>
              var m := ApplyWraps(members, wraps, owner)[u]; m.role == members[u].role && m.status == members[u].status
  {
    if wraps != [] {
      WrapsKeepRole(members, wraps[..|wraps| - 1], owner, u);
    }
  }

  // ── Over whole runs ────────────────────────────────────────────────────────

  /** Request `k` of the run brought the user in, with this role. */
  ghost predicate BroughtIn(db: Db, reqs: seq<Request>, k: nat, id: Uuid, u: Uuid, role: string)
    requires k < |reqs|
  {
    var before := Run(db, reqs[..k]);
    Invites(before, reqs[k], id, u, role) || (Creates(before, reqs[k], id, u) && role == "owner")
  }

  /** In every run, a member who was not there at the start was brought in during it, with the role they have: nobody else gets in, or back in. */
  lemma {:induction false} EveryMemberWasBroughtIn(db: Db, reqs: seq<Request>, id: Uuid, u: Uuid)
    requires u in MembersOf(Run(db, reqs), id)
    ensures var role := MembersOf(Run(db, reqs), id)[u].role;
            || (u in MembersOf(db, id) && MembersOf(db, id)[u].role == role)
            || exists k :: 0 <= k < |reqs| && BroughtIn(db, reqs, k, id, u, role)
  {
    hide Handle;
    if reqs != [] {
      var n := |reqs| - 1;
      var init, role := reqs[..n], MembersOf(Run(db, reqs), id)[u].role;
      MemberChangeIsAuthorised(Run(db, init), reqs[n], id, u);
      if u in MembersOf(Run(db, init), id) {
        EveryMemberWasBroughtIn(db, init, id, u);
        if !(u in MembersOf(db, id) && MembersOf(db, id)[u].role == role) {
          var k :| 0 <= k < n && BroughtIn(db, init, k, id, u, role);
          assert init[..k] == reqs[..k];
          assert BroughtIn(db, reqs, k, id, u, role);
        }
      } else {
        assert BroughtIn(db, reqs, n, id, u, role);
      }
    }
  }

  /** Request `k` of the run is the user's own: an acceptance of a pending invitation, or the creation. */
  ghost predicate Joins(db: Db, reqs: seq<Request>, k: nat, id: Uuid, u: Uuid)
    requires k < |reqs|
  {
    var before := Run(db, reqs[..k]);
    || (reqs[k] == Accept(u, id) && u in MembersOf(before, id) && MembersOf(before, id)[u].status == Pending)
    || Creates(before, reqs[k], id, u)
  }

  /** In every run, a member is active because they were at the start or joined themselves. */
  lemma {:induction false} EveryActiveMemberJoined(db: Db, reqs: seq<Request>, id: Uuid, u: Uuid)
    requires u in MembersOf(Run(db, reqs), id) && MembersOf(Run(db, reqs), id)[u].status == Active
    ensures || (u in MembersOf(db, id) && MembersOf(db, id)[u].status == Active)
            || exists k :: 0 <= k < |reqs| && Joins(db, reqs, k, id, u)
  {
    hide Handle;
    if reqs != [] {
      var n := |reqs| - 1;
      var init := reqs[..n];
      MemberChangeIsAuthorised(Run(db, init), reqs[n], id, u);
      if u in MembersOf(Run(db, init), id) && MembersOf(Run(db, init), id)[u].status == Active {
        EveryActiveMemberJoined(db, init, id, u);
        if !(u in MembersOf(db, id) && MembersOf(db, id)[u].status == Active) {
          var k :| 0 <= k < n && Joins(db, init, k, id, u);
          assert init[..k] == reqs[..k];
          assert Joins(db, reqs, k, id, u);
        }
      } else {
        assert Joins(db, reqs, n, id, u);
      }
    }
  }

  /** Whoever an active admin invites, with a role to give and the current epoch, is a pending member afterwards and active once they accept. */
  lemma InvitedThenAccepted(db: Db, caller: Uuid, id: Uuid, u: Uuid, role: string, w: Rewrap)
    requires Invites(db, Invite(caller, id, u, role, w, true), id, u, role) && u !in db.orgs[id].members
    requires u in db.users && db.users[u].publicKey.Some? && w.epoch == db.orgs[id].epoch
    ensures var db1 := Handle(db, Invite(caller, id, u, role, w, true));
            var db2 := Handle(db1, Accept(u, id));
            && id in db1.orgs && db1.orgs[id].members.Keys == db.orgs[id].members.Keys + {u} && db1.orgs[id].members[u].status == Pending
            && id in db2.orgs && u in db2.orgs[id].members && db2.orgs[id].members[u].status == Active
            && db2.orgs[id].members[u].role == role && db2.orgs[id].members[u].encryptedOrgKey == w.encryptedOrgKey
  {
  }

  // ── Published identities ───────────────────────────────────────────────────

  /** In every run, a published identity and public key stay as they are. */
  lemma {:induction false} PublishedKeysStay(db: Db, reqs: seq<Request>, u: Uuid)
    requires u in db.users
    ensures u in Run(db, reqs).users
    ensures var a, b := db.users[u], Run(db, reqs).users[u];
            && (a.identity.Some? ==> b.identity == a.identity && b.signature == a.signature)
            && (a.publicKey.Some? ==> b.publicKey == a.publicKey)
  {
    hide Handle;
    if reqs != [] {
      PublishedKeysStay(db, reqs[..|reqs| - 1], u);
      KeysStay(Run(db, reqs[..|reqs| - 1]), reqs[|reqs| - 1], u);
    }
  }

  lemma KeysStay(db: Db, req: Request, u: Uuid)
    requires u in db.users
    ensures u in Handle(db, req).users
    ensures var a, b := db.users[u], Handle(db, req).users[u];
            && (a.identity.Some? ==> b.identity == a.identity && b.signature == a.signature)
            && (a.publicKey.Some? ==> b.publicKey == a.publicKey)
            && (b != a ==> (req.PublishIdentity? || req.CreateOrg?) && req.caller == u)
  {
  }

  /** The first identity a user publishes for their key is stored. */
  lemma FirstIdentityIsStored(db: Db, u: Uuid, identity: IdentityPublic, sig: Signature)
    requires u in db.users && db.users[u].publicKey.Some? && db.users[u].identity.None?
    ensures var after := Handle(db, PublishIdentity(u, identity, sig));
            after.users == db.users[u := UserKeys(db.users[u].publicKey, Some(identity), Some(sig))] && after.orgs == db.orgs
  {
  }
}
