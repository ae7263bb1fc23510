/**
 * Which requests write an account's login credential and its recovery kit, and
 * that what is stored is what the last of them wrote
 * (crates/nopass-api/src/db/recovery.rs, db/auth.rs, routes/password.rs,
 * routes/recovery.rs). Nothing here depends on who sends the requests.
 */
module AccountWrites {
  import opened Wrappers
  import opened AccountKeys
  import opened AccountServer
  import opened AccountHandshakes

  /** A password change goes through: a recent session of the user and a proof of the current password. */
  predicate PasswordChangeTaken(db: Db, req: Request, user: nat) {
    && req.PasswordFinish?
    && SessionUser(db, req.session) == Some(user)
    && req.now - db.sessions[req.session].createdAt <= PASSWORD_CHANGE_MAX_SESSION_AGE
    && Proven(db, req.session, req.id, ForPasswordChange, req.password, req.now).Some?
  }

  /** An SRP upgrade goes through: the user still has a verifier, and proved its password in time. */
  predicate UpgradeTaken(db: Db, req: Request, user: nat) {
    && req.UpgradeFinish?
    && SessionUser(db, req.session) == Some(user)
    && db.users[user].srp.Some?
    && var p := FindSrp(db, req.id);
       p.Some? && p.value.user == user && req.now - p.value.createdAt <= LOGIN_TTL && p.value.verifier.password == req.password
  }

  /** A recovery goes through: a live token, and either a wrapped key and no items, or exactly the account's items. */
  predicate RecoveryTaken(db: Db, req: Request, user: nat) {
    && req.RecoveryFinish? && user in db.users
    && (var p := FindRecovery(db, req.token);
        p.Some? && p.value.user == user && req.now - p.value.createdAt <= RECOVERY_TTL)
    && if req.wrapped.Some? then req.items == []
       else DistinctItems(req.items) && RotatedItems(db.users[user].items, Some(req.items)).Some?
  }

  /** The kit the request stores for the user (None clears it); None if it stores none. */
  function KitWritten(db: Db, req: Request, user: nat): Option<Option<Kit>> {
    if req.SetRecovery? && SessionUser(db, req.session) == Some(user) then Some(req.kit)
    else if RecoveryTaken(db, req, user) then Some(Some(req.newKit))
    else None
  }

  function CredentialWritten(db: Db, req: Request, user: nat): Option<NewCredential> {
    if PasswordChangeTaken(db, req, user) || UpgradeTaken(db, req, user) then Some(NewOpaque(req.record))
    else if RecoveryTaken(db, req, user) then Some(req.credential)
    else None
  }

  predicate Stores(u: User, c: NewCredential) {
    match c
    case NewOpaque(record) => u.opaqueRecord == Some(record) && u.srp.None?
    case NewSrp(verifier) => u.srp == Some(verifier) && u.opaqueRecord.None?
  }

  function StoredCredential(u: User): NewCredential
    requires OneCredential(u)
  {
    if u.srp.Some? then NewSrp(u.srp.value) else NewOpaque(u.opaqueRecord.value)
  }

  /** A request leaves the kit and the credential it writes, and otherwise those that were there. */
  lemma WritesLand(db: Db, req: Request, user: nat)
    requires Current(db) && user in db.users
    ensures user in Handle(db, req).0.users
    ensures var u, u', k := db.users[user], Handle(db, req).0.users[user], KitWritten(db, req, user);
            u'.kit == if k.Some? then k.value else u.kit
    ensures var u, u', c := db.users[user], Handle(db, req).0.users[user], CredentialWritten(db, req, user);
            if c.Some? then Stores(u', c.value) else u'.srp == u.srp && u'.opaqueRecord == u.opaqueRecord
  {
    hide Current;
    if req.PasswordFinish? {
      PasswordWrites(db, req, user);
    } else if req.UpgradeFinish? {
      UpgradeWrites(db, req, user);
    } else if req.RecoveryFinish? {
      RecoveryWrites(db, req, user);
    } else {
      OthersWriteNone(db, req, user);
    }
  }

  lemma PasswordWrites(db: Db, req: Request, user: nat)
    requires Current(db) && user in db.users && req.PasswordFinish?
    ensures user in Handle(db, req).0.users
    ensures var u, u' := db.users[user], Handle(db, req).0.users[user];
            && u'.kit == u.kit
            && if PasswordChangeTaken(db, req, user) then Stores(u', NewOpaque(req.record))
               else u'.srp == u.srp && u'.opaqueRecord == u.opaqueRecord
  {
    hide Current;
  }

  lemma UpgradeWrites(db: Db, req: Request, user: nat)
    requires Current(db) && user in db.users && req.UpgradeFinish?
    ensures user in Handle(db, req).0.users
    ensures var u, u' := db.users[user], Handle(db, req).0.users[user];
            && u'.kit == u.kit
            && if UpgradeTaken(db, req, user) then Stores(u', NewOpaque(req.record))
               else u'.srp == u.srp && u'.opaqueRecord == u.opaqueRecord
  {
    hide Current;
  }

  lemma RecoveryWrites(db: Db, req: Request, user: nat)
    requires user in db.users && req.RecoveryFinish?
    ensures user in Handle(db, req).0.users
    ensures var u, u' := db.users[user], Handle(db, req).0.users[user];
            if RecoveryTaken(db, req, user) then Stores(u', req.credential) && u'.kit == Some(req.newKit)
            else u'.srp == u.srp && u'.opaqueRecord == u.opaqueRecord && u'.kit == u.kit
  {
  }

  lemma OthersWriteNone(db: Db, req: Request, user: nat)
    requires user in db.users && !req.PasswordFinish? && !req.UpgradeFinish? && !req.RecoveryFinish?
    ensures user in Handle(db, req).0.users
    ensures var u, u' := db.users[user], Handle(db, req).0.users[user];
            && u'.srp == u.srp && u'.opaqueRecord == u.opaqueRecord
            && u'.kit == if req.SetRecovery? && SessionUser(db, req.session) == Some(user) then req.kit else u.kit
  {
  }

  // ── Over whole runs ────────────────────────────────────────────────────────

  function LatestKit(db: Db, reqs: seq<Request>, user: nat): Option<Kit>
    requires user in db.users
  {
    if reqs == [] then db.users[user].kit
    else
      var n := |reqs| - 1;
      var k := KitWritten(After(db, reqs[..n]), reqs[n], user);
      if k.Some? then k.value else LatestKit(db, reqs[..n], user)
  }

  function LatestCredential(db: Db, reqs: seq<Request>, user: nat): NewCredential
    requires user in db.users && OneCredential(db.users[user])
  {
    if reqs == [] then StoredCredential(db.users[user])
    else
      var n := |reqs| - 1;
      var c := CredentialWritten(After(db, reqs[..n]), reqs[n], user);
      if c.Some? then c.value else LatestCredential(db, reqs[..n], user)
  }

  /** In every run, whoever takes part, kit and credential are those written last. */
  lemma {:induction false} StoredIsLatest(db: Db, reqs: seq<Request>, user: nat)
    requires Current(db) && user in db.users
    ensures user in After(db, reqs).users && OneCredential(db.users[user])
    ensures After(db, reqs).users[user].kit == LatestKit(db, reqs, user)
    ensures Stores(After(db, reqs).users[user], LatestCredential(db, reqs, user))
  {
    hide Handle, KitWritten, CredentialWritten;
    assert OneCredential(db.users[user]);
    hide Current;
    if reqs != [] {
      var init := reqs[..|reqs| - 1];
      StoredIsLatest(db, init, user);
      EveryRunIsCurrent(db, init);
      WritesLand(After(db, init), reqs[|reqs| - 1], user);
    }
  }

  /** The latest kit is the one request `k` wrote if none wrote one after it, and the first one if none wrote any. */
  lemma {:induction false} LatestKitIsLastWritten(db: Db, reqs: seq<Request>, user: nat, k: nat)
    requires user in db.users && k <= |reqs|
    requires forall i :: k <= i < |reqs| ==> KitWritten(After(db, reqs[..i]), reqs[i], user).None?
    ensures LatestKit(db, reqs, user) == LatestKit(db, reqs[..k], user)
    ensures k > 0 && KitWritten(After(db, reqs[..k - 1]), reqs[k - 1], user).Some? ==>
              LatestKit(db, reqs, user) == KitWritten(After(db, reqs[..k - 1]), reqs[k - 1], user).value
    ensures k == 0 ==> LatestKit(db, reqs, user) == db.users[user].kit
    decreases |reqs|
  {
    hide KitWritten, After;
    if k == |reqs| {
      assert reqs[..k] == reqs;
    } else {
      var n := |reqs| - 1;
      var init := reqs[..n];
      forall i | 0 <= i <= n ensures init[..i] == reqs[..i] {}
      assert KitWritten(After(db, reqs[..n]), reqs[n], user).None?;
      assert forall i :: 0 <= i < n ==> init[i] == reqs[i];
      LatestKitIsLastWritten(db, init, user, k);
    }
  }
}
