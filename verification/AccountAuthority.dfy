/**
 * What stands behind every change of an account: a session its user earned
 * with the password, or a token its recovery kit gave; and what each start,
 * proof and sign-out leaves (crates/nopass-api/src/routes/auth.rs,
 * routes/proof.rs, routes/password.rs, routes/recovery.rs, db/pending.rs).
 */
module AccountAuthority {
  import opened Wrappers
  import opened AccountKeys
  import opened Rows
  import opened AccountServer
  import opened AccountHandshakes
  import opened AccountWrites
  import opened AccountSessions

  // ── Changes ────────────────────────────────────────────────────────────────

  /** The session is one that was opened for this user. */
  predicate ActsFor(db: Db, session: nat, user: nat) {
    session in db.sessions && db.sessions[session].user == user
  }

  predicate ChangesBySession(req: Request) {
    req.SetAccountKey? || req.UpgradeFinish? || req.PasswordFinish? || req.SetRecovery? || req.PutKeyPair? || req.WriteItem?
  }

  /** A row changes only by a request under a session of its own user, or under a recovery token of its own user. */
  lemma RowChangeIsAuthorised(db: Db, req: Request, u: nat)
    requires Current(db) && u in db.users
    ensures u in Handle(db, req).0.users
    ensures Handle(db, req).0.users[u] == db.users[u]
            || (ChangesBySession(req) && ActsFor(db, req.session, u))
            || RecoveryTaken(db, req, u)
  {
    hide Current;
    if req.RecoveryFinish? {
      RecoveryNeedsToken(db, req, u);
    } else {
      OthersNeedSession(db, req, u);
    }
  }

  lemma RecoveryNeedsToken(db: Db, req: Request, u: nat)
    requires u in db.users && req.RecoveryFinish?
    ensures u in Handle(db, req).0.users && (Handle(db, req).0.users[u] == db.users[u] || RecoveryTaken(db, req, u))
  {
  }

  lemma OthersNeedSession(db: Db, req: Request, u: nat)
    requires u in db.users && !req.RecoveryFinish?
    ensures u in Handle(db, req).0.users
    ensures Handle(db, req).0.users[u] == db.users[u] || (ChangesBySession(req) && ActsFor(db, req.session, u))
  {
  }

  /** Request `j` typed the password the account had then, and was given session `s` for the user. */
  ghost predicate PasswordGave(db: Db, reqs: seq<Request>, j: nat, s: nat, u: nat)
    requires j < |reqs|
  {
    exists session: Session :: session.user == u && Earns(After(db, reqs[..j]), reqs[j], s, session)
  }

  /** Request `j` presented the auth key of the kit the account still has when request `k` uses the token it was given. */
  predicate KitGave(db: Db, reqs: seq<Request>, j: nat, k: nat, u: nat)
    requires j < k < |reqs| && reqs[k].RecoveryFinish? && u in After(db, reqs[..k]).users
  {
    var kit := After(db, reqs[..k]).users[u].kit;
    reqs[j].RecoveryStart? && reqs[j].token == reqs[k].token && kit.Some? && kit.value.auth == reqs[j].auth
  }

  /**
   * In every run that starts with nobody signed in: behind every change of an
   * account's row stands an earlier sign-in with the password the account had
   * then, or an earlier recovery start with the auth key of the kit it still has.
   */
  lemma EveryChangeIsAuthorised(db: Db, reqs: seq<Request>, k: nat, u: nat)
    requires Current(db) && db.sessions == map[] && db.recoveries == [] && k < |reqs| && u in After(db, reqs[..k]).users
    ensures u in After(db, reqs[..k + 1]).users
    ensures || After(db, reqs[..k + 1]).users[u] == After(db, reqs[..k]).users[u]
            || (ChangesBySession(reqs[k]) && exists j :: 0 <= j < k && PasswordGave(db, reqs, j, reqs[k].session, u))
            || (reqs[k].RecoveryFinish? && exists j :: 0 <= j < k && KitGave(db, reqs, j, k, u))
  {
    hide Handle, Current, PasswordGave, RecoveryTaken;
    var before := After(db, reqs[..k]);
    assert reqs[..k + 1][..k] == reqs[..k];
    EveryRunIsCurrent(db, reqs[..k]);
    RowChangeIsAuthorised(before, reqs[k], u);
    if RecoveryTaken(before, reqs[k], u) {
      TokenCameFromKit(db, reqs, k, u);
    } else if ChangesBySession(reqs[k]) && ActsFor(before, reqs[k].session, u) {
      SessionCameFromPassword(db, reqs, k, reqs[k].session, u);
    }
  }

  lemma SessionCameFromPassword(db: Db, reqs: seq<Request>, k: nat, s: nat, u: nat)
    requires Current(db) && db.sessions == map[] && k < |reqs| && ActsFor(After(db, reqs[..k]), s, u)
    ensures exists j :: 0 <= j < k && PasswordGave(db, reqs, j, s, u)
  {
    hide Handle, Current, Earns;
    var init := reqs[..k];
    EverySessionIsEarned(db, init, s);
    var j :| 0 <= j < k && Earns(After(db, init[..j]), init[j], s, After(db, init).sessions[s]);
    assert init[..j] == reqs[..j];
    assert PasswordGave(db, reqs, j, s, u);
  }

  lemma TokenCameFromKit(db: Db, reqs: seq<Request>, k: nat, u: nat)
    requires Current(db) && db.recoveries == [] && k < |reqs| && RecoveryTaken(After(db, reqs[..k]), reqs[k], u)
    ensures reqs[k].RecoveryFinish? && exists j :: 0 <= j < k && KitGave(db, reqs, j, k, u)
  {
    hide Handle, Current;
    RecoveryIsAuthorised(db, reqs, k, u);
    var j :| 0 <= j < k && reqs[j].RecoveryStart? && reqs[j].token == reqs[k].token
              && After(db, reqs[..k]).users[u].kit.Some? && After(db, reqs[..k]).users[u].kit.value.auth == reqs[j].auth;
    assert KitGave(db, reqs, j, k, u);
  }

  // ── Sessions that end ──────────────────────────────────────────────────────

  /** A session number once drawn and no longer open never opens again. */
  lemma {:induction false} EndedSessionIsDead(db: Db, reqs: seq<Request>, s: nat)
    requires s in db.issued && s !in db.sessions
    ensures s in After(db, reqs).issued && s !in After(db, reqs).sessions
  {
    hide Handle;
    if reqs != [] {
      EndedSessionIsDead(db, reqs[..|reqs| - 1], s);
      EndedStaysEnded(After(db, reqs[..|reqs| - 1]), reqs[|reqs| - 1], s);
    }
  }

  lemma EndedStaysEnded(db: Db, req: Request, s: nat)
    requires s in db.issued && s !in db.sessions
    ensures s in Handle(db, req).0.issued && s !in Handle(db, req).0.sessions
  {
  }

  /** Signing out ends exactly that session, for good. */
  lemma SignOutIsFinal(db: Db, s: nat, reqs: seq<Request>)
    requires s in db.issued
    ensures var db' := Handle(db, EndSession(s)).0;
            && (forall x :: x in db'.sessions <==> x in db.sessions && x != s)
            && (forall x :: x in db'.sessions ==> db'.sessions[x] == db.sessions[x])
            && s !in After(db', reqs).sessions
  {
    EndedSessionIsDead(Handle(db, EndSession(s)).0, reqs, s);
  }

  /** Whoever changes the password or upgrades keeps the session they did it with, and no other. */
  lemma OnlyActingSessionStays(db: Db, req: Request, u: nat)
    requires Current(db) && (PasswordChangeTaken(db, req, u) || UpgradeTaken(db, req, u))
    ensures forall s :: s in Handle(db, req).0.sessions <==> s in db.sessions && (db.sessions[s].user == u ==> s == req.session)
    ensures forall s :: s in Handle(db, req).0.sessions ==> Handle(db, req).0.sessions[s] == db.sessions[s]
  {
    hide Current;
  }

  // ── Starts ─────────────────────────────────────────────────────────────────

  /**
   * A login start leaves a pending row of the same shape for every account key,
   * known or not; one for an account without a record is finished by nobody.
   */
  lemma StartsLookAlike(db: Db, id: nat, accountKey: string, now: int)
    requires Current(db) && id !in db.issued
    ensures var db' := Handle(db, LoginStart(id, accountKey, now)).0;
            && (exists p :: p in db'.opaqueLogins && p.id == id && p.accountKey == accountKey && p.createdAt == now && p.purpose == ForLogin)
            && id in db'.issued && db'.users == db.users && db'.sessions == db.sessions
  {
    hide Current;
    var u := FindUser(db, accountKey);
    var genuine := u.Some? && db.users[u.value].opaqueRecord.Some?;
    var p := PendingOpaque(id, accountKey, if genuine then u else None, if genuine then db.users[u.value].opaqueRecord else None, now, ForLogin);
    NewestStays(db.opaqueLogins, p, OfAccount(accountKey), MAX_PENDING);
  }

  /** Without a record there is no password to finish with, whatever is typed. */
  lemma FakeStartOpensNothing(db: Db, id: nat, accountKey: string, started: int, password: string, session: nat, now: int)
    requires Current(db) && id !in db.issued
    requires forall u :: u in db.users && db.users[u].accountKey == accountKey ==> db.users[u].opaqueRecord.None?
    ensures var db1 := Handle(db, LoginStart(id, accountKey, started)).0;
            var (db2, r) := Handle(db1, LoginFinish(id, password, session, now));
            r.None? && db2.sessions == db.sessions && db2.users == db.users
  {
    var db1 := Handle(db, LoginStart(id, accountKey, started)).0;
    forall p | p in db1.opaqueLogins && p.id == id ensures p.record.None? {
      assert p !in db.opaqueLogins;
    }
    hide Current, InsertOpaque;
  }

  /** An SRP account logs in over SRP with its verifier's password within five minutes. */
  lemma VerifierLogsIn(db: Db, u: nat, id: nat, session: nat, started: int, now: int)
    requires Current(db) && u in db.users && db.users[u].srp.Some? && now - started <= 5 * 60
    requires id !in db.issued && session !in db.issued && id != session
    ensures var password := db.users[u].srp.value.password;
            var db1 := Handle(db, SrpStart(id, db.users[u].accountKey, started)).0;
            var db2 := Handle(db1, SrpFinish(id, password, session, now)).0;
            session in db2.sessions && db2.sessions[session] == Session(u, now)
  {
    var req := SrpStart(id, db.users[u].accountKey, started);
    var db1 := Handle(db, req).0;
    var p := PendingSrp(id, u, db.users[u].srp.value, started);
    SrpStartIsPending(db, u, id, started);
    HandleKeeps(db, req);
    hide Handle, Current;
    LiveSrpStartLogsIn(db1, p, u, db.users[u].srp.value.password, session, now);
  }

  lemma SrpStartIsPending(db: Db, u: nat, id: nat, started: int)
    requires Current(db) && u in db.users && db.users[u].srp.Some? && id !in db.issued
    ensures var db1 := Handle(db, SrpStart(id, db.users[u].accountKey, started)).0;
            PendingSrp(id, u, db.users[u].srp.value, started) in db1.srpLogins && db1.users == db.users && db1.issued == db.issued + {id}
  {
    assert FindUser(db, db.users[u].accountKey) == Some(u);
    hide Current;
    NewestStays(db.srpLogins, PendingSrp(id, u, db.users[u].srp.value, started), OfUser(u), MAX_PENDING);
  }

  /** A new account can be logged in to at once, and its row is what was registered. */
  lemma RegisteredLogsIn(db: Db, u: nat, accountKey: string, record: Credential, privateKey: Option<PrivateKeyBlob>,
                         id: nat, session: nat, started: int, now: int)
    requires Current(db) && u !in db.users && (forall v :: v in db.users ==> db.users[v].accountKey != accountKey)
    requires id !in db.issued && session !in db.issued && id != session && now - started <= 5 * 60
    ensures var db0 := Handle(db, Register(u, accountKey, record, privateKey)).0;
            && u in db0.users && db0.users[u].opaqueRecord == Some(record) && db0.users[u].privateKey == privateKey
            && db0.users[u].accountKey == accountKey && db0.users[u].items == map[]
            && (forall v :: v in db.users ==> v in db0.users && db0.users[v] == db.users[v])
            && var db2 := Handle(Handle(db0, LoginStart(id, accountKey, started)).0, LoginFinish(id, record.password, session, now)).0;
               session in db2.sessions && db2.sessions[session] == Session(u, now)
  {
    var req := Register(u, accountKey, record, privateKey);
    HandleKeeps(db, req);
    RegisteredRow(db, req);
    hide Handle, Current;
    PasswordLogsIn(Handle(db, req).0, u, id, session, started, now);
  }

  lemma RegisteredRow(db: Db, req: Request)
    requires req.Register? && req.user !in db.users && forall v :: v in db.users ==> db.users[v].accountKey != req.accountKey
    ensures var db0 := Handle(db, req).0;
            && db0.issued == db.issued && req.user in db0.users
            && (forall v :: v in db.users ==> v in db0.users && db0.users[v] == db.users[v])
            && var row := db0.users[req.user];
               && row.opaqueRecord == Some(req.record) && row.privateKey == req.privateKey
               && row.accountKey == req.accountKey && row.items == map[]
  {
  }

  // ── Proofs ─────────────────────────────────────────────────────────────────

  /** A start of this proof is due: the session's user logs in over OPAQUE, and a password change has a wrap to replace and a recent session. */
  predicate ProofAllowed(db: Db, session: nat, purpose: Purpose, now: int) {
    && session in db.sessions
    && var u := db.sessions[session].user;
       && u in db.users && db.users[u].opaqueRecord.Some? && purpose != ForLogin
       && (purpose == ForPasswordChange ==> db.users[u].wrapped.Some? && now - db.sessions[session].createdAt <= 15 * 60)
  }

  /** A proof start leaves a pending row of its purpose, for the session's user, exactly when it is allowed; otherwise nothing. */
  lemma ProofStartIff(db: Db, session: nat, id: nat, purpose: Purpose, now: int)
    requires Current(db) && id !in db.issued
    ensures var db' := Handle(db, ProofStart(session, id, purpose, now)).0;
            if ProofAllowed(db, session, purpose, now)
            then var u := db.sessions[session].user;
                 PendingOpaque(id, db.users[u].accountKey, Some(u), db.users[u].opaqueRecord, now, purpose) in db'.opaqueLogins && db'.users == db.users
            else db' == db
  {
    hide Current;
    if ProofAllowed(db, session, purpose, now) {
      var u := db.sessions[session].user;
      var p := PendingOpaque(id, db.users[u].accountKey, Some(u), db.users[u].opaqueRecord, now, purpose);
      NewestStays(db.opaqueLogins, p, OfAccount(p.accountKey), MAX_PENDING);
    }
  }

  /** The handshake a finish of any kind names, once its caller may finish at all. */
  function Attempted(db: Db, req: Request): (id: Option<nat>) {
    match req
    case LoginFinish(id, _, session, _) => if session in db.issued then None else Some(id)
    case SrpFinish(id, _, session, _) => if session in db.issued then None else Some(id)
    case SetAccountKey(session, id, _, _, _) => if SessionUser(db, session).Some? then Some(id) else None
    case PublishIdentity(session, id, _, _) => if SessionUser(db, session).Some? then Some(id) else None
    case UpgradeFinish(session, id, _, _, _, _) => if SessionUser(db, session).Some? then Some(id) else None
    case PasswordFinish(session, id, _, _, _, now) =>
      if SessionUser(db, session).Some? && now - db.sessions[session].createdAt <= 15 * 60 then Some(id) else None
    case _ => None
  }

  /** One guess per start: right or wrong, a finish leaves no row of its kind under the id it named. */
  lemma OneGuessPerStart(db: Db, req: Request)
    requires Attempted(db, req).Some?
    ensures var id, db' := Attempted(db, req).value, Handle(db, req).0;
            if req.SrpFinish? || req.UpgradeFinish? then forall p :: p in db'.srpLogins ==> p.id != id
            else forall p :: p in db'.opaqueLogins ==> p.id != id
  {
    var id := Attempted(db, req).value;
    assert forall q :: q in TakeOpaque(db, id).opaqueLogins ==> q.id != id;
    assert forall q :: q in TakeSrp(db, id).srpLogins ==> q.id != id;
    if req.SrpFinish? || req.UpgradeFinish? {
      var p := FindSrp(db, id);
      if p.None? {
        NoSuchSrp(db, id);
      }
    }
  }

  lemma NoSuchSrp(db: Db, id: nat)
    requires FindSrp(db, id).None?
    ensures forall p :: p in db.srpLogins ==> p.id != id
  {
    forall p | p in db.srpLogins ensures p.id != id {
      if p.id == id {
        FoundIfThere(db.srpLogins, p, (q: PendingSrp) => q.id == id);
      }
    }
  }
}
