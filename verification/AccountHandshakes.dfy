/**
 * Handshake discipline: over every run of requests from any clients, every
 * OPAQUE login and every password proof redeems one earlier start, once, in
 * time, and computed from the credential the account still has.
 */
module AccountHandshakes {
  import opened Wrappers
  import opened AccountKeys
  import opened Rows
  import opened AccountServer

  // ── The invariant ──────────────────────────────────────────────────────────

  predicate OneCredential(u: User) {
    u.srp.Some? != u.opaqueRecord.Some?
  }

  /** A genuine start was computed from what the account's row says now. */
  predicate Fits(users: map<nat, User>, p: PendingOpaque) {
    if p.user.None? then p.record.None?
    else
      p.user.value in users && p.record.Some? && p.record == users[p.user.value].opaqueRecord &&
      p.accountKey == users[p.user.value].accountKey
  }

  predicate FitsSrp(users: map<nat, User>, p: PendingSrp) {
    p.user in users && users[p.user].srp == Some(p.verifier)
  }

  ghost predicate OpaqueCurrent(db: Db) {
    && (forall p :: p in db.opaqueLogins ==> p.id in db.issued && Fits(db.users, p))
    && (forall p, q :: p in db.opaqueLogins && q in db.opaqueLogins && p.id == q.id ==> p == q)
    && (forall a :: Count(db.opaqueLogins, OfAccount(a)) <= MAX_PENDING)
  }

  ghost predicate SrpCurrent(db: Db) {
    && (forall p :: p in db.srpLogins ==> p.id in db.issued && FitsSrp(db.users, p))
    && (forall p, q :: p in db.srpLogins && q in db.srpLogins && p.id == q.id ==> p == q)
    && (forall u :: Count(db.srpLogins, OfUser(u)) <= MAX_PENDING)
  }

  ghost predicate Current(db: Db) {
    && OpaqueCurrent(db)
    && SrpCurrent(db)
    && (forall u :: u in db.users ==> OneCredential(db.users[u]))
    && (forall u, v :: u in db.users && v in db.users && db.users[u].accountKey == db.users[v].accountKey ==> u == v)
  }

  // ── Building blocks ────────────────────────────────────────────────────────

  lemma InsertOpaqueKeeps(db: Db, p: PendingOpaque)
    requires Current(db) && p.id !in db.issued && Fits(db.users, p)
    ensures Current(InsertOpaque(db, p))
  {
    var rows := db.opaqueLogins + [p];
    forall a ensures Count(InsertOpaque(db, p).opaqueLogins, OfAccount(a)) <= MAX_PENDING {
      CountTrimmed(rows, OfAccount(p.accountKey), MAX_PENDING);
      CountTrimmedOther(rows, OfAccount(p.accountKey), MAX_PENDING, OfAccount(a));
      CountPush(db.opaqueLogins, p, OfAccount(a));
    }
  }

  lemma InsertSrpKeeps(db: Db, p: PendingSrp)
    requires Current(db) && p.id !in db.issued && FitsSrp(db.users, p)
    ensures Current(InsertSrp(db, p))
  {
    var rows := db.srpLogins + [p];
    forall u ensures Count(InsertSrp(db, p).srpLogins, OfUser(u)) <= MAX_PENDING {
      CountTrimmed(rows, OfUser(p.user), MAX_PENDING);
      CountTrimmedOther(rows, OfUser(p.user), MAX_PENDING, OfUser(u));
      CountPush(db.srpLogins, p, OfUser(u));
    }
  }

  /** Deleting pending rows keeps the invariant. */
  lemma DeleteKeeps(db: Db, keepOpaque: PendingOpaque -> bool, keepSrp: PendingSrp -> bool)
    requires Current(db)
    ensures Current(db.(opaqueLogins := Filter(db.opaqueLogins, keepOpaque), srpLogins := Filter(db.srpLogins, keepSrp)))
    ensures Current(db.(opaqueLogins := Filter(db.opaqueLogins, keepOpaque)))
    ensures Current(db.(srpLogins := Filter(db.srpLogins, keepSrp)))
  {
    forall a ensures Count(Filter(db.opaqueLogins, keepOpaque), OfAccount(a)) <= MAX_PENDING {
      CountFiltered(db.opaqueLogins, keepOpaque, OfAccount(a));
    }
    forall u ensures Count(Filter(db.srpLogins, keepSrp), OfUser(u)) <= MAX_PENDING {
      CountFiltered(db.srpLogins, keepSrp, OfUser(u));
    }
  }

  /** Recovery tokens, sessions and the ids drawn play no part but to grow the ids. */
  lemma UnrelatedKeeps(db: Db, db': Db)
    requires Current(db)
    requires db'.users == db.users && db'.opaqueLogins == db.opaqueLogins && db'.srpLogins == db.srpLogins && db.issued <= db'.issued
    ensures Current(db')
  {
  }

  /** A row may change in anything but its credential and account key. */
  lemma EditKeeps(db: Db, user: nat, row: User)
    requires Current(db) && user in db.users
    requires row.srp == db.users[user].srp && row.opaqueRecord == db.users[user].opaqueRecord
    requires row.accountKey == db.users[user].accountKey
    ensures Current(db.(users := db.users[user := row]))
  {
    var users := db.users[user := row];
    forall p | p in db.opaqueLogins ensures Fits(users, p) { assert Fits(db.users, p); }
    forall p | p in db.srpLogins ensures FitsSrp(users, p) { assert FitsSrp(db.users, p); }
  }

  lemma RowsStillFit(db: Db, user: nat, row: User)
    requires Current(db) && user in db.users && row.accountKey == db.users[user].accountKey
    ensures var dropped, users := DropPendingLogins(db, user), db.users[user := row];
            && (forall p :: p in dropped.opaqueLogins ==> Fits(users, p))
            && (forall p :: p in dropped.srpLogins ==> FitsSrp(users, p))
  {
    hide Count;
    var dropped, users := DropPendingLogins(db, user), db.users[user := row];
    forall p | p in dropped.opaqueLogins ensures Fits(users, p) { assert Fits(db.users, p); }
    forall p | p in dropped.srpLogins ensures FitsSrp(users, p) { assert FitsSrp(db.users, p); }
  }

  /** The credential itself may change once the user's pending logins are dropped with it. */
  lemma SwapKeeps(db: Db, user: nat, row: User)
    requires Current(db) && user in db.users && OneCredential(row) && row.accountKey == db.users[user].accountKey
    ensures Current(DropPendingLogins(db.(users := db.users[user := row]), user))
  {
    hide Fits, FitsSrp, Filter, Count, OneCredential;
    DropKeeps(db, user);
    RowsStillFit(db, user, row);
    var dropped, users := DropPendingLogins(db, user), db.users[user := row];
    assert OpaqueCurrent(dropped.(users := users));
    assert SrpCurrent(dropped.(users := users));
  }

  lemma DropKeeps(db: Db, user: nat)
    requires Current(db)
    ensures Current(DropPendingLogins(db, user))
  {
    DeleteKeeps(db, (p: PendingOpaque) => p.user != Some(user), (p: PendingSrp) => p.user != user);
    hide Current;
  }

  // ── Every request keeps it ─────────────────────────────────────────────────

  lemma LoginKeeps(db: Db, req: Request)
    requires Current(db) && (req.LoginStart? || req.LoginFinish?)
    ensures Current(HandleLogin(db, req).0)
  {
    if req.LoginFinish? {
      TakeKeeps(db, req.id);
      var taken := TakeOpaque(db, req.id);
      hide Current, TakeOpaque;
      var r := Redeem(db, req.id, ForLogin, req.password, req.now);
      if r.Some? {
        UnrelatedKeeps(taken, OpenSession(taken, req.session, r.value.user, req.now));
      }
    } else if req.id !in db.issued {
      var u := FindUser(db, req.accountKey);
      var genuine := u.Some? && db.users[u.value].opaqueRecord.Some?;
      var p := PendingOpaque(req.id, req.accountKey, if genuine then u else None,
                             if genuine then db.users[u.value].opaqueRecord else None, req.now, ForLogin);
      InsertOpaqueKeeps(db, p);
    }
  }

  lemma TakeKeeps(db: Db, id: nat)
    requires Current(db)
    ensures Current(TakeOpaque(db, id)) && Current(TakeSrp(db, id))
  {
    DeleteKeeps(db, (p: PendingOpaque) => p.id != id, (p: PendingSrp) => p.id != id);
  }

  lemma TakeSameUsers(db: Db, id: nat)
    ensures TakeOpaque(db, id).users == db.users
  {
  }

  lemma TakeSrpSame(db: Db, id: nat)
    ensures TakeSrp(db, id) == db.(srpLogins := TakeSrp(db, id).srpLogins)
  {
  }

  lemma SrpKeeps(db: Db, req: Request)
    requires Current(db) && (req.SrpStart? || req.SrpFinish? || req.UpgradeStart? || req.UpgradeFinish?)
    ensures Current(HandleSrp(db, req))
  {
    hide Current, InsertSrp, TakeSrp, SrpUpgraded;
    TakeSrpSame(db, req.id);
    match req
    case SrpStart(id, accountKey, now) =>
      var u := FindUser(db, accountKey);
      if id !in db.issued && u.Some? && db.users[u.value].srp.Some? {
        InsertSrpKeeps(db, PendingSrp(id, u.value, db.users[u.value].srp.value, now));
      }
    case UpgradeStart(session, id, now) =>
      var u := SessionUser(db, session);
      if id !in db.issued && u.Some? && db.users[u.value].srp.Some? {
        InsertSrpKeeps(db, PendingSrp(id, u.value, db.users[u.value].srp.value, now));
      }
    case SrpFinish(id, password, session, now) =>
      TakeKeeps(db, id);
      var taken := TakeSrp(db, id);
      var p := FindSrp(db, id);
      if p.Some? {
        UnrelatedKeeps(taken, OpenSession(taken, session, p.value.user, now));
      }
    case UpgradeFinish(session, id, password, record, m, now) =>
      TakeKeeps(db, id);
      var u := SessionUser(db, session);
      if u.Some? {
        UpgradeKeeps(TakeSrp(db, id), u.value, session, record, m);
      }
  }

  lemma UpgradeKeeps(db: Db, user: nat, keep: nat, record: Credential, m: Migration)
    requires Current(db) && user in db.users
    ensures Current(SrpUpgraded(db, user, keep, record, m).0)
  {
    var u := db.users[user];
    var u' := u.(opaqueRecord := Some(record), srp := None, wrapped := Some(m.wrapped), privateKey := Coalesce(m.privateKey, u.privateKey));
    SwapKeeps(db, user, u');
    var swapped := DropPendingLogins(db.(users := db.users[user := u']), user);
    UnrelatedKeeps(swapped, RevokeSessions(swapped, user, Some(keep)));
  }

  lemma RotationKeeps(db: Db, authority: Authority, user: nat, r: PasswordRotation)
    requires Current(db) && user in db.users
    ensures Current(MasterPasswordRotated(db, authority, user, r).0)
  {
    var u := db.users[user];
    if RotatedItems(u.items, r.items).Some? {
      var u' := RotatedRow(u, r);
      SwapKeeps(db, user, u');
      var swapped := DropPendingLogins(db.(users := db.users[user := u']), user);
      var db1 := DropRecoveries(swapped, user);
      UnrelatedKeeps(swapped, RevokeSessions(db1, user, if authority.BySession? then Some(authority.session) else None));
    }
  }

  lemma ProofKeeps(db: Db, req: Request)
    requires Current(db) && (req.ProofStart? || req.SetAccountKey? || req.PublishIdentity? || req.PasswordFinish?)
    ensures Current(HandleProof(db, req).0)
  {
    hide Current, InsertOpaque, TakeOpaque, MasterPasswordRotated;
    match req
    case ProofStart(session, id, purpose, now) =>
      var u := SessionUser(db, session);
      if id !in db.issued && u.Some? && db.users[u.value].opaqueRecord.Some? {
        InsertOpaqueKeeps(db, PendingOpaque(id, db.users[u.value].accountKey, u, db.users[u.value].opaqueRecord, now, purpose));
      }
    case SetAccountKey(session, id, password, m, now) =>
      TakeKeeps(db, id);
      var db1 := TakeOpaque(db, id);
      assert db1.users == db.users by { TakeSameUsers(db, id); }
      var u := SessionUser(db, session);
      if u.Some? {
        var row := db1.users[u.value];
        EditKeeps(db1, u.value, row.(wrapped := Some(m.wrapped), privateKey := Coalesce(m.privateKey, row.privateKey)));
      }
    case PublishIdentity(session, id, password, now) =>
      TakeKeeps(db, id);
    case PasswordFinish(session, id, password, record, wrapped, now) =>
      TakeKeeps(db, id);
      TakeSameUsers(db, id);
      var u := SessionUser(db, session);
      if u.Some? {
        RotationKeeps(TakeOpaque(db, id), BySession(session), u.value, PasswordRotation(NewOpaque(record), None, Some(wrapped), None, None));
      }
  }

  lemma RecoveryKeeps(db: Db, req: Request)
    requires Current(db) && (req.SetRecovery? || req.RecoveryStart? || req.RecoveryFinish?)
    ensures Current(HandleRecovery(db, req))
  {
    match req
    case SetRecovery(session, kit) =>
      var u := SessionUser(db, session);
      if u.Some? {
        var row := db.users[u.value].(kit := kit);
        EditKeeps(db, u.value, row);
        UnrelatedKeeps(db.(users := db.users[u.value := row]), RecoverySet(db, u.value, kit));
      }
    case RecoveryStart(_, _, _, _) =>
      UnrelatedKeeps(db, HandleRecovery(db, req));
    case RecoveryFinish(token, credential, privateKey, wrapped, kit, items, now) =>
      var p := FindRecovery(db, token);
      if p.Some? && p.value.user in db.users {
        RotationKeeps(db, ByToken(token), p.value.user,
                      PasswordRotation(credential, privateKey, wrapped, Some(kit), if wrapped.Some? then None else Some(items)));
      }
  }

  lemma RegisterKeeps(db: Db, req: Request)
    requires Current(db) && req.Register?
    ensures Current(Handle(db, req).0)
  {
    var users := Handle(db, req).0.users;
    forall p | p in db.opaqueLogins ensures Fits(users, p) { assert Fits(db.users, p); }
    forall p | p in db.srpLogins ensures FitsSrp(users, p) { assert FitsSrp(db.users, p); }
  }

  lemma OtherKeeps(db: Db, req: Request)
    requires Current(db)
    requires req.PutKeyPair? || req.WriteItem? || req.EndSession? || req.Prune?
    ensures Current(Handle(db, req).0)
  {
    hide Current;
    match req
    case PutKeyPair(session, privateKey) =>
      var u := SessionUser(db, session);
      if u.Some? {
        var row := db.users[u.value];
        EditKeeps(db, u.value, row.(privateKey := Coalesce(row.privateKey, Some(privateKey))));
      }
    case WriteItem(session, item, blob) =>
      var u := SessionUser(db, session);
      if u.Some? {
        EditKeeps(db, u.value, Handle(db, req).0.users[u.value]);
      }
    case EndSession(session) =>
      UnrelatedKeeps(db, Handle(db, req).0);
    case Prune(now) =>
      DeleteKeeps(db, (p: PendingOpaque) => !(p.createdAt < now - LOGIN_TTL), (p: PendingSrp) => !(p.createdAt < now - LOGIN_TTL));
      var db' := Handle(db, req).0;
      UnrelatedKeeps(db'.(recoveries := db.recoveries), db');
  }

  /** Every request, from anyone, keeps the handshakes current. */
  lemma HandleKeeps(db: Db, req: Request)
    requires Current(db)
    ensures Current(Handle(db, req).0)
  {
    hide Current, HandleLogin, HandleSrp, HandleProof, HandleRecovery;
    match req
    case LoginStart(_, _, _) => LoginKeeps(db, req);
    case LoginFinish(_, _, _, _) => LoginKeeps(db, req);
    case SrpStart(_, _, _) => SrpKeeps(db, req);
    case SrpFinish(_, _, _, _) => SrpKeeps(db, req);
    case UpgradeStart(_, _, _) => SrpKeeps(db, req);
    case UpgradeFinish(_, _, _, _, _, _) => SrpKeeps(db, req);
    case ProofStart(_, _, _, _) => ProofKeeps(db, req);
    case SetAccountKey(_, _, _, _, _) => ProofKeeps(db, req);
    case PublishIdentity(_, _, _, _) => ProofKeeps(db, req);
    case PasswordFinish(_, _, _, _, _, _) => ProofKeeps(db, req);
    case SetRecovery(_, _) => RecoveryKeeps(db, req);
    case RecoveryStart(_, _, _, _) => RecoveryKeeps(db, req);
    case RecoveryFinish(_, _, _, _, _, _, _) => RecoveryKeeps(db, req);
    case Register(_, _, _, _) => RegisterKeeps(db, req);
    case PutKeyPair(_, _) => OtherKeeps(db, req);
    case WriteItem(_, _, _) => OtherKeeps(db, req);
    case EndSession(_) => OtherKeeps(db, req);
    case Prune(_) => OtherKeeps(db, req);
  }

  // ── Over whole runs ────────────────────────────────────────────────────────

  function After(db: Db, reqs: seq<Request>): Db {
    if reqs == [] then db else Handle(After(db, reqs[..|reqs| - 1]), reqs[|reqs| - 1]).0
  }

  /** What request `k` of the run redeemed. */
  function Outcome(db: Db, reqs: seq<Request>, k: nat): Option<Redemption>
    requires k < |reqs|
  {
    Handle(After(db, reqs[..k]), reqs[k]).1
  }

  /** In every run each account has one credential and at most five pending starts, all current. */
  lemma {:induction false} EveryRunIsCurrent(db: Db, reqs: seq<Request>)
    requires Current(db)
    ensures Current(After(db, reqs))
  {
    hide Handle, Current;
    if reqs != [] {
      EveryRunIsCurrent(db, reqs[..|reqs| - 1]);
      HandleKeeps(After(db, reqs[..|reqs| - 1]), reqs[|reqs| - 1]);
    }
  }

  /** The request opened handshake `r.id`, for this user and purpose, from the record the account had. */
  predicate Opens(db: Db, req: Request, r: Redemption) {
    && r.user in db.users && db.users[r.user].opaqueRecord == Some(r.record)
    && ((req.LoginStart? && req.id == r.id && req.now == r.startedAt && r.purpose == ForLogin &&
         FindUser(db, req.accountKey) == Some(r.user)) ||
        (req.ProofStart? && req.id == r.id && req.now == r.startedAt && r.purpose == req.purpose && r.purpose != ForLogin &&
         SessionUser(db, req.session) == Some(r.user)))
  }

  /** The request redeemed `r`: its own purpose, its session's user, the right password, in time. */
  predicate Redeems(db: Db, req: Request, r: Redemption) {
    && r.user in db.users && db.users[r.user].opaqueRecord == Some(r.record)
    && match req
       case LoginFinish(id, password, _, now) =>
         id == r.id && r.purpose == ForLogin && password == r.record.password && now - r.startedAt <= LOGIN_TTL
       case SetAccountKey(session, id, password, _, now) =>
         id == r.id && r.purpose == ForAccountKey && password == r.record.password && now - r.startedAt <= LOGIN_TTL &&
         SessionUser(db, session) == Some(r.user)
       case PublishIdentity(session, id, password, now) =>
         id == r.id && r.purpose == ForIdentityKey && password == r.record.password && now - r.startedAt <= LOGIN_TTL &&
         SessionUser(db, session) == Some(r.user)
       case PasswordFinish(session, id, password, _, _, now) =>
         id == r.id && r.purpose == ForPasswordChange && password == r.record.password && now - r.startedAt <= LOGIN_TTL &&
         SessionUser(db, session) == Some(r.user)
       case _ => false
  }

  function RedemptionOf(p: PendingOpaque): Redemption
    requires p.user.Some? && p.record.Some?
  {
    Redemption(p.id, p.user.value, p.purpose, p.createdAt, p.record.value)
  }

  /** A redemption uses up a pending row that is still current. */
  lemma RedemptionIsCurrent(db: Db, req: Request, r: Redemption)
    requires Current(db) && Handle(db, req).1 == Some(r)
    ensures Redeems(db, req, r)
    ensures exists p :: p in db.opaqueLogins && p.user.Some? && p.record.Some? && RedemptionOf(p) == r
    ensures forall p :: p in Handle(db, req).0.opaqueLogins ==> p.id != r.id
  {
    RedeemedRow(db, req, r);
    RedeemedIsTaken(db, req, r);
    var p := FindOpaque(db, r.id).value;
    assert Fits(db.users, p);
    hide Handle, Current, FindOpaque;
  }

  /** What the handlers ask of a redemption. */
  lemma RedeemedRow(db: Db, req: Request, r: Redemption)
    requires Handle(db, req).1 == Some(r)
    ensures FindOpaque(db, r.id).Some?
    ensures var p := FindOpaque(db, r.id).value; p.user.Some? && p.record.Some? && RedemptionOf(p) == r
    ensures r.user in db.users && db.users[r.user].opaqueRecord == Some(r.record) ==> Redeems(db, req, r)
  {
  }

  lemma RedeemedIsTaken(db: Db, req: Request, r: Redemption)
    requires Handle(db, req).1 == Some(r)
    ensures forall p :: p in Handle(db, req).0.opaqueLogins ==> p.id != r.id
  {
    assert req.LoginFinish? || req.SetAccountKey? || req.PublishIdentity? || req.PasswordFinish?;
    assert forall q :: q in TakeOpaque(db, r.id).opaqueLogins ==> q.id != r.id;
  }

  /** Rows enter the pending table only as fresh starts. */
  lemma NewRowsAreStarts(db: Db, req: Request, p: PendingOpaque)
    requires Current(db)
    requires p in Handle(db, req).0.opaqueLogins && p !in db.opaqueLogins
    ensures p.id !in db.issued
    ensures p.user.Some? ==> p.record.Some? && Opens(db, req, RedemptionOf(p))
  {
    assert req.LoginStart? || req.ProofStart?;
  }

  lemma IssuedGrows(db: Db, req: Request)
    ensures db.issued <= Handle(db, req).0.issued
  {
  }

  lemma {:induction false} PendingWasStarted(db: Db, reqs: seq<Request>, p: PendingOpaque)
    requires Current(db) && db.opaqueLogins == []
    requires p in After(db, reqs).opaqueLogins && p.user.Some? && p.record.Some?
    ensures exists j :: 0 <= j < |reqs| && Opens(After(db, reqs[..j]), reqs[j], RedemptionOf(p))
  {
    hide Handle, Current, Opens;
    assert reqs != [];
    var n := |reqs| - 1;
    var before := After(db, reqs[..n]);
    EveryRunIsCurrent(db, reqs[..n]);
    if p in before.opaqueLogins {
      PendingWasStarted(db, reqs[..n], p);
      var j :| 0 <= j < n && Opens(After(db, reqs[..n][..j]), reqs[..n][j], RedemptionOf(p));
      assert reqs[..n][..j] == reqs[..j];
    } else {
      NewRowsAreStarts(before, reqs[n], p);
    }
  }

  ghost predicate Spent(db: Db, id: nat) {
    id in db.issued && forall p :: p in db.opaqueLogins ==> p.id != id
  }

  /** A spent id never comes back. */
  lemma {:induction false} SpentStaysSpent(db: Db, reqs: seq<Request>, m: nat, id: nat)
    requires Current(db) && m <= |reqs| && Spent(After(db, reqs[..m]), id)
    ensures Spent(After(db, reqs), id)
    decreases |reqs| - m
  {
    hide Handle, Current;
    if m == |reqs| {
      assert reqs[..m] == reqs;
    } else {
      var before := After(db, reqs[..m]);
      assert reqs[..m + 1][..m] == reqs[..m];
      EveryRunIsCurrent(db, reqs[..m]);
      var after := Handle(before, reqs[m]).0;
      forall p | p in after.opaqueLogins ensures p.id != id {
        if p !in before.opaqueLogins { NewRowsAreStarts(before, reqs[m], p); }
      }
      IssuedGrows(before, reqs[m]);
      assert after == After(db, reqs[..m + 1]);
      SpentStaysSpent(db, reqs, m + 1, id);
    }
  }

  /** Redeeming `id` spends it. */
  lemma RedeemedIsSpent(db: Db, reqs: seq<Request>, m: nat, r: Redemption)
    requires Current(db) && m < |reqs| && Outcome(db, reqs, m) == Some(r)
    ensures Spent(After(db, reqs[..m + 1]), r.id)
  {
    hide Handle;
    var before := After(db, reqs[..m]);
    EveryRunIsCurrent(db, reqs[..m]);
    RedemptionIsCurrent(before, reqs[m], r);
    IssuedGrows(before, reqs[m]);
    assert reqs[..m + 1][..m] == reqs[..m];
  }

  /**
   * The discipline: what request `k` redeems was opened by an earlier request for the same user and
   * purpose, is still current and unexpired, and is redeemed by no other request of the run.
   */
  lemma HandshakeDiscipline(db: Db, reqs: seq<Request>, k: nat, r: Redemption)
    requires Current(db) && db.opaqueLogins == []
    requires k < |reqs| && Outcome(db, reqs, k) == Some(r)
    ensures Redeems(After(db, reqs[..k]), reqs[k], r)
    ensures exists j :: 0 <= j < k && Opens(After(db, reqs[..j]), reqs[j], r)
    ensures forall m: nat, s :: m < |reqs| && m != k && Outcome(db, reqs, m) == Some(s) ==> s.id != r.id
  {
    hide Handle, Current, Opens, Redeems, Outcome, After;
    WasOpened(db, reqs, k, r);
    forall m: nat, s | m < |reqs| && m != k && Outcome(db, reqs, m) == Some(s) ensures s.id != r.id {
      if m < k { RedeemedOnce(db, reqs, m, s, k, r); } else { RedeemedOnce(db, reqs, k, r, m, s); }
    }
  }

  lemma WasOpened(db: Db, reqs: seq<Request>, k: nat, r: Redemption)
    requires Current(db) && db.opaqueLogins == []
    requires k < |reqs| && Outcome(db, reqs, k) == Some(r)
    ensures Redeems(After(db, reqs[..k]), reqs[k], r)
    ensures exists j :: 0 <= j < k && Opens(After(db, reqs[..j]), reqs[j], r)
  {
    hide Handle, Current, Opens, Redeems, After;
    var before := After(db, reqs[..k]);
    EveryRunIsCurrent(db, reqs[..k]);
    RedemptionIsCurrent(before, reqs[k], r);
    var p :| p in before.opaqueLogins && p.user.Some? && p.record.Some? && RedemptionOf(p) == r;
    PendingWasStarted(db, reqs[..k], p);
    var j :| 0 <= j < k && Opens(After(db, reqs[..k][..j]), reqs[..k][j], r);
    assert reqs[..k][..j] == reqs[..j];
  }

  lemma RedeemedOnce(db: Db, reqs: seq<Request>, m: nat, s: Redemption, k: nat, r: Redemption)
    requires Current(db) && m < k < |reqs| && Outcome(db, reqs, m) == Some(s) && Outcome(db, reqs, k) == Some(r)
    ensures s.id != r.id
  {
    hide Handle, Current;
    RedeemedIsSpent(db, reqs, m, s);
    assert reqs[..k][..m + 1] == reqs[..m + 1];
    SpentStaysSpent(db, reqs[..k], m + 1, s.id);
    EveryRunIsCurrent(db, reqs[..k]);
    RedemptionIsCurrent(After(db, reqs[..k]), reqs[k], r);
  }
}
