/**
 * Who gets a session, a stored wrap or a recovery token: only those who proved
 * what the handlers ask for, and all of those
 * (crates/nopass-api/src/routes/auth.rs, routes/proof.rs, routes/recovery.rs,
 * db/pending.rs, db/recovery.rs).
 */
module AccountSessions {
  import opened Wrappers
  import opened AccountKeys
  import opened Rows
  import opened AccountServer
  import opened AccountHandshakes
  import opened AccountWrites

  // ── Sessions ───────────────────────────────────────────────────────────────

  /** A live start of user `u`: of this purpose, from the record the account has, opened by this password, in time. */
  predicate LiveStart(db: Db, p: PendingOpaque, u: nat, purpose: Purpose, password: string, now: int) {
    && p in db.opaqueLogins && p.purpose == purpose && p.user == Some(u) && now - p.createdAt <= 5 * 60
    && u in db.users && p.record.Some? && db.users[u].opaqueRecord == p.record && p.record.value.password == password
  }

  predicate LiveSrpStart(db: Db, p: PendingSrp, u: nat, password: string, now: int) {
    && p in db.srpLogins && p.user == u && now - p.createdAt <= 5 * 60
    && u in db.users && db.users[u].srp == Some(p.verifier) && p.verifier.password == password
  }

  /** The request is a finish that earns session number `s` for this user at this time. */
  ghost predicate Earns(db: Db, req: Request, s: nat, session: Session) {
    || (req.LoginFinish? && req.session == s && req.now == session.createdAt &&
        exists p :: LiveStart(db, p, session.user, ForLogin, req.password, req.now) && p.id == req.id && Handle(db, req).1 == Some(RedemptionOf(p)))
    || (req.SrpFinish? && req.session == s && req.now == session.createdAt &&
        exists p :: LiveSrpStart(db, p, session.user, req.password, req.now) && p.id == req.id)
  }

  lemma NewSessionIsEarned(db: Db, req: Request, s: nat)
    requires Current(db) && s in Handle(db, req).0.sessions
    ensures (s in db.sessions && db.sessions[s] == Handle(db, req).0.sessions[s]) || Earns(db, req, s, Handle(db, req).0.sessions[s])
  {
    if req.LoginFinish? {
      LoginSessionIsEarned(db, req, s);
    } else if req.SrpFinish? {
      SrpSessionIsEarned(db, req, s);
    } else {
      OthersOpenNone(db, req, s);
    }
  }

  lemma LoginSessionIsEarned(db: Db, req: Request, s: nat)
    requires Current(db) && req.LoginFinish? && s in Handle(db, req).0.sessions
    ensures (s in db.sessions && db.sessions[s] == Handle(db, req).0.sessions[s]) || Earns(db, req, s, Handle(db, req).0.sessions[s])
  {
    var p := FindOpaque(db, req.id);
    if p.Some? {
      assert Fits(db.users, p.value);
    }
    hide Current, OpaqueCurrent;
  }

  lemma SrpSessionIsEarned(db: Db, req: Request, s: nat)
    requires Current(db) && req.SrpFinish? && s in Handle(db, req).0.sessions
    ensures (s in db.sessions && db.sessions[s] == Handle(db, req).0.sessions[s]) || Earns(db, req, s, Handle(db, req).0.sessions[s])
  {
    var p := FindSrp(db, req.id);
    if p.Some? {
      assert FitsSrp(db.users, p.value);
    }
    hide Current, OpaqueCurrent;
  }

  lemma OthersOpenNone(db: Db, req: Request, s: nat)
    requires !req.LoginFinish? && !req.SrpFinish? && s in Handle(db, req).0.sessions
    ensures s in db.sessions && db.sessions[s] == Handle(db, req).0.sessions[s]
  {
  }

  /** In every run, a session that was not there at the start was earned by a finish of the run, for the user who started it. */
  lemma {:induction false} EverySessionIsEarned(db: Db, reqs: seq<Request>, s: nat)
    requires Current(db) && s in After(db, reqs).sessions
    ensures || (s in db.sessions && db.sessions[s] == After(db, reqs).sessions[s])
            || exists k :: 0 <= k < |reqs| && Earns(After(db, reqs[..k]), reqs[k], s, After(db, reqs).sessions[s])
  {
    hide Handle, Current, Earns;
    if reqs != [] {
      var n := |reqs| - 1;
      var init := reqs[..n];
      EveryRunIsCurrent(db, init);
      NewSessionIsEarned(After(db, init), reqs[n], s);
      var session := After(db, reqs).sessions[s];
      if !Earns(After(db, init), reqs[n], s, session) {
        EverySessionIsEarned(db, init, s);
        if !(s in db.sessions && db.sessions[s] == session) {
          var k :| 0 <= k < n && Earns(After(db, init[..k]), init[k], s, session);
          assert init[..k] == reqs[..k];
        }
      }
    }
  }

  /** Every live login start, finished with its password under a fresh session number, opens its user's session. */
  lemma LiveStartLogsIn(db: Db, p: PendingOpaque, u: nat, password: string, session: nat, now: int)
    requires Current(db) && LiveStart(db, p, u, ForLogin, password, now) && session !in db.issued
    ensures var (db', r) := Handle(db, LoginFinish(p.id, password, session, now));
            r == Some(RedemptionOf(p)) && db'.sessions == db.sessions[session := Session(u, now)] && db'.users == db.users
  {
    OnlyOneStart(db, p);
    hide Current;
  }

  lemma LiveSrpStartLogsIn(db: Db, p: PendingSrp, u: nat, password: string, session: nat, now: int)
    requires Current(db) && LiveSrpStart(db, p, u, password, now) && session !in db.issued
    ensures var db' := Handle(db, SrpFinish(p.id, password, session, now)).0;
            db'.sessions == db.sessions[session := Session(u, now)] && db'.users == db.users
  {
    assert FindSrp(db, p.id) == Some(p) by {
      assert FindSrp(db, p.id).Some? by { FoundIfThere(db.srpLogins, p, (q: PendingSrp) => q.id == p.id); }
    }
    hide Current;
  }

  lemma FoundIfThere<T(!new)>(rows: seq<T>, p: T, wanted: T -> bool)
    requires p in rows && wanted(p)
    ensures Find(rows, wanted).Some?
  {
  }

  lemma OnlyOneStart(db: Db, p: PendingOpaque)
    requires Current(db) && p in db.opaqueLogins
    ensures FindOpaque(db, p.id) == Some(p)
  {
  }

  /** From start to finish: the right password within five minutes logs the account's user in, with nothing in between. */
  lemma PasswordLogsIn(db: Db, u: nat, id: nat, session: nat, started: int, now: int)
    requires Current(db) && u in db.users && db.users[u].opaqueRecord.Some? && now - started <= 5 * 60
    requires id !in db.issued && session !in db.issued && id != session
    ensures var password := db.users[u].opaqueRecord.value.password;
            var db1 := Handle(db, LoginStart(id, db.users[u].accountKey, started)).0;
            var db2 := Handle(db1, LoginFinish(id, password, session, now)).0;
            session in db2.sessions && db2.sessions[session] == Session(u, now)
  {
    var req := LoginStart(id, db.users[u].accountKey, started);
    var db1 := Handle(db, req).0;
    var p := PendingOpaque(id, db.users[u].accountKey, Some(u), db.users[u].opaqueRecord, started, ForLogin);
    StartIsPending(db, u, id, started);
    HandleKeeps(db, req);
    hide Handle, Current;
    LiveStartLogsIn(db1, p, u, db.users[u].opaqueRecord.value.password, session, now);
  }

  lemma StartIsPending(db: Db, u: nat, id: nat, started: int)
    requires Current(db) && u in db.users && db.users[u].opaqueRecord.Some? && id !in db.issued
    ensures var db1 := Handle(db, LoginStart(id, db.users[u].accountKey, started)).0;
            && PendingOpaque(id, db.users[u].accountKey, Some(u), db.users[u].opaqueRecord, started, ForLogin) in db1.opaqueLogins
            && db1.users == db.users && db1.issued == db.issued + {id}
  {
    assert FindUser(db, db.users[u].accountKey) == Some(u);
    hide Current;
    var p := PendingOpaque(id, db.users[u].accountKey, Some(u), db.users[u].opaqueRecord, started, ForLogin);
    NewestStays(db.opaqueLogins, p, OfAccount(p.accountKey), MAX_PENDING);
  }

  lemma NewestStays<T(!new)>(rows: seq<T>, p: T, mine: T -> bool, k: nat)
    requires k > 0
    ensures p in KeepNewest(rows + [p], mine, k)
  {
    assert (rows + [p])[..|rows|] == rows;
  }

  /** The sweep deletes exactly the handshakes and tokens past their time. */
  lemma PruneIsExact(db: Db, now: int)
    ensures var db' := Handle(db, Prune(now)).0;
            && (forall p :: p in db'.opaqueLogins <==> p in db.opaqueLogins && now - p.createdAt <= 5 * 60)
            && (forall p :: p in db'.srpLogins <==> p in db.srpLogins && now - p.createdAt <= 5 * 60)
            && (forall p :: p in db'.recoveries <==> p in db.recoveries && now - p.createdAt <= 10 * 60)
            && db'.users == db.users && db'.sessions == db.sessions
  {
  }

  // ── What a proof or a session buys ─────────────────────────────────────────

  /** A proven first-unlock migration of a row without a wrap stores exactly that wrap, and moves the private key it brings. */
  lemma ProvenMigrationIsStored(db: Db, p: PendingOpaque, u: nat, session: nat, password: string, m: Migration, now: int)
    requires Current(db) && LiveStart(db, p, u, ForAccountKey, password, now) && SessionUser(db, session) == Some(u)
    ensures var row, (db', r) := db.users[u], Handle(db, SetAccountKey(session, p.id, password, m, now));
            && r == Some(RedemptionOf(p)) && u in db'.users
            && db'.users[u] == if row.wrapped.Some? then row
                               else row.(wrapped := Some(m.wrapped), privateKey := if m.privateKey.Some? then m.privateKey else row.privateKey)
  {
    OnlyOneStart(db, p);
    hide Current;
  }

  /** An upgrade with the verifier's password stores record and wrap, and removes the verifier. */
  lemma ProvenUpgradeIsStored(db: Db, req: Request, u: nat)
    requires UpgradeTaken(db, req, u)
    ensures var row, db' := db.users[u], Handle(db, req).0;
            u in db'.users &&
            db'.users[u] == row.(srp := None, opaqueRecord := Some(req.record), wrapped := Some(req.migration.wrapped),
                                 privateKey := if req.migration.privateKey.Some? then req.migration.privateKey else row.privateKey)
  {
  }

  /** A password change stores exactly the new record and the new wrap. */
  lemma ProvenChangeIsStored(db: Db, req: Request, u: nat)
    requires Current(db) && PasswordChangeTaken(db, req, u)
    ensures var row, db' := db.users[u], Handle(db, req).0;
            u in db'.users && db'.users[u] == row.(srp := None, opaqueRecord := Some(req.record), wrapped := Some(req.rewrapped))
  {
    hide Current;
  }

  /** An item write lands under the session's user, at the next version, and touches nothing else of the row. */
  lemma ItemWriteLands(db: Db, session: nat, u: nat, item: nat, blob: nat)
    requires SessionUser(db, session) == Some(u)
    ensures var row, db' := db.users[u], Handle(db, WriteItem(session, item, blob)).0;
            && u in db'.users && item in db'.users[u].items && db'.users[u].items[item].blob == blob
            && (item in row.items ==> db'.users[u].items[item].version == row.items[item].version + 1)
            && (forall i :: i in row.items && i != item ==> i in db'.users[u].items && db'.users[u].items[i] == row.items[i])
            && db'.users[u] == row.(items := db'.users[u].items)
  {
  }

  // ── Recovery tokens ────────────────────────────────────────────────────────

  /** The request presented the auth key of the kit stored then, and was given this token. */
  predicate GivesToken(db: Db, req: Request, p: PendingRecovery) {
    && req.RecoveryStart? && req.token == p.token && req.now == p.createdAt && FindUser(db, req.accountKey) == Some(p.user)
    && db.users[p.user].kit.Some? && db.users[p.user].kit.value.auth == req.auth
  }

  lemma NewTokenIsGiven(db: Db, req: Request, p: PendingRecovery)
    requires p in Handle(db, req).0.recoveries && p !in db.recoveries
    ensures GivesToken(db, req, p) && p.user in Handle(db, req).0.users && Handle(db, req).0.users[p.user].kit == db.users[p.user].kit
  {
  }

  /** A token that outlives a request finds the kit it was given for. */
  lemma TokenKeepsKit(db: Db, req: Request, p: PendingRecovery)
    requires Current(db) && p in db.recoveries && p.user in db.users && p in Handle(db, req).0.recoveries
    ensures p.user in Handle(db, req).0.users && Handle(db, req).0.users[p.user].kit == db.users[p.user].kit
  {
    WritesLand(db, req, p.user);
    if KitWritten(db, req, p.user).Some? {
      KitWriteEndsTokens(db, req, p);
    }
  }

  lemma KitWriteEndsTokens(db: Db, req: Request, p: PendingRecovery)
    requires p.user in db.users && KitWritten(db, req, p.user).Some?
    ensures p !in Handle(db, req).0.recoveries
  {
  }

  /** Token `p` was given by request `k` for the kit the account still has after `reqs`. */
  predicate GivenBy(db: Db, reqs: seq<Request>, k: nat, p: PendingRecovery)
    requires k < |reqs|
  {
    var before, after := After(db, reqs[..k]), After(db, reqs);
    GivesToken(before, reqs[k], p) && p.user in after.users && after.users[p.user].kit == before.users[p.user].kit
  }

  /** In every run, a token that is alive was given to whoever presented the auth key of the kit that is still stored. */
  lemma {:induction false} EveryTokenIsGiven(db: Db, reqs: seq<Request>, p: PendingRecovery)
    requires Current(db) && db.recoveries == [] && p in After(db, reqs).recoveries
    ensures exists k :: 0 <= k < |reqs| && GivenBy(db, reqs, k, p)
  {
    hide Handle, Current, GivesToken;
    assert reqs != [];
    var n := |reqs| - 1;
    var init := reqs[..n];
    EveryRunIsCurrent(db, init);
    if p in After(db, init).recoveries {
      EveryTokenIsGiven(db, init, p);
      var k :| 0 <= k < n && GivenBy(db, init, k, p);
      TokenKeepsKit(After(db, init), reqs[n], p);
      assert init[..k] == reqs[..k];
      assert GivenBy(db, reqs, k, p);
    } else {
      NewTokenIsGiven(After(db, init), reqs[n], p);
      assert GivenBy(db, reqs, n, p);
    }
  }

  /** So every recovery that goes through was started, at most ten minutes before, with the auth key of the kit it replaces. */
  lemma RecoveryIsAuthorised(db: Db, reqs: seq<Request>, k: nat, user: nat)
    requires Current(db) && db.recoveries == [] && k < |reqs| && RecoveryTaken(After(db, reqs[..k]), reqs[k], user)
    ensures exists j :: 0 <= j < k && reqs[j].RecoveryStart? && reqs[j].token == reqs[k].token
                        && reqs[k].now - reqs[j].now <= 10 * 60
                        && After(db, reqs[..k]).users[user].kit.Some?
                        && After(db, reqs[..k]).users[user].kit.value.auth == reqs[j].auth
  {
    hide Handle, Current;
    var init := reqs[..k];
    var p := FindRecovery(After(db, init), reqs[k].token).value;
    EveryTokenIsGiven(db, init, p);
    var j :| 0 <= j < k && GivenBy(db, init, j, p);
    assert init[j] == reqs[j];
  }

  /** Whoever presents the stored auth key is given a token. */
  lemma RightAuthGetsToken(db: Db, u: nat, token: nat, now: int)
    requires Current(db) && u in db.users && db.users[u].kit.Some? && token !in db.issued
    ensures var db' := Handle(db, RecoveryStart(db.users[u].accountKey, db.users[u].kit.value.auth, token, now)).0;
            db'.recoveries == db.recoveries + [PendingRecovery(token, u, now)] && db'.users == db.users
  {
    assert FindUser(db, db.users[u].accountKey) == Some(u);
    hide Current;
  }
}
