/**
 * The account-key invariant: whatever anyone sends, as long as the account's
 * own clients build what they send as the client code does (from any earlier,
 * possibly stale, server answer), the vault keys never change and every stored
 * blob opens to them under what the user knows.
 */
module AccountRuns {
  import opened Wrappers
  import opened IdealCrypto
  import opened AccountKeys
  import opened AccountServer
  import opened AccountHandshakes
  import opened AccountWrites

  // ── What a healthy row looks like ──────────────────────────────────────────

  /** The password the stored login credential was made from. */
  function CurrentPassword(u: User): string
    requires OneCredential(u)
  {
    if u.srp.Some? then u.srp.value.password else u.opaqueRecord.value.password
  }

  /** The smk the stored private key should be under. */
  function RowSmk(u: User, email: string, pair: AccountKey): Key
    requires OneCredential(u)
  {
    if u.wrapped.Some? then AccountSmk(pair) else LegacySubkeys(CurrentPassword(u), email).smk
  }

  /** The kit for `code` holds the vault keys, next to the account smk or the smk of the legacy keys they came from. */
  predicate KitHolds(k: Kit, code: string, smk: Key, email: string, pair: AccountKey) {
    k == Kit(RecoveryAuth(code, email), WrapVaultSubkeys(Subkeys(smk, pair), code, email))
  }

  ghost predicate KitFits(u: User, email: string, pair: AccountKey)
    requires OneCredential(u)
  {
    u.kit.Some? ==>
      exists code, smk ::
        KitHolds(u.kit.value, code, smk, email, pair) &&
        (u.wrapped.None? ==> smk == LegacySubkeys(CurrentPassword(u), email).smk)
  }

  /** The stored keys open to `pair`: under the current password, and under the kit's code. */
  ghost predicate KeysFit(u: User, email: string, pair: AccountKey) {
    && OneCredential(u)
    && (u.srp.Some? ==> u.wrapped.None?)
    && (if u.wrapped.Some? then u.wrapped.value == WrapAccountKey(pair, CurrentPassword(u), email)
        else pair == LegacySubkeys(CurrentPassword(u), email).account)
    && (u.privateKey.Some? ==> u.privateKey.value == SealPrivateKey(u.privateKey.value.plain, RowSmk(u, email, pair)))
    && KitFits(u, email, pair)
  }

  /** What never changes from one row to a later one. */
  predicate Extends(was: User, u: User) {
    && (was.wrapped.Some? ==> u.wrapped.Some?)
    && (u.wrapped.None? ==> u.privateKey == was.privateKey)
    && (was.privateKey.Some? ==> u.privateKey.Some? && u.privateKey.value.plain == was.privateKey.value.plain)
  }

  // ── What the account's own clients send ────────────────────────────────────

  function ResponseFrom(u: User): LoginResponse {
    LoginResponse(u.srp.Some?, u.wrapped, u.privateKey)
  }

  /** First unlock from an earlier answer, with any typed password. */
  ghost predicate HonestMigration(past: seq<User>, m: Migration, password: string, email: string) {
    exists row, known :: row in past && UnlockAccount(ResponseFrom(row), password, email, known) == MustMigrate(m)
  }

  /** Some client opened `a` from an earlier answer. */
  ghost predicate Opened(past: seq<User>, a: AccountKey, email: string) {
    exists row, password, known :: row in past && UnlockAccount(ResponseFrom(row), password, email, known) == Unlocked(a)
  }

  ghost predicate HonestKit(past: seq<User>, kit: Kit, email: string) {
    exists a, code ::
      Opened(past, a, email) && kit == Kit(RecoveryAuth(code, email), WrapVaultSubkeys(Subkeys(AccountSmk(a), a), code, email))
  }

  ghost predicate HonestKeyPair(past: seq<User>, blob: PrivateKeyBlob, email: string) {
    || (exists row :: row in past && row.privateKey == Some(blob))
    || (exists a, priv :: Opened(past, a, email) && blob == SealPrivateKey(priv, AccountSmk(a)))
  }

  ghost predicate HonestRecovery(past: seq<User>, token: nat, r: RecoveryRequest, newPassword: string, email: string) {
    exists row, code, newCode ::
      row in past && row.kit.Some? &&
      CompleteRecovery(RecoveryInit(token, row.kit.value.blob, row.privateKey), code, newPassword, newCode, email) == Some(r)
  }

  ghost predicate HonestRewrap(past: seq<User>, oldPassword: string, newPassword: string, rewrapped: WrappedKey, email: string) {
    exists row :: row in past && row.wrapped.Some? && RewrapForPassword(row.wrapped.value, oldPassword, newPassword, email) == Some(rewrapped)
  }

  /** Whose authority the request carries: its session's user, or its recovery token's. */
  function ActsFor(db: Db, req: Request): Option<nat> {
    match req
    case SetAccountKey(session, _, _, _, _) => SessionUser(db, session)
    case UpgradeFinish(session, _, _, _, _, _) => SessionUser(db, session)
    case PasswordFinish(session, _, _, _, _, _) => SessionUser(db, session)
    case SetRecovery(session, _) => SessionUser(db, session)
    case PutKeyPair(session, _) => SessionUser(db, session)
    case WriteItem(session, _, _) => SessionUser(db, session)
    case RecoveryFinish(token, _, _, _, _, _, _) =>
      var p := FindRecovery(db, token);
      if p.Some? then Some(p.value.user) else None
    case _ => None
  }

  /** The request is one the client code makes, given the rows the server has answered from so far. */
  ghost predicate Honest(past: seq<User>, req: Request, email: string) {
    match req
    case SetAccountKey(_, _, password, m, _) => HonestMigration(past, m, password, email)
    case UpgradeFinish(_, _, password, record, m, _) => record.password == password && HonestMigration(past, m, password, email)
    case PasswordFinish(_, _, password, record, rewrapped, _) => HonestRewrap(past, password, record.password, rewrapped, email)
    case SetRecovery(_, kit) => kit.Some? ==> HonestKit(past, kit.value, email)
    case PutKeyPair(_, blob) => HonestKeyPair(past, blob, email)
    case RecoveryFinish(token, credential, privateKey, wrapped, kit, items, _) =>
      credential.NewOpaque? && wrapped.Some? && items == [] &&
      HonestRecovery(past, token, RecoveryRequest(wrapped.value, privateKey, kit.auth, kit.blob), credential.record.password, email)
    case _ => true
  }

  // ── One honest request keeps the row healthy ───────────────────────────────

  /** All rows so far fit the same vault keys and lead up to this one. */
  ghost predicate PastFits(past: seq<User>, u: User, email: string, pair: AccountKey) {
    forall row :: row in past ==> KeysFit(row, email, pair) && Extends(row, u)
  }

  lemma OpenedIsPair(past: seq<User>, u: User, a: AccountKey, email: string, pair: AccountKey)
    requires PastFits(past, u, email, pair) && Opened(past, a, email)
    ensures a == pair && u.wrapped.Some?
  {
    var row, password, known :| row in past && UnlockAccount(ResponseFrom(row), password, email, known) == Unlocked(a);
    assert KeysFit(row, email, pair);
  }

  /** A migration that the server accepts wraps the pair the row's items are under. */
  lemma MigrationFits(past: seq<User>, u: User, m: Migration, record: Option<Credential>, email: string, pair: AccountKey)
    requires KeysFit(u, email, pair) && PastFits(past, u, email, pair) && u.wrapped.None?
    requires HonestMigration(past, m, CurrentPassword(u), email)
    requires record.Some? ==> record.value.password == CurrentPassword(u)
    ensures var u' := u.(opaqueRecord := Coalesce(record, u.opaqueRecord), srp := if record.Some? then None else u.srp,
                         wrapped := Some(m.wrapped), privateKey := Coalesce(m.privateKey, u.privateKey));
            u'.srp.None? ==> KeysFit(u', email, pair) && Extends(u, u')
  {
    var password := CurrentPassword(u);
    var row, known :| row in past && UnlockAccount(ResponseFrom(row), password, email, known) == MustMigrate(m);
    assert Extends(row, u) && KeysFit(row, email, pair);
    var u' := u.(opaqueRecord := Coalesce(record, u.opaqueRecord), srp := if record.Some? then None else u.srp,
                 wrapped := Some(m.wrapped), privateKey := Coalesce(m.privateKey, u.privateKey));
    if u'.srp.None? {
      KitStillFits(u, u', email, pair);
    }
  }

  /** A kit outlives any change of credential and wrap. */
  lemma KitStillFits(u: User, u': User, email: string, pair: AccountKey)
    requires OneCredential(u) && OneCredential(u') && KitFits(u, email, pair) && u'.kit == u.kit && u'.wrapped.Some?
    ensures KitFits(u', email, pair)
  {
  }

  lemma PasswordChangeFits(past: seq<User>, u: User, oldPassword: string, record: Credential, rewrapped: WrappedKey, email: string, pair: AccountKey)
    requires KeysFit(u, email, pair) && PastFits(past, u, email, pair) && u.srp.None?
    requires HonestRewrap(past, oldPassword, record.password, rewrapped, email)
    ensures var u' := u.(opaqueRecord := Some(record), wrapped := Some(rewrapped));
            KeysFit(u', email, pair) && Extends(u, u')
  {
    var row :| row in past && row.wrapped.Some? && RewrapForPassword(row.wrapped.value, oldPassword, record.password, email) == Some(rewrapped);
    assert KeysFit(row, email, pair) && Extends(row, u);
    KitStillFits(u, u.(opaqueRecord := Some(record), wrapped := Some(rewrapped)), email, pair);
  }

  lemma RecoveryFits(past: seq<User>, u: User, token: nat, r: RecoveryRequest, record: Credential, email: string, pair: AccountKey)
    requires KeysFit(u, email, pair) && PastFits(past, u, email, pair)
    requires HonestRecovery(past, token, r, record.password, email)
    ensures var u' := u.(srp := None, opaqueRecord := Some(record), wrapped := Some(r.wrapped),
                         privateKey := Coalesce(r.privateKey, u.privateKey), kit := Some(Kit(r.kitAuth, r.kit)));
            KeysFit(u', email, pair) && Extends(u, u')
  {
    var row, code, newCode :|
      row in past && row.kit.Some? &&
      CompleteRecovery(RecoveryInit(token, row.kit.value.blob, row.privateKey), code, record.password, newCode, email) == Some(r);
    assert KeysFit(row, email, pair) && Extends(row, u);
    HealthyRecovers(row, email, pair, token, record.password, newCode);
    hide CompleteRecovery;
    assert KitHolds(Kit(r.kitAuth, r.kit), newCode, AccountSmk(pair), email, pair);
  }

  lemma KeyPairFits(past: seq<User>, u: User, blob: PrivateKeyBlob, email: string, pair: AccountKey)
    requires KeysFit(u, email, pair) && PastFits(past, u, email, pair) && HonestKeyPair(past, blob, email)
    ensures var u' := u.(privateKey := Coalesce(u.privateKey, Some(blob)));
            KeysFit(u', email, pair) && Extends(u, u')
  {
    var u' := u.(privateKey := Coalesce(u.privateKey, Some(blob)));
    if row :| row in past && row.privateKey == Some(blob) {
      assert Extends(row, u) && u' == u;
    } else {
      var a, priv :| Opened(past, a, email) && blob == SealPrivateKey(priv, AccountSmk(a));
      OpenedIsPair(past, u, a, email, pair);
      KitStillFits(u, u', email, pair);
    }
  }

  lemma NewKitFits(past: seq<User>, u: User, kit: Option<Kit>, email: string, pair: AccountKey)
    requires KeysFit(u, email, pair) && PastFits(past, u, email, pair)
    requires kit.Some? ==> HonestKit(past, kit.value, email)
    ensures KeysFit(u.(kit := kit), email, pair) && Extends(u, u.(kit := kit))
  {
    if kit.Some? {
      var a, code :| Opened(past, a, email) && kit.value == Kit(RecoveryAuth(code, email), WrapVaultSubkeys(Subkeys(AccountSmk(a), a), code, email));
      OpenedIsPair(past, u, a, email, pair);
      assert KitHolds(kit.value, code, AccountSmk(pair), email, pair);
    }
  }

  // ── One request of anyone's ────────────────────────────────────────────────

  /** The row stays healthy, keeps what it had, and keeps its items. */
  ghost predicate RowGoesTo(u: User, u': User, email: string, pair: AccountKey) {
    KeysFit(u', email, pair) && Extends(u, u') && u'.items == u.items
  }

  lemma SetAccountKeyStep(db: Db, req: Request, user: nat, past: seq<User>, email: string, pair: AccountKey)
    requires Current(db) && user in db.users && KeysFit(db.users[user], email, pair) && PastFits(past, db.users[user], email, pair)
    requires req.SetAccountKey? && (ActsFor(db, req) == Some(user) ==> Honest(past, req, email))
    ensures user in Handle(db, req).0.users && RowGoesTo(db.users[user], Handle(db, req).0.users[user], email, pair)
  {
    SetAccountKeyRow(db, req, user);
    hide Handle, Current, KeysFit, PastFits, Extends;
    SameRow(db.users[user], email, pair);
    var u := db.users[user];
    if Handle(db, req).0.users[user] != u {
      MigrationStep(past, u, req.migration, None, email, pair);
    }
  }

  /** What a first-unlock migration writes to the row, if anything: it was proven with the current password. */
  lemma SetAccountKeyRow(db: Db, req: Request, user: nat)
    requires Current(db) && user in db.users && req.SetAccountKey?
    ensures user in Handle(db, req).0.users
    ensures var u, u', m := db.users[user], Handle(db, req).0.users[user], req.migration;
            || u' == u
            || (ActsFor(db, req) == Some(user) && u.wrapped.None? && OneCredential(u) && u.srp.None? && req.password == CurrentPassword(u)
                && u' == u.(wrapped := Some(m.wrapped), privateKey := Coalesce(m.privateKey, u.privateKey)))
  {
    var proof := Handle(db, req).1;
    if proof.Some? {
      RedemptionIsCurrent(db, req, proof.value);
    }
  }

  lemma MigrationStep(past: seq<User>, u: User, m: Migration, record: Option<Credential>, email: string, pair: AccountKey)
    requires KeysFit(u, email, pair) && PastFits(past, u, email, pair) && u.wrapped.None?
    requires OneCredential(u) && HonestMigration(past, m, CurrentPassword(u), email)
    requires if record.Some? then record.value.password == CurrentPassword(u) else u.srp.None?
    ensures RowGoesTo(u, u.(opaqueRecord := Coalesce(record, u.opaqueRecord), srp := None,
                            wrapped := Some(m.wrapped), privateKey := Coalesce(m.privateKey, u.privateKey)), email, pair)
  {
    MigrationFits(past, u, m, record, email, pair);
    hide KeysFit, PastFits, HonestMigration;
  }

  lemma PasswordStep(db: Db, req: Request, user: nat, past: seq<User>, email: string, pair: AccountKey)
    requires Current(db) && user in db.users && KeysFit(db.users[user], email, pair) && PastFits(past, db.users[user], email, pair)
    requires req.PasswordFinish? && (ActsFor(db, req) == Some(user) ==> Honest(past, req, email))
    ensures user in Handle(db, req).0.users && RowGoesTo(db.users[user], Handle(db, req).0.users[user], email, pair)
  {
    PasswordRow(db, req, user);
    hide Handle, Current, KeysFit, PastFits, Extends;
    SameRow(db.users[user], email, pair);
    var u := db.users[user];
    if Handle(db, req).0.users[user] != u {
      PasswordChangeFits(past, u, req.password, req.record, req.rewrapped, email, pair);
    }
  }

  lemma PasswordRow(db: Db, req: Request, user: nat)
    requires Current(db) && user in db.users && req.PasswordFinish?
    ensures user in Handle(db, req).0.users
    ensures var u, u' := db.users[user], Handle(db, req).0.users[user];
            || u' == u
            || (ActsFor(db, req) == Some(user) && OneCredential(u) && u.srp.None?
                && u' == u.(opaqueRecord := Some(req.record), wrapped := Some(req.rewrapped)))
  {
    var proof := Handle(db, req).1;
    if proof.Some? {
      RedemptionIsCurrent(db, req, proof.value);
    }
  }

  lemma UpgradeStep(db: Db, req: Request, user: nat, past: seq<User>, email: string, pair: AccountKey)
    requires Current(db) && user in db.users && KeysFit(db.users[user], email, pair) && PastFits(past, db.users[user], email, pair)
    requires req.UpgradeFinish? && (ActsFor(db, req) == Some(user) ==> Honest(past, req, email))
    ensures user in Handle(db, req).0.users && RowGoesTo(db.users[user], Handle(db, req).0.users[user], email, pair)
  {
    UpgradeRow(db, req, user);
    var u := db.users[user];
    assert OneCredential(u) && (u.srp.Some? ==> u.wrapped.None?);
    hide Handle, Current, KeysFit, PastFits, Extends;
    SameRow(u, email, pair);
    if Handle(db, req).0.users[user] != u {
      MigrationStep(past, u, req.migration, Some(req.record), email, pair);
    }
  }

  lemma UpgradeRow(db: Db, req: Request, user: nat)
    requires Current(db) && user in db.users && req.UpgradeFinish?
    ensures user in Handle(db, req).0.users
    ensures var u, u', m := db.users[user], Handle(db, req).0.users[user], req.migration;
            || u' == u
            || (ActsFor(db, req) == Some(user) && u.srp.Some? && req.password == u.srp.value.password
                && u' == u.(opaqueRecord := Some(req.record), srp := None, wrapped := Some(m.wrapped),
                            privateKey := Coalesce(m.privateKey, u.privateKey)))
  {
    var p := FindSrp(db, req.id);
    assert p.Some? ==> FitsSrp(db.users, p.value);
    hide OpaqueCurrent;
  }

  lemma RecoveryStep(db: Db, req: Request, user: nat, past: seq<User>, email: string, pair: AccountKey)
    requires Current(db) && user in db.users && KeysFit(db.users[user], email, pair) && PastFits(past, db.users[user], email, pair)
    requires req.RecoveryFinish? && (ActsFor(db, req) == Some(user) ==> Honest(past, req, email))
    ensures user in Handle(db, req).0.users && RowGoesTo(db.users[user], Handle(db, req).0.users[user], email, pair)
  {
    RecoveryRow(db, req, user);
    hide Handle, Current, KeysFit, PastFits, HonestRecovery, Extends;
    if ActsFor(db, req) == Some(user) {
      RecoveryFits(past, db.users[user], req.token, RecoveryRequest(req.wrapped.value, req.privateKey, req.newKit.auth, req.newKit.blob),
                   req.credential.record, email, pair);
    }
    SameRow(db.users[user], email, pair);
  }

  lemma SameRow(u: User, email: string, pair: AccountKey)
    requires KeysFit(u, email, pair)
    ensures RowGoesTo(u, u, email, pair)
  {
  }

  /** What a recovery with a wrapped key writes to the row, if anything. */
  lemma RecoveryRow(db: Db, req: Request, user: nat)
    requires user in db.users && req.RecoveryFinish?
    ensures user in Handle(db, req).0.users
    ensures var u, u' := db.users[user], Handle(db, req).0.users[user];
            || u' == u
            || (ActsFor(db, req) == Some(user) &&
                (req.credential.NewOpaque? && req.wrapped.Some? ==>
                   u' == u.(srp := None, opaqueRecord := Some(req.credential.record), wrapped := req.wrapped,
                            privateKey := Coalesce(req.privateKey, u.privateKey), kit := Some(req.newKit))))
  {
  }

  lemma KitStep(db: Db, req: Request, user: nat, past: seq<User>, email: string, pair: AccountKey)
    requires Current(db) && user in db.users && KeysFit(db.users[user], email, pair) && PastFits(past, db.users[user], email, pair)
    requires (req.SetRecovery? || req.PutKeyPair?) && (ActsFor(db, req) == Some(user) ==> Honest(past, req, email))
    ensures user in Handle(db, req).0.users && RowGoesTo(db.users[user], Handle(db, req).0.users[user], email, pair)
  {
    KitRow(db, req, user);
    hide Handle, Current, KeysFit, PastFits, Extends;
    SameRow(db.users[user], email, pair);
    if ActsFor(db, req) == Some(user) {
      if req.SetRecovery? {
        NewKitFits(past, db.users[user], req.kit, email, pair);
      } else {
        KeyPairFits(past, db.users[user], req.keyBlob, email, pair);
      }
    }
  }

  lemma KitRow(db: Db, req: Request, user: nat)
    requires user in db.users && (req.SetRecovery? || req.PutKeyPair?)
    ensures user in Handle(db, req).0.users
    ensures var u, u' := db.users[user], Handle(db, req).0.users[user];
            if ActsFor(db, req) != Some(user) then u' == u
            else if req.SetRecovery? then u' == u.(kit := req.kit)
            else u' == u.(privateKey := Coalesce(u.privateKey, Some(req.keyBlob)))
  {
  }

  /** Every other request leaves the row's keys alone, whoever sends it. */
  lemma OtherStep(db: Db, req: Request, user: nat)
    requires user in db.users
    requires !req.SetAccountKey? && !req.PasswordFinish? && !req.UpgradeFinish? && !req.RecoveryFinish? && !req.SetRecovery? && !req.PutKeyPair?
    ensures user in Handle(db, req).0.users
    ensures var u' := Handle(db, req).0.users[user];
            u' == db.users[user].(items := u'.items) &&
            (u'.items == db.users[user].items || (req.WriteItem? && ActsFor(db, req) == Some(user)))
  {
  }

  lemma ItemsDoNotMatter(u: User, u': User, email: string, pair: AccountKey)
    requires KeysFit(u, email, pair) && u' == u.(items := u'.items)
    ensures KeysFit(u', email, pair) && Extends(u, u')
  {
    if u.kit.Some? {
      var code, smk :| KitHolds(u.kit.value, code, smk, email, pair) && (u.wrapped.None? ==> smk == LegacySubkeys(CurrentPassword(u), email).smk);
      assert KitHolds(u'.kit.value, code, smk, email, pair);
    }
  }

  lemma RequestStep(db: Db, req: Request, user: nat, past: seq<User>, email: string, pair: AccountKey)
    requires Current(db) && user in db.users && KeysFit(db.users[user], email, pair) && PastFits(past, db.users[user], email, pair)
    requires ActsFor(db, req) == Some(user) ==> Honest(past, req, email)
    ensures user in Handle(db, req).0.users
    ensures var u' := Handle(db, req).0.users[user];
            KeysFit(u', email, pair) && Extends(db.users[user], u') &&
            (!(req.WriteItem? && ActsFor(db, req) == Some(user)) ==> u'.items == db.users[user].items)
    ensures var u, u' := db.users[user], Handle(db, req).0.users[user];
            var k, c := KitWritten(db, req, user), CredentialWritten(db, req, user);
            && u'.kit == (if k.Some? then k.value else u.kit)
            && if c.Some? then Stores(u', c.value) else u'.srp == u.srp && u'.opaqueRecord == u.opaqueRecord
  {
    hide KeysFit, PastFits, Honest, Current, Handle, Extends, KitWritten, CredentialWritten;
    WritesLand(db, req, user);
    if req.SetAccountKey? { SetAccountKeyStep(db, req, user, past, email, pair); }
    else if req.PasswordFinish? { PasswordStep(db, req, user, past, email, pair); }
    else if req.UpgradeFinish? { UpgradeStep(db, req, user, past, email, pair); }
    else if req.RecoveryFinish? { RecoveryStep(db, req, user, past, email, pair); }
    else if req.SetRecovery? || req.PutKeyPair? { KitStep(db, req, user, past, email, pair); }
    else {
      OtherStep(db, req, user);
      ItemsDoNotMatter(db.users[user], Handle(db, req).0.users[user], email, pair);
    }
  }

  // ── Over whole runs ────────────────────────────────────────────────────────

  /** Every row the server can have answered from. */
  function History(db: Db, reqs: seq<Request>, user: nat): seq<User>
    requires user in db.users
  {
    if reqs == [] then [db.users[user]]
    else
      var db' := After(db, reqs);
      History(db, reqs[..|reqs| - 1], user) + if user in db'.users then [db'.users[user]] else []
  }

  /** Anyone may send anything, but what carries the user's authority comes from the user's own clients. */
  ghost predicate HonestRun(db: Db, reqs: seq<Request>, user: nat, email: string)
    requires user in db.users
  {
    forall k :: 0 <= k < |reqs| ==>
      ActsFor(After(db, reqs[..k]), reqs[k]) == Some(user) ==> Honest(History(db, reqs[..k], user), reqs[k], email)
  }

  predicate WritesItems(db: Db, reqs: seq<Request>, k: nat, user: nat)
    requires k < |reqs|
  {
    reqs[k].WriteItem? && ActsFor(After(db, reqs[..k]), reqs[k]) == Some(user)
  }

  lemma {:induction false} HistoryFits(db: Db, reqs: seq<Request>, user: nat, email: string, pair: AccountKey)
    requires Current(db) && user in db.users && KeysFit(db.users[user], email, pair) && HonestRun(db, reqs, user, email)
    ensures user in After(db, reqs).users
    ensures KeysFit(After(db, reqs).users[user], email, pair)
    ensures PastFits(History(db, reqs, user), After(db, reqs).users[user], email, pair)
    ensures (forall k: nat :: k < |reqs| ==> !WritesItems(db, reqs, k, user)) ==> After(db, reqs).users[user].items == db.users[user].items
  {
    hide Handle, Current, KeysFit, ActsFor, Honest;
    if reqs != [] {
      var n := |reqs| - 1;
      var init := reqs[..n];
      forall k | 0 <= k < n ensures init[..k] == reqs[..k] && init[k] == reqs[k] {}
      HistoryFits(db, init, user, email, pair);
      var before := After(db, init);
      EveryRunIsCurrent(db, init);
      RequestStep(before, reqs[n], user, History(db, init, user), email, pair);
      var u, u' := before.users[user], After(db, reqs).users[user];
      assert Handle(before, reqs[n]).0.users[user] == u';
      forall row | row in History(db, reqs, user) ensures KeysFit(row, email, pair) && Extends(row, u') {
        if row in History(db, init, user) { assert Extends(row, u); } else { assert row == u'; }
      }
      if forall k: nat :: k < |reqs| ==> !WritesItems(db, reqs, k, user) {
        assert !WritesItems(db, reqs, n, user);
        forall k: nat | k < n ensures !WritesItems(db, init, k, user) { assert !WritesItems(db, reqs, k, user); }
      }
    }
  }

  /** The kit registered with the auth key of `code` opens to the vault keys under that code. */
  predicate OpensUnder(k: Kit, code: string, email: string, pair: AccountKey) {
    k.auth == RecoveryAuth(code, email) &&
    var keys := UnwrapVaultSubkeys(k.blob, code, email);
    keys.Some? && keys.value.account == pair
  }

  /**
   * The account invariant: from any healthy row, in every honest run, the stored credential and the stored kit are
   * those written last; the same vault keys stay behind the wrap under that credential's password and behind that kit
   * under the code it was registered with; the private key stays the one it was; items change only by item writes.
   */
  lemma KeysSurviveEveryRun(db: Db, reqs: seq<Request>, user: nat, email: string, pair: AccountKey)
    requires Current(db) && user in db.users && KeysFit(db.users[user], email, pair) && HonestRun(db, reqs, user, email)
    ensures user in After(db, reqs).users
    ensures KeysFit(After(db, reqs).users[user], email, pair)
    ensures Extends(db.users[user], After(db, reqs).users[user])
    ensures (forall k: nat :: k < |reqs| ==> !WritesItems(db, reqs, k, user)) ==> After(db, reqs).users[user].items == db.users[user].items
    ensures OneCredential(db.users[user]) && Stores(After(db, reqs).users[user], LatestCredential(db, reqs, user))
    ensures After(db, reqs).users[user].kit == LatestKit(db, reqs, user)
    ensures var kit := LatestKit(db, reqs, user);
            kit.Some? ==> exists code :: OpensUnder(kit.value, code, email, pair) &&
                                         forall other :: kit.value.auth == RecoveryAuth(other, email) ==> other == code
  {
    HistoryFits(db, reqs, user, email, pair);
    FirstRow(db, reqs, user);
    StoredIsLatest(db, reqs, user);
    var u := After(db, reqs).users[user];
    if u.kit.Some? {
      KitOpens(u, email, pair);
    }
    hide KeysFit, Current, HonestRun, LatestKit, LatestCredential;
  }

  lemma KitOpens(u: User, email: string, pair: AccountKey)
    requires KeysFit(u, email, pair) && u.kit.Some?
    ensures exists code :: OpensUnder(u.kit.value, code, email, pair) &&
                           forall other :: u.kit.value.auth == RecoveryAuth(other, email) ==> other == code
  {
    var code, smk :| KitHolds(u.kit.value, code, smk, email, pair);
    KitRoundTrip(Subkeys(smk, pair), code, email, code);
    assert OpensUnder(u.kit.value, code, email, pair);
  }

  lemma {:induction false} FirstRow(db: Db, reqs: seq<Request>, user: nat)
    requires user in db.users
    ensures db.users[user] in History(db, reqs, user)
  {
    if reqs != [] { FirstRow(db, reqs[..|reqs| - 1], user); }
  }

  /** A new account is healthy: its vault keys are the password's legacy keys until the first unlock. */
  lemma RegisteredFits(db: Db, user: nat, accountKey: string, record: Credential, priv: PrivateKey, email: string)
    requires user !in db.users && FindUser(db, accountKey).None?
    ensures var legacy := LegacySubkeys(record.password, email);
            var db' := Handle(db, Register(user, accountKey, record, Some(SealPrivateKey(priv, legacy.smk)))).0;
            user in db'.users && KeysFit(db'.users[user], email, legacy.account)
  {
  }

  // ── What a healthy row is good for ─────────────────────────────────────────

  /** Signing in with the current password opens or first wraps exactly the vault keys; any other password fails once they are wrapped. */
  lemma HealthyUnlocks(u: User, email: string, pair: AccountKey, password: string, known: bool)
    requires KeysFit(u, email, pair)
    ensures u.wrapped.Some? ==>
              UnlockAccount(ResponseFrom(u), password, email, known) == if password == CurrentPassword(u) then Unlocked(pair) else UnlockFailed
    ensures u.wrapped.None? && !known && password == CurrentPassword(u) ==>
              UnlockAccount(ResponseFrom(u), password, email, known) ==
              MustMigrate(Migration(WrapAccountKey(pair, password, email),
                                    if u.privateKey.None? then None else Some(SealPrivateKey(u.privateKey.value.plain, AccountSmk(pair)))))
  {
  }

  /** The kit's code, and no other, recovers the vault keys and the private key to any new password. */
  lemma HealthyRecovers(u: User, email: string, pair: AccountKey, token: nat, newPassword: string, newCode: string)
    requires KeysFit(u, email, pair) && u.kit.Some?
    ensures exists code :: u.kit.value.auth == RecoveryAuth(code, email) &&
              forall typed :: CompleteRecovery(RecoveryInit(token, u.kit.value.blob, u.privateKey), typed, newPassword, newCode, email) ==
                if typed != code then None
                else Some(RecoveryRequest(WrapAccountKey(pair, newPassword, email),
                                          if u.privateKey.None? then None else Some(SealPrivateKey(u.privateKey.value.plain, AccountSmk(pair))),
                                          RecoveryAuth(newCode, email), WrapVaultSubkeys(Subkeys(AccountSmk(pair), pair), newCode, email)))
  {
    var code, smk :| KitHolds(u.kit.value, code, smk, email, pair) && (u.wrapped.None? ==> smk == LegacySubkeys(CurrentPassword(u), email).smk);
    assert u.kit.value.auth == RecoveryAuth(code, email);
    forall typed
      ensures CompleteRecovery(RecoveryInit(token, u.kit.value.blob, u.privateKey), typed, newPassword, newCode, email) ==
                if typed != code then None
                else Some(RecoveryRequest(WrapAccountKey(pair, newPassword, email),
                                          if u.privateKey.None? then None else Some(SealPrivateKey(u.privateKey.value.plain, AccountSmk(pair))),
                                          RecoveryAuth(newCode, email), WrapVaultSubkeys(Subkeys(AccountSmk(pair), pair), newCode, email)))
    {
      KitRoundTrip(Subkeys(smk, pair), code, email, typed);
    }
  }

  /**
   * Why recoveries that send no wrapped key stay outside: they keep a migrated account's old wrap, so the new
   * password opens the account if and only if it is the old one.
   */
  lemma RecoveryWithoutWrapLocksOut(u: User, r: PasswordRotation, email: string, pair: AccountKey, known: bool)
    requires KeysFit(u, email, pair) && u.wrapped.Some? && r.wrapped.None? && RotatedItems(u.items, r.items).Some?
    ensures OneCredential(RotatedRow(u, r))
    ensures UnlockAccount(ResponseFrom(RotatedRow(u, r)), CurrentPassword(RotatedRow(u, r)), email, known) ==
            if CurrentPassword(RotatedRow(u, r)) == CurrentPassword(u) then Unlocked(pair) else UnlockFailed
  {
    WrapRoundTrip(pair, CurrentPassword(u), email, CurrentPassword(RotatedRow(u, r)), email);
  }
}
