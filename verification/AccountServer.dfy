/**
 * Accounts on the server: login credentials, key blobs, pending handshakes,
 * recovery tokens and sessions, with the handlers that change them
 * (crates/nopass-api/src/db/auth.rs, db/recovery.rs, db/pending.rs,
 * routes/auth.rs, routes/proof.rs, routes/password.rs, routes/recovery.rs).
 */
module AccountServer {
  import opened Wrappers
  import opened IdealCrypto
  import opened AccountKeys
  import opened Rows

  // ── Rows ───────────────────────────────────────────────────────────────────

  /** A login credential made from a password; `serial` tells registrations apart. */
  datatype Credential = Credential(password: string, serial: nat)

  datatype Kit = Kit(auth: Key, blob: KitBlob)

  datatype ItemRow = ItemRow(blob: nat, version: nat)

  datatype User = User(
    accountKey: string,
    srp: Option<Credential>,
    opaqueRecord: Option<Credential>,
    wrapped: Option<WrappedKey>,
    privateKey: Option<PrivateKeyBlob>,
    kit: Option<Kit>,
    items: map<nat, ItemRow>)

  datatype Purpose = ForLogin | ForAccountKey | ForIdentityKey | ForPasswordChange

  /** `record` is what the server's side of the handshake was computed from; None for a fake one. */
  datatype PendingOpaque = PendingOpaque(
    id: nat, accountKey: string, user: Option<nat>, record: Option<Credential>, createdAt: int, purpose: Purpose)

  datatype PendingSrp = PendingSrp(id: nat, user: nat, verifier: Credential, createdAt: int)

  datatype PendingRecovery = PendingRecovery(token: nat, user: nat, createdAt: int)

  datatype Session = Session(user: nat, createdAt: int)

  /** Pending rows in order of insertion; `issued` holds every id ever drawn. */
  datatype Db = Db(
    users: map<nat, User>,
    opaqueLogins: seq<PendingOpaque>,
    srpLogins: seq<PendingSrp>,
    recoveries: seq<PendingRecovery>,
    sessions: map<nat, Session>,
    issued: set<nat>)

  const MAX_PENDING := 5
  const LOGIN_TTL := 300
  const RECOVERY_TTL := 600
  const PASSWORD_CHANGE_MAX_SESSION_AGE := 900

  // ── Pending tables ─────────────────────────────────────────────────────────

  function OfAccount(accountKey: string): PendingOpaque -> bool {
    (p: PendingOpaque) => p.accountKey == accountKey
  }

  function OfUser(user: nat): PendingSrp -> bool {
    (p: PendingSrp) => p.user == user
  }

  function FindOpaque(db: Db, id: nat): (r: Option<PendingOpaque>)
    ensures r.Some? ==> r.value in db.opaqueLogins && r.value.id == id
    ensures r.None? ==> forall p :: p in db.opaqueLogins ==> p.id != id
  {
    Find(db.opaqueLogins, (p: PendingOpaque) => p.id == id)
  }

  function FindSrp(db: Db, id: nat): (r: Option<PendingSrp>)
    ensures r.Some? ==> r.value in db.srpLogins && r.value.id == id
  {
    Find(db.srpLogins, (p: PendingSrp) => p.id == id)
  }

  function FindRecovery(db: Db, token: nat): (r: Option<PendingRecovery>)
    ensures r.Some? ==> r.value in db.recoveries && r.value.token == token
  {
    Find(db.recoveries, (p: PendingRecovery) => p.token == token)
  }

  /** Insert, then drop all but the newest rows of the account. */
  function InsertOpaque(db: Db, p: PendingOpaque): Db {
    db.(opaqueLogins := KeepNewest(db.opaqueLogins + [p], OfAccount(p.accountKey), MAX_PENDING), issued := db.issued + {p.id})
  }

  function InsertSrp(db: Db, p: PendingSrp): Db {
    db.(srpLogins := KeepNewest(db.srpLogins + [p], OfUser(p.user), MAX_PENDING), issued := db.issued + {p.id})
  }

  /** DELETE … RETURNING: the row is gone whatever becomes of the handshake. */
  function TakeOpaque(db: Db, id: nat): Db {
    db.(opaqueLogins := Filter(db.opaqueLogins, (p: PendingOpaque) => p.id != id))
  }

  function TakeSrp(db: Db, id: nat): Db {
    db.(srpLogins := Filter(db.srpLogins, (p: PendingSrp) => p.id != id))
  }

  // ── Transactions ───────────────────────────────────────────────────────────

  function DropPendingLogins(db: Db, user: nat): Db {
    db.(opaqueLogins := Filter(db.opaqueLogins, (p: PendingOpaque) => p.user != Some(user)),
        srpLogins := Filter(db.srpLogins, (p: PendingSrp) => p.user != user))
  }

  function DropRecoveries(db: Db, user: nat): Db {
    db.(recoveries := Filter(db.recoveries, (p: PendingRecovery) => p.user != user))
  }

  /** Revoke the user's sessions except `keep`. */
  function RevokeSessions(db: Db, user: nat, keep: Option<nat>): Db {
    db.(sessions := map s | s in db.sessions && (db.sessions[s].user != user || Some(s) == keep) :: db.sessions[s])
  }

  function Coalesce<T>(a: Option<T>, b: Option<T>): Option<T> {
    if a.Some? then a else b
  }

  /** complete_srp_upgrade */
  function SrpUpgraded(db: Db, user: nat, keep: nat, record: Credential, m: Migration): (r: (Db, bool))
    requires user in db.users
  {
    var u := db.users[user];
    if u.srp.None? then (db, false)
    else
      var u' := u.(opaqueRecord := Some(record), srp := None, wrapped := Some(m.wrapped),
                   privateKey := Coalesce(m.privateKey, u.privateKey));
      (RevokeSessions(DropPendingLogins(db.(users := db.users[user := u']), user), user, Some(keep)), true)
  }

  /** set_account_key */
  function AccountKeySet(db: Db, user: nat, m: Migration): (r: (Db, bool))
    requires user in db.users
  {
    var u := db.users[user];
    if u.wrapped.Some? then (db, false)
    else (db.(users := db.users[user := u.(wrapped := Some(m.wrapped), privateKey := Coalesce(m.privateKey, u.privateKey))]), true)
  }

  datatype NewCredential = NewOpaque(record: Credential) | NewSrp(verifier: Credential)

  datatype ReencryptedItem = ReencryptedItem(id: nat, blob: nat)

  datatype PasswordRotation = PasswordRotation(
    credential: NewCredential,
    privateKey: Option<PrivateKeyBlob>,
    wrapped: Option<WrappedKey>,
    kit: Option<Kit>,
    items: Option<seq<ReencryptedItem>>)

  datatype Authority = ByToken(token: nat) | BySession(session: nat)

  /** The items after the updates of `rows`, in order; None if one of them matches no item. */
  function Reencrypted(items: map<nat, ItemRow>, rows: seq<ReencryptedItem>): (r: Option<map<nat, ItemRow>>)
    ensures r.Some? ==> r.value.Keys == items.Keys
  {
    if rows == [] then Some(items)
    else
      match Reencrypted(items, rows[..|rows| - 1])
      case None => None
      case Some(done) =>
        var row := rows[|rows| - 1];
        if row.id !in done then None else Some(done[row.id := ItemRow(row.blob, done[row.id].version + 1)])
  }

  /** The items after a rotation; None if the re-encrypted rows are not as many as the items. */
  function RotatedItems(items: map<nat, ItemRow>, rows: Option<seq<ReencryptedItem>>): (r: Option<map<nat, ItemRow>>) {
    if rows.None? then Some(items)
    else if |rows.value| != |items| then None
    else Reencrypted(items, rows.value)
  }

  /** The user row a rotation writes. */
  function RotatedRow(u: User, r: PasswordRotation): User
    requires RotatedItems(u.items, r.items).Some?
  {
    u.(srp := if r.credential.NewSrp? then Some(r.credential.verifier) else None,
       opaqueRecord := if r.credential.NewOpaque? then Some(r.credential.record) else None,
       wrapped := Coalesce(r.wrapped, u.wrapped),
       privateKey := Coalesce(r.privateKey, u.privateKey),
       kit := Coalesce(r.kit, u.kit),
       items := RotatedItems(u.items, r.items).value)
  }

  /** Nothing obtained under the old password outlives it: handshakes, recovery tokens, sessions but `keep`. */
  function EndAuthority(db: Db, user: nat, keep: Option<nat>): Db {
    RevokeSessions(DropRecoveries(DropPendingLogins(db, user), user), user, keep)
  }

  /** rotate_master_password; false leaves everything as it was. */
  function MasterPasswordRotated(db: Db, authority: Authority, user: nat, r: PasswordRotation): (res: (Db, bool))
    requires user in db.users
  {
    var u := db.users[user];
    if authority.ByToken? && FindRecovery(db, authority.token).None? then (db, false)
    else if RotatedItems(u.items, r.items).None? then (db, false)
    else
      var db1 := db.(users := db.users[user := RotatedRow(u, r)]);
      (EndAuthority(db1, user, if authority.BySession? then Some(authority.session) else None), true)
  }

  function RecoverySet(db: Db, user: nat, kit: Option<Kit>): Db
    requires user in db.users
  {
    DropRecoveries(db.(users := db.users[user := db.users[user].(kit := kit)]), user)
  }

  // ── Handlers ───────────────────────────────────────────────────────────────

  /** A password typed by a caller stands for the OPAQUE or SRP message it makes. */
  datatype Request =
    | Register(user: nat, accountKey: string, record: Credential, privateKey: Option<PrivateKeyBlob>)
    | LoginStart(id: nat, accountKey: string, now: int)
    | LoginFinish(id: nat, password: string, session: nat, now: int)
    | SrpStart(id: nat, accountKey: string, now: int)
    | SrpFinish(id: nat, password: string, session: nat, now: int)
    | ProofStart(session: nat, id: nat, purpose: Purpose, now: int)
    | SetAccountKey(session: nat, id: nat, password: string, migration: Migration, now: int)
    | PublishIdentity(session: nat, id: nat, password: string, now: int)
    | UpgradeStart(session: nat, id: nat, now: int)
    | UpgradeFinish(session: nat, id: nat, password: string, record: Credential, migration: Migration, now: int)
    | PasswordFinish(session: nat, id: nat, password: string, record: Credential, rewrapped: WrappedKey, now: int)
    | SetRecovery(session: nat, kit: Option<Kit>)
    | RecoveryStart(accountKey: string, auth: Key, token: nat, now: int)
    | RecoveryFinish(token: nat, credential: NewCredential, privateKey: Option<PrivateKeyBlob>, wrapped: Option<WrappedKey>,
                     newKit: Kit, items: seq<ReencryptedItem>, now: int)
    | PutKeyPair(session: nat, keyBlob: PrivateKeyBlob)
    | WriteItem(session: nat, item: nat, blob: nat)
    | EndSession(session: nat)
    | Prune(now: int)

  /** What a handled request proved: a handshake of this purpose, redeemed for this user. */
  datatype Redemption = Redemption(id: nat, user: nat, purpose: Purpose, startedAt: int, record: Credential)

  function FindUser(db: Db, accountKey: string): (r: Option<nat>)
    ensures r.Some? ==> r.value in db.users && db.users[r.value].accountKey == accountKey
    ensures r.None? ==> forall u :: u in db.users ==> db.users[u].accountKey != accountKey
  {
    var s := set u | u in db.users && db.users[u].accountKey == accountKey;
    assert forall u :: u in db.users && db.users[u].accountKey == accountKey ==> u in s;
    if s == {} then None else Some(Least(s))
  }

  /** Account keys are unique, so there is one user to find; the least makes the choice definite. */
  function Least(s: set<nat>): (m: nat)
    requires s != {}
    ensures m in s
  {
    LeastExists(s);
    var m :| m in s && forall x :: x in s ==> m <= x;
    m
  }

  lemma {:induction false} LeastExists(s: set<nat>)
    requires s != {}
    ensures exists m :: m in s && forall x :: x in s ==> m <= x
    decreases s
  {
    var y :| y in s;
    var rest := s - {y};
    var least := y;
    if rest != {} {
      LeastExists(rest);
      var m :| m in rest && forall x :: x in rest ==> m <= x;
      least := if y < m then y else m;
    }
    assert forall x :: x in s ==> x == y || x in rest;
    assert least in s && forall x :: x in s ==> least <= x;
  }

  /** The redemption of handshake `id` for `purpose`, by a caller who typed `password`. */
  function Redeem(db: Db, id: nat, purpose: Purpose, password: string, now: int): (r: Option<Redemption>) {
    match FindOpaque(db, id)
    case None => None
    case Some(p) =>
      if p.purpose != purpose || now - p.createdAt > LOGIN_TTL || p.record.None? || p.record.value.password != password || p.user.None?
      then None
      else Some(Redemption(id, p.user.value, purpose, p.createdAt, p.record.value))
  }

  function SessionUser(db: Db, session: nat): (r: Option<nat>)
    ensures r.Some? ==> r.value in db.users
  {
    if session in db.sessions && db.sessions[session].user in db.users then Some(db.sessions[session].user) else None
  }

  function OpenSession(db: Db, session: nat, user: nat, now: int): Db {
    db.(sessions := db.sessions[session := Session(user, now)], issued := db.issued + {session})
  }

  /** A password proof for a session: right purpose, right user, right password. Consumed in any case. */
  function Proven(db: Db, session: nat, id: nat, purpose: Purpose, password: string, now: int): (r: Option<Redemption>) {
    match (SessionUser(db, session), Redeem(db, id, purpose, password, now))
    case (Some(u), Some(r)) => if r.user == u then Some(r) else None
    case _ => None
  }

  function HandleLogin(db: Db, req: Request): (r: (Db, Option<Redemption>))
    requires req.LoginStart? || req.LoginFinish?
  {
    match req
    case LoginStart(id, accountKey, now) =>
      if id in db.issued then (db, None)
      else
        var u := FindUser(db, accountKey);
        var genuine := u.Some? && db.users[u.value].opaqueRecord.Some?;
        var p := PendingOpaque(id, accountKey, if genuine then u else None,
                               if genuine then db.users[u.value].opaqueRecord else None, now, ForLogin);
        (InsertOpaque(db, p), None)
    case LoginFinish(id, password, session, now) =>
      if session in db.issued then (db, None)
      else
        var r := Redeem(db, id, ForLogin, password, now);
        if r.None? then (TakeOpaque(db, id), None)
        else (OpenSession(TakeOpaque(db, id), session, r.value.user, now), r)
  }

  function HandleSrp(db: Db, req: Request): (r: Db)
    requires req.SrpStart? || req.SrpFinish? || req.UpgradeStart? || req.UpgradeFinish?
  {
    match req
    case SrpStart(id, accountKey, now) =>
      var u := FindUser(db, accountKey);
      if id in db.issued || u.None? || db.users[u.value].srp.None? then db
      else InsertSrp(db, PendingSrp(id, u.value, db.users[u.value].srp.value, now))
    case SrpFinish(id, password, session, now) =>
      var p := FindSrp(db, id);
      if session in db.issued || p.None? then db
      else if now - p.value.createdAt > LOGIN_TTL || p.value.user !in db.users || p.value.verifier.password != password
      then TakeSrp(db, id)
      else OpenSession(TakeSrp(db, id), session, p.value.user, now)
    case UpgradeStart(session, id, now) =>
      var u := SessionUser(db, session);
      if id in db.issued || u.None? || db.users[u.value].srp.None? then db
      else InsertSrp(db, PendingSrp(id, u.value, db.users[u.value].srp.value, now))
    case UpgradeFinish(session, id, password, record, m, now) =>
      var u, p := SessionUser(db, session), FindSrp(db, id);
      if u.None? || p.None? then db
      else
        var db1 := TakeSrp(db, id);
        if p.value.user != u.value || now - p.value.createdAt > LOGIN_TTL || p.value.verifier.password != password then db1
        else SrpUpgraded(db1, u.value, session, record, m).0
  }

  function HandleProof(db: Db, req: Request): (r: (Db, Option<Redemption>))
    requires req.ProofStart? || req.SetAccountKey? || req.PublishIdentity? || req.PasswordFinish?
  {
    match req
    case ProofStart(session, id, purpose, now) =>
      var u := SessionUser(db, session);
      if id in db.issued || u.None? || purpose.ForLogin? || db.users[u.value].opaqueRecord.None? then (db, None)
      else if purpose.ForPasswordChange? &&
              (db.users[u.value].wrapped.None? || now - db.sessions[session].createdAt > PASSWORD_CHANGE_MAX_SESSION_AGE)
      then (db, None)
      else
        var p := PendingOpaque(id, db.users[u.value].accountKey, u, db.users[u.value].opaqueRecord, now, purpose);
        (InsertOpaque(db, p), None)
    case SetAccountKey(session, id, password, m, now) =>
      var proof := Proven(db, session, id, ForAccountKey, password, now);
      var db1 := if SessionUser(db, session).Some? then TakeOpaque(db, id) else db;
      if proof.None? then (db1, None) else (AccountKeySet(db1, proof.value.user, m).0, proof)
    case PublishIdentity(session, id, password, now) =>
      var proof := Proven(db, session, id, ForIdentityKey, password, now);
      (if SessionUser(db, session).Some? then TakeOpaque(db, id) else db, proof)
    case PasswordFinish(session, id, password, record, wrapped, now) =>
      var u := SessionUser(db, session);
      if u.None? || now - db.sessions[session].createdAt > PASSWORD_CHANGE_MAX_SESSION_AGE then (db, None)
      else
        var proof := Proven(db, session, id, ForPasswordChange, password, now);
        var db1 := TakeOpaque(db, id);
        if proof.None? then (db1, None)
        else (MasterPasswordRotated(db1, BySession(session), u.value,
                                    PasswordRotation(NewOpaque(record), None, Some(wrapped), None, None)).0, proof)
  }

  function HandleRecovery(db: Db, req: Request): (r: Db)
    requires req.SetRecovery? || req.RecoveryStart? || req.RecoveryFinish?
  {
    match req
    case SetRecovery(session, kit) =>
      var u := SessionUser(db, session);
      if u.None? then db else RecoverySet(db, u.value, kit)
    case RecoveryStart(accountKey, auth, token, now) =>
      var u := FindUser(db, accountKey);
      if token in db.issued || u.None? || db.users[u.value].kit.None? || db.users[u.value].kit.value.auth != auth then db
      else db.(recoveries := db.recoveries + [PendingRecovery(token, u.value, now)], issued := db.issued + {token})
    case RecoveryFinish(token, credential, privateKey, wrapped, kit, items, now) =>
      var p := FindRecovery(db, token);
      if p.None? || now - p.value.createdAt > RECOVERY_TTL || p.value.user !in db.users then db
      else if if wrapped.Some? then items != [] else !DistinctItems(items) then db
      else
        var rotation := PasswordRotation(credential, privateKey, wrapped, Some(kit), if wrapped.Some? then None else Some(items));
        MasterPasswordRotated(db, ByToken(token), p.value.user, rotation).0
  }

  predicate DistinctItems(items: seq<ReencryptedItem>) {
    forall i, j :: 0 <= i < j < |items| ==> items[i].id != items[j].id
  }

  function Handle(db: Db, req: Request): (r: (Db, Option<Redemption>)) {
    match req
    case LoginStart(_, _, _) => HandleLogin(db, req)
    case LoginFinish(_, _, _, _) => HandleLogin(db, req)
    case SrpStart(_, _, _) => (HandleSrp(db, req), None)
    case SrpFinish(_, _, _, _) => (HandleSrp(db, req), None)
    case UpgradeStart(_, _, _) => (HandleSrp(db, req), None)
    case UpgradeFinish(_, _, _, _, _, _) => (HandleSrp(db, req), None)
    case ProofStart(_, _, _, _) => HandleProof(db, req)
    case SetAccountKey(_, _, _, _, _) => HandleProof(db, req)
    case PublishIdentity(_, _, _, _) => HandleProof(db, req)
    case PasswordFinish(_, _, _, _, _, _) => HandleProof(db, req)
    case SetRecovery(_, _) => (HandleRecovery(db, req), None)
    case RecoveryStart(_, _, _, _) => (HandleRecovery(db, req), None)
    case RecoveryFinish(_, _, _, _, _, _, _) => (HandleRecovery(db, req), None)
    case Register(user, accountKey, record, privateKey) =>
      if user in db.users || FindUser(db, accountKey).Some? then (db, None)
      else (db.(users := db.users[user := User(accountKey, None, Some(record), None, privateKey, None, map[])]), None)
    case PutKeyPair(session, privateKey) =>
      var u := SessionUser(db, session);
      if u.None? then (db, None)
      else
        var row := db.users[u.value];
        (db.(users := db.users[u.value := row.(privateKey := Coalesce(row.privateKey, Some(privateKey)))]), None)
    case WriteItem(session, item, blob) =>
      var u := SessionUser(db, session);
      if u.None? then (db, None)
      else
        var row := db.users[u.value];
        var version := if item in row.items then row.items[item].version + 1 else 1;
        (db.(users := db.users[u.value := row.(items := row.items[item := ItemRow(blob, version)])]), None)
    case EndSession(session) => (db.(sessions := db.sessions - {session}), None)
    case Prune(now) =>
      (db.(opaqueLogins := Filter(db.opaqueLogins, (p: PendingOpaque) => !(p.createdAt < now - LOGIN_TTL)),
           srpLogins := Filter(db.srpLogins, (p: PendingSrp) => !(p.createdAt < now - LOGIN_TTL)),
           recoveries := Filter(db.recoveries, (p: PendingRecovery) => !(p.createdAt < now - RECOVERY_TTL))), None)
  }
}
