/**
 * The account tables as the server updates them, one method per transaction
 * (crates/nopass-api/src/db/auth.rs, db/recovery.rs, db/pending.rs). A
 * transaction that fails puts back what it changed.
 */
module AccountStore {
  import opened Wrappers
  import opened AccountKeys
  import opened Rows
  import opened AccountServer

  datatype RotationError = ItemMismatch | TokenConsumed

  class Accounts {
    var users: map<nat, User>
    var opaqueLogins: seq<PendingOpaque>
    var srpLogins: seq<PendingSrp>
    var recoveries: seq<PendingRecovery>
    var sessions: map<nat, Session>
    var issued: set<nat>

    function State(): Db
      reads this
    {
      Db(users, opaqueLogins, srpLogins, recoveries, sessions, issued)
    }

    constructor ()
      ensures State() == Db(map[], [], [], [], map[], {})
    {
      users, opaqueLogins, srpLogins, recoveries, sessions, issued := map[], [], [], [], map[], {};
    }

    method InsertOpaqueLogin(p: PendingOpaque)
      modifies this
      ensures State() == InsertOpaque(old(State()), p)
    {
      opaqueLogins := opaqueLogins + [p];
      opaqueLogins := KeepNewest(opaqueLogins, OfAccount(p.accountKey), MAX_PENDING);
      issued := issued + {p.id};
    }

    /** One finish per start: the row is returned at most once. */
    method TakeOpaqueLogin(id: nat) returns (login: Option<PendingOpaque>)
      modifies this
      ensures login == FindOpaque(old(State()), id)
      ensures State() == TakeOpaque(old(State()), id)
      ensures FindOpaque(State(), id).None?
    {
      login := Find(opaqueLogins, (p: PendingOpaque) => p.id == id);
      opaqueLogins := Filter(opaqueLogins, (p: PendingOpaque) => p.id != id);
    }

    method DropLogins(user: nat)
      modifies this
      ensures State() == DropPendingLogins(old(State()), user)
    {
      opaqueLogins := Filter(opaqueLogins, (p: PendingOpaque) => p.user != Some(user));
      srpLogins := Filter(srpLogins, (p: PendingSrp) => p.user != user);
    }

    method SetKit(user: nat, kit: Option<Kit>)
      requires user in users
      modifies this
      ensures State() == RecoverySet(old(State()), user, kit)
    {
      users := users[user := users[user].(kit := kit)];
      recoveries := Filter(recoveries, (p: PendingRecovery) => p.user != user);
    }

    method SetAccountKey(user: nat, m: Migration) returns (stored: bool)
      requires user in users
      modifies this
      ensures (State(), stored) == AccountKeySet(old(State()), user, m)
    {
      var u := users[user];
      if u.wrapped.Some? { return false; }
      users := users[user := u.(wrapped := Some(m.wrapped), privateKey := Coalesce(m.privateKey, u.privateKey))];
      return true;
    }

    method CompleteSrpUpgrade(user: nat, keep: nat, record: Credential, m: Migration) returns (upgraded: bool)
      requires user in users
      modifies this
      ensures (State(), upgraded) == SrpUpgraded(old(State()), user, keep, record, m)
    {
      var u := users[user];
      if u.srp.None? { return false; }
      users := users[user := u.(opaqueRecord := Some(record), srp := None, wrapped := Some(m.wrapped),
                                privateKey := Coalesce(m.privateKey, u.privateKey))];
      DropLogins(user);
      sessions := map s | s in sessions && (sessions[s].user != user || Some(s) == Some(keep)) :: sessions[s];
      return true;
    }

    /** All or nothing: on an error every table is as before. */
    method RotateMasterPassword(authority: Authority, user: nat, r: PasswordRotation) returns (res: Result<(), RotationError>)
      requires user in users
      modifies this
      ensures (State(), res.Ok?) == MasterPasswordRotated(old(State()), authority, user, r)
      ensures res == Err(TokenConsumed) <==> authority.ByToken? && FindRecovery(old(State()), authority.token).None?
    {
      if authority.ByToken? && Find(recoveries, (p: PendingRecovery) => p.token == authority.token).None? {
        return Err(TokenConsumed);
      }
      var before := users;
      var u := users[user];
      users := users[user := u.(srp := if r.credential.NewSrp? then Some(r.credential.verifier) else None,
                                opaqueRecord := if r.credential.NewOpaque? then Some(r.credential.record) else None,
                                wrapped := Coalesce(r.wrapped, u.wrapped),
                                privateKey := Coalesce(r.privateKey, u.privateKey),
                                kit := Coalesce(r.kit, u.kit))];
      if r.items.Some? {
        var ok := Reencrypt(user, r.items.value);
        if !ok || |r.items.value| != |users[user].items| {
          users := before;
          return Err(ItemMismatch);
        }
      }
      assert users == before[user := RotatedRow(u, r)];
      EndOldAuthority(user, if authority.BySession? then Some(authority.session) else None);
      return Ok(());
    }

    method EndOldAuthority(user: nat, keep: Option<nat>)
      modifies this
      ensures State() == EndAuthority(old(State()), user, keep)
    {
      DropLogins(user);
      recoveries := Filter(recoveries, (p: PendingRecovery) => p.user != user);
      sessions := map s | s in sessions && (sessions[s].user != user || Some(s) == keep) :: sessions[s];
    }

    /** One update per row; stops at the first row that is not this user's item. */
    method Reencrypt(user: nat, rows: seq<ReencryptedItem>) returns (ok: bool)
      requires user in users
      modifies this
      ensures ok == Reencrypted(old(users[user].items), rows).Some?
      ensures ok ==> State() == old(State()).(users := old(users)[user := old(users[user]).(items := Reencrypted(old(users[user].items), rows).value)])
      ensures !ok ==> State() == old(State()).(users := users)
      ensures user in users && |users[user].items| == |old(users[user].items)|
    {
      var i := 0;
      ghost var items := users[user].items;
      ghost var start := State();
      while i < |rows|
        invariant i <= |rows|
        invariant user in users && Reencrypted(items, rows[..i]) == Some(users[user].items)
        invariant State() == start.(users := start.users[user := start.users[user].(items := users[user].items)])
      {
        var row := rows[i];
        var u := users[user];
        assert rows[..i + 1][..i] == rows[..i];
        SameSize(u.items, items);
        if row.id !in u.items {
          NoneSticks(items, rows, i + 1);
          return false;
        }
        users := users[user := u.(items := u.items[row.id := ItemRow(row.blob, u.items[row.id].version + 1)])];
        i := i + 1;
      }
      assert rows[..i] == rows;
      SameSize(users[user].items, items);
      return true;
    }
  }

  /** After an accepted rotation nothing obtained under the old password is left, and no other account is touched. */
  lemma RotationEndsOldAuthority(db: Db, authority: Authority, user: nat, r: PasswordRotation, other: nat)
    requires user in db.users && MasterPasswordRotated(db, authority, user, r).1
    ensures var db' := MasterPasswordRotated(db, authority, user, r).0;
            && (forall p :: p in db'.opaqueLogins ==> p.user != Some(user))
            && (forall p :: p in db'.srpLogins ==> p.user != user)
            && (forall p :: p in db'.recoveries ==> p.user != user)
            && (forall s :: s in db'.sessions && db'.sessions[s].user == user ==> authority == BySession(s))
            && (other != user ==>
                  && (forall p :: p in db.opaqueLogins && p.user == Some(other) ==> p in db'.opaqueLogins)
                  && (forall p :: p in db.srpLogins && p.user == other ==> p in db'.srpLogins)
                  && (forall p :: p in db.recoveries && p.user == other ==> p in db'.recoveries)
                  && (forall s :: s in db.sessions && db.sessions[s].user == other ==> s in db'.sessions && db'.sessions[s] == db.sessions[s])
                  && (other in db.users ==> other in db'.users && db'.users[other] == db.users[other]))
  {
  }

  lemma SameSize(a: map<nat, ItemRow>, b: map<nat, ItemRow>)
    requires a.Keys == b.Keys
    ensures |a| == |b|
  {
  }

  /** A batch fails once a part of it does. */
  lemma {:induction false} NoneSticks(items: map<nat, ItemRow>, rows: seq<ReencryptedItem>, k: nat)
    requires k <= |rows| && Reencrypted(items, rows[..k]).None?
    ensures Reencrypted(items, rows).None?
    decreases |rows|
  {
    if k == |rows| {
      assert rows[..k] == rows;
    } else {
      var init := rows[..|rows| - 1];
      assert init[..k] == rows[..k];
      NoneSticks(items, init, k);
    }
  }

  /** With distinct ids, as many rows as items that all match rewrite every item exactly once. */
  lemma {:induction false} ReencryptedAt(items: map<nat, ItemRow>, rows: seq<ReencryptedItem>, id: nat)
    requires DistinctItems(rows) && Reencrypted(items, rows).Some? && id in items
    ensures var done := Reencrypted(items, rows).value;
            done[id] == if exists i :: 0 <= i < |rows| && rows[i].id == id
                        then var i :| 0 <= i < |rows| && rows[i].id == id; ItemRow(rows[i].blob, items[id].version + 1)
                        else items[id]
  {
    if rows != [] {
      var n := |rows| - 1;
      var init := rows[..n];
      ReencryptedAt(items, init, id);
      if rows[n].id == id {
        assert forall i :: 0 <= i < n ==> init[i] == rows[i] && rows[i].id != id;
      } else if i :| 0 <= i < n && rows[i].id == id {
        assert init[i] == rows[i];
      } else {
        assert forall i :: 0 <= i < |rows| ==> rows[i].id != id;
      }
    }
  }

  /** A legacy rotation goes through only if it rewrites every item of the account, each once. */
  lemma LegacyRotationCoversAll(items: map<nat, ItemRow>, rows: seq<ReencryptedItem>)
    requires DistinctItems(rows)
    ensures RotatedItems(items, Some(rows)).Some? <==> Ids(rows) == items.Keys
    ensures RotatedItems(items, Some(rows)).Some? ==>
              forall i :: 0 <= i < |rows| ==>
                rows[i].id in items &&
                RotatedItems(items, Some(rows)).value[rows[i].id] == ItemRow(rows[i].blob, items[rows[i].id].version + 1)
  {
    var ids := Ids(rows);
    IdCount(rows);
    MatchesIff(items, rows);
    assert |items| == |items.Keys|;
    if Reencrypted(items, rows).Some? && |rows| == |items| {
      SubsetOfSameSize(ids, items.Keys);
      forall i | 0 <= i < |rows|
        ensures rows[i].id in items && Reencrypted(items, rows).value[rows[i].id] == ItemRow(rows[i].blob, items[rows[i].id].version + 1)
      {
        assert rows[i].id in ids;
        ReencryptedAt(items, rows, rows[i].id);
      }
    }
  }

  lemma {:induction false} MatchesIff(items: map<nat, ItemRow>, rows: seq<ReencryptedItem>)
    ensures Reencrypted(items, rows).Some? <==> forall i :: 0 <= i < |rows| ==> rows[i].id in items
  {
    if rows != [] {
      var n := |rows| - 1;
      var init := rows[..n];
      MatchesIff(items, init);
      assert forall i :: 0 <= i < n ==> init[i] == rows[i];
    }
  }

  function Ids(rows: seq<ReencryptedItem>): set<nat> {
    set row | row in rows :: row.id
  }

  lemma {:induction false} IdCount(rows: seq<ReencryptedItem>)
    requires DistinctItems(rows)
    ensures |Ids(rows)| == |rows|
  {
    if rows != [] {
      var n := |rows| - 1;
      var init := rows[..n];
      IdCount(init);
      assert rows == init + [rows[n]];
      assert Ids(rows) == Ids(init) + {rows[n].id};
      assert forall row :: row in init ==> exists i :: 0 <= i < n && rows[i] == row;
      assert rows[n].id !in Ids(init);
    }
  }

  lemma {:induction false} SubsetOfSameSize(a: set<nat>, b: set<nat>)
    requires a <= b && |a| == |b|
    ensures a == b
  {
    assert b == a + (b - a) && |b| == |a| + |b - a|;
  }
}
