/**
 * One device signing in and unlocking against an arbitrary server: the order
 * of its messages and of its local notes, and why it cannot be talked down to
 * SRP or to password-derived keys (packages/crypto/src/password-login.ts,
 * packages/crypto/src/account-key.ts, packages/crypto/src/account-state.ts).
 */
module AccountDevice {
  import opened Wrappers
  import opened IdealCrypto
  import opened AccountKeys
  import opened AccountServer
  import opened AccountHandshakes
  import opened AccountRuns

  /** The emails this device has seen on OPAQUE, and with a wrapped account key. */
  datatype Notes = Notes(onOpaque: set<string>, withKey: set<string>) {
    function SawOpaque(email: string): Notes {
      this.(onOpaque := onOpaque + {email})
    }

    function SawKey(email: string): Notes {
      this.(withKey := withKey + {email})
    }
  }

  /** What a server makes of one sign-in: anything. */
  datatype Answers = Answers(
    opaqueOpens: bool,
    opaqueSession: bool,
    srpVerified: bool,
    wrapped: Option<WrappedKey>,
    privateKey: Option<PrivateKeyBlob>,
    proofOpens: bool,
    migrationTaken: bool)

  datatype Message = OpaqueLogin | SrpLogin | Upgrade(migration: Migration) | Proof | SetKey(migration: Migration)

  /** The messages a sign-in sends, in order, and the account it opens, if any. */
  datatype SignIn = SignIn(sent: seq<Message>, account: Option<AccountKey>)

  /** How the session came about; None if it did not. */
  function LoggedIn(notes: Notes, email: string, s: Answers): (r: (seq<Message>, Option<bool>, Notes)) {
    if s.opaqueOpens then
      if s.opaqueSession then ([OpaqueLogin], Some(false), notes.SawOpaque(email)) else ([OpaqueLogin], None, notes)
    else if email in notes.onOpaque then ([OpaqueLogin], None, notes)
    else ([OpaqueLogin, SrpLogin], if s.srpVerified then Some(true) else None, notes)
  }

  /** The whole sign-in, and the notes it leaves. */
  function SignedIn(notes: Notes, email: string, password: string, s: Answers): (r: (SignIn, Notes)) {
    var (sent, overSrp, after) := LoggedIn(notes, email, s);
    if overSrp.None? then (SignIn(sent, None), after)
    else
      match UnlockAccount(LoginResponse(overSrp.value, s.wrapped, s.privateKey), password, email, email in after.withKey)
      case UnlockFailed => (SignIn(sent, None), after)
      case Unlocked(a) => (SignIn(sent, Some(a)), after.SawKey(email))
      case MustMigrate(m) =>
        var legacy := LegacySubkeys(password, email).account;
        if overSrp.value then
          if s.migrationTaken then (SignIn(sent + [Upgrade(m)], Some(legacy)), after.SawOpaque(email).SawKey(email))
          else (SignIn(sent + [Upgrade(m)], None), after)
        else if !s.proofOpens then (SignIn(sent + [Proof], None), after)
        else if s.migrationTaken then (SignIn(sent + [Proof, SetKey(m)], Some(legacy)), after.SawKey(email))
        else (SignIn(sent + [Proof, SetKey(m)], None), after)
  }

  class Device {
    var notes: Notes

    constructor ()
      ensures notes == Notes({}, {})
    {
      notes := Notes({}, {});
    }

    method Login(email: string, s: Answers) returns (sent: seq<Message>, overSrp: Option<bool>)
      modifies this
      ensures (sent, overSrp, notes) == LoggedIn(old(notes), email, s)
    {
      sent, overSrp := [OpaqueLogin], None;
      if s.opaqueOpens {
        if s.opaqueSession {
          notes := notes.SawOpaque(email);
          overSrp := Some(false);
        }
        return;
      }
      if email in notes.onOpaque {
        return;
      }
      sent := [OpaqueLogin, SrpLogin];
      if s.srpVerified {
        overSrp := Some(true);
      }
    }

    /** Notes are written only after the server answered; a failure opens nothing. */
    method SignInAndUnlock(email: string, password: string, s: Answers) returns (r: SignIn)
      modifies this
      ensures (r, notes) == SignedIn(old(notes), email, password, s)
    {
      var sent, overSrp := Login(email, s);
      r := SignIn(sent, None);
      if overSrp.None? {
        return;
      }
      if s.wrapped.Some? {
        var account := UnwrapAccountKey(s.wrapped.value, password, email);
        if account.Some? {
          notes := notes.SawKey(email);
          r := SignIn(sent, account);
        }
        return;
      }
      if email in notes.withKey {
        return;
      }
      var legacy := LegacySubkeys(password, email);
      var moved: Option<PrivateKeyBlob> := None;
      if s.privateKey.Some? {
        var priv := Open(s.privateKey.value, legacy.smk, ());
        if priv.None? {
          return;
        }
        moved := Some(SealPrivateKey(priv.value, AccountSmk(legacy.account)));
      }
      var m := Migration(WrapAccountKey(legacy.account, password, email), moved);
      if overSrp.value {
        r := SignIn(sent + [Upgrade(m)], None);
        if !s.migrationTaken {
          return;
        }
        notes := notes.SawOpaque(email).SawKey(email);
      } else {
        r := SignIn(sent + [Proof], None);
        if !s.proofOpens {
          return;
        }
        r := SignIn(sent + [Proof, SetKey(m)], None);
        if !s.migrationTaken {
          return;
        }
        notes := notes.SawKey(email);
      }
      r := r.(account := Some(legacy.account));
    }
  }

  // ── Every sequence of sign-ins, against any server ─────────────────────────

  datatype Attempt = Attempt(email: string, password: string, answers: Answers)

  /** The device's notes before attempt `n`. */
  function NotesAt(notes: Notes, run: seq<Attempt>, n: nat): Notes
    requires n <= |run|
  {
    if n == 0 then notes
    else SignedIn(NotesAt(notes, run, n - 1), run[n - 1].email, run[n - 1].password, run[n - 1].answers).1
  }

  function ResultAt(notes: Notes, run: seq<Attempt>, i: nat): SignIn
    requires i < |run|
  {
    SignedIn(NotesAt(notes, run, i), run[i].email, run[i].password, run[i].answers).0
  }

  lemma {:induction false} NotesOnlyGrow(notes: Notes, run: seq<Attempt>, i: nat, j: nat)
    requires i <= j <= |run|
    ensures NotesAt(notes, run, i).onOpaque <= NotesAt(notes, run, j).onOpaque
    ensures NotesAt(notes, run, i).withKey <= NotesAt(notes, run, j).withKey
    decreases j
  {
    hide UnlockAccount;
    if i < j {
      NotesOnlyGrow(notes, run, i, j - 1);
    }
  }

  /** The served wrap, opened with the typed password. */
  predicate FromServedWrap(a: Attempt, account: AccountKey) {
    a.answers.wrapped.Some? && UnwrapAccountKey(a.answers.wrapped.value, a.password, a.email) == Some(account)
  }

  /**
   * Once a device has opened an account, whatever the server answers later: it
   * opens the account only from a wrap sealed under the password typed, and
   * never sends password-derived keys again.
   */
  lemma NoLegacyKeysAgain(notes: Notes, run: seq<Attempt>, i: nat, j: nat)
    requires i < j < |run| && run[i].email == run[j].email && ResultAt(notes, run, i).account.Some?
    ensures var r := ResultAt(notes, run, j);
            && (r.account.Some? ==> FromServedWrap(run[j], r.account.value))
            && (forall m :: Upgrade(m) !in r.sent && SetKey(m) !in r.sent)
  {
    assert run[i].email in NotesAt(notes, run, i + 1).withKey;
    NotesOnlyGrow(notes, run, i + 1, j);
  }

  /** The account was seen on OPAQUE by attempt `i`: an OPAQUE session, or an accepted upgrade. */
  ghost predicate SeenOnOpaque(notes: Notes, run: seq<Attempt>, i: nat)
    requires i < |run|
  {
    var s := run[i].answers;
    (s.opaqueOpens && s.opaqueSession) ||
    (ResultAt(notes, run, i).account.Some? && exists m :: Upgrade(m) in ResultAt(notes, run, i).sent)
  }

  /** After that the device never falls back to SRP. */
  lemma NoSrpAgain(notes: Notes, run: seq<Attempt>, i: nat, j: nat)
    requires i < j < |run| && run[i].email == run[j].email && SeenOnOpaque(notes, run, i)
    ensures SrpLogin !in ResultAt(notes, run, j).sent
  {
    assert run[i].email in NotesAt(notes, run, i + 1).onOpaque by {
      hide UnlockAccount;
    }
    NotesOnlyGrow(notes, run, i + 1, j);
    hide UnlockAccount;
  }

  // ── With an honest server ──────────────────────────────────────────────────

  /** What a server that holds row `u` answers, taking what it is sent. */
  function HonestAnswers(u: User, password: string): Answers {
    var overOpaque := u.opaqueRecord.Some? && u.opaqueRecord.value.password == password;
    Answers(overOpaque, overOpaque, u.srp.Some? && u.srp.value.password == password, u.wrapped, u.privateKey, overOpaque, true)
  }

  /** A device without contrary notes signs in to a healthy account with its password: it opens the vault keys and notes both facts. */
  lemma PasswordOpens(notes: Notes, u: User, email: string, pair: AccountKey)
    requires KeysFit(u, email, pair)
    requires (u.wrapped.None? ==> email !in notes.withKey) && (u.srp.Some? ==> email !in notes.onOpaque)
    ensures var password := CurrentPassword(u);
            var m := Migration(WrapAccountKey(pair, password, email),
                               if u.privateKey.None? then None else Some(SealPrivateKey(u.privateKey.value.plain, AccountSmk(pair))));
            var (r, after) := SignedIn(notes, email, password, HonestAnswers(u, password));
            && r == SignIn(if u.srp.Some? then [OpaqueLogin, SrpLogin, Upgrade(m)]
                           else if u.wrapped.Some? then [OpaqueLogin] else [OpaqueLogin, Proof, SetKey(m)], Some(pair))
            && after == notes.SawOpaque(email).SawKey(email)
  {
    HealthyUnlocks(u, email, pair, CurrentPassword(u), email in notes.withKey);
    hide UnlockAccount, KitFits;
    assert [OpaqueLogin] + [Proof, SetKey(Migration(WrapAccountKey(pair, CurrentPassword(u), email), None))] ==
           [OpaqueLogin, Proof, SetKey(Migration(WrapAccountKey(pair, CurrentPassword(u), email), None))];
  }

  /** With any other password it opens nothing, and its notes stay as they are. */
  lemma WrongPasswordOpensNothing(notes: Notes, u: User, email: string, pair: AccountKey, password: string)
    requires KeysFit(u, email, pair) && password != CurrentPassword(u)
    ensures var (r, after) := SignedIn(notes, email, password, HonestAnswers(u, password));
            r.account.None? && after == notes && r.sent <= [OpaqueLogin, SrpLogin]
  {
    hide UnlockAccount, KitFits;
  }
}
