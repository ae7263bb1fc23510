/**
 * The account-key hierarchy: what a client derives from a password or a
 * recovery code, and the blobs it makes and opens
 * (packages/crypto/src/account-key.ts, packages/crypto/src/recovery.ts,
 * packages/crypto/src/account-recovery.ts, packages/crypto/src/password-change.ts).
 * Emails are already lower-cased; a key is the term it was derived as.
 */
module AccountKeys {
  import opened Wrappers
  import opened IdealCrypto

  /** HKDF info strings. */
  datatype Label = LegacySmkLabel | LegacyEncLabel | LegacyMacLabel | KekLabel | AccountSmkLabel | RecoveryAuthLabel | RecoveryWrapLabel

  datatype Key =
    | Master(password: string, email: string)
    | RecoveryMaster(code: string, email: string)
    | Hkdf(from: Key, info: Label)
    | Blocks(blocks: seq<Key>)

  /** The vault keys every item is encrypted under. */
  datatype AccountKey = AccountKey(enc: Key, mac: Key)

  datatype Subkeys = Subkeys(smk: Key, account: AccountKey)

  /** enc ‖ mac under the password's KEK, bound to the account's email. */
  type WrappedKey = Sealed<Key, string, seq<Key>>

  /** The RSA private key under some smk. */
  type PrivateKeyBlob = Sealed<Key, (), PrivateKey>

  /** smk ‖ enc ‖ mac under a recovery code's wrap key. */
  type KitBlob = Sealed<Key, (), seq<Key>>

  function Kek(password: string, email: string): Key {
    Hkdf(Master(password, email), KekLabel)
  }

  /** The subkeys accounts derived straight from the password before the account key existed. */
  function LegacySubkeys(password: string, email: string): Subkeys {
    var m := Master(password, email);
    Subkeys(Hkdf(m, LegacySmkLabel), AccountKey(Hkdf(m, LegacyEncLabel), Hkdf(m, LegacyMacLabel)))
  }

  function AccountSmk(a: AccountKey): Key {
    Hkdf(Blocks([a.enc, a.mac]), AccountSmkLabel)
  }

  function WrapAccountKey(a: AccountKey, password: string, email: string): WrappedKey {
    Sealed(Kek(password, email), email, [a.enc, a.mac])
  }

  function UnwrapAccountKey(w: WrappedKey, password: string, email: string): Option<AccountKey> {
    match Open(w, Kek(password, email), email)
    case None => None
    case Some(plain) => if |plain| < 2 then None else Some(AccountKey(plain[0], plain[1]))
  }

  /** A wrap opens to what was wrapped, for its own password and email only. */
  lemma WrapRoundTrip(a: AccountKey, password: string, email: string, otherPassword: string, otherEmail: string)
    ensures UnwrapAccountKey(WrapAccountKey(a, password, email), otherPassword, otherEmail) ==
            if otherPassword == password && otherEmail == email then Some(a) else None
  {
  }

  function RecoveryAuth(code: string, email: string): Key {
    Hkdf(RecoveryMaster(code, email), RecoveryAuthLabel)
  }

  function RecoveryWrapKey(code: string, email: string): Key {
    Hkdf(RecoveryMaster(code, email), RecoveryWrapLabel)
  }

  function WrapVaultSubkeys(s: Subkeys, code: string, email: string): KitBlob {
    Sealed(RecoveryWrapKey(code, email), (), [s.smk, s.account.enc, s.account.mac])
  }

  function UnwrapVaultSubkeys(k: KitBlob, code: string, email: string): Option<Subkeys> {
    match Open(k, RecoveryWrapKey(code, email), ())
    case None => None
    case Some(plain) => if |plain| != 3 then None else Some(Subkeys(plain[0], AccountKey(plain[1], plain[2])))
  }

  lemma KitRoundTrip(s: Subkeys, code: string, email: string, otherCode: string)
    ensures UnwrapVaultSubkeys(WrapVaultSubkeys(s, code, email), otherCode, email) == if otherCode == code then Some(s) else None
  {
  }

  function SealPrivateKey(priv: PrivateKey, smk: Key): PrivateKeyBlob {
    Sealed(smk, (), priv)
  }

  /** With the account-key smk, or with the kit's smk for an account that had not migrated. */
  function OpenPrivateKey(blob: PrivateKeyBlob, smk: Key, kitSmk: Key): Option<PrivateKey> {
    if Open(blob, smk, ()).Some? then Open(blob, smk, ()) else Open(blob, kitSmk, ())
  }

  // ── What clients send ──────────────────────────────────────────────────────

  /** What a login returns, as far as keys go. */
  datatype LoginResponse = LoginResponse(overSrp: bool, wrapped: Option<WrappedKey>, privateKey: Option<PrivateKeyBlob>)

  /** A client's first-unlock migration: the legacy keys wrapped, the private key moved to the account smk. */
  datatype Migration = Migration(wrapped: WrappedKey, privateKey: Option<PrivateKeyBlob>)

  datatype Unlock =
    | Unlocked(account: AccountKey)
    | MustMigrate(migration: Migration)
    | UnlockFailed

  /** unlockAccount up to its requests; `knownMigrated` is what this device remembers of the account. */
  function UnlockAccount(r: LoginResponse, password: string, email: string, knownMigrated: bool): Unlock {
    if r.wrapped.Some? then
      match UnwrapAccountKey(r.wrapped.value, password, email)
      case None => UnlockFailed
      case Some(a) => Unlocked(a)
    else if knownMigrated then UnlockFailed
    else
      var legacy := LegacySubkeys(password, email);
      var wrapped := WrapAccountKey(legacy.account, password, email);
      if r.privateKey.None? then MustMigrate(Migration(wrapped, None))
      else match Open(r.privateKey.value, legacy.smk, ())
        case None => UnlockFailed
        case Some(priv) => MustMigrate(Migration(wrapped, Some(SealPrivateKey(priv, AccountSmk(legacy.account)))))
  }

  /** changeMasterPassword: the account key re-wrapped under the new password. */
  function RewrapForPassword(wrapped: WrappedKey, oldPassword: string, newPassword: string, email: string): Option<WrappedKey> {
    match UnwrapAccountKey(wrapped, oldPassword, email)
    case None => None
    case Some(a) => Some(WrapAccountKey(a, newPassword, email))
  }

  /** What recovery init hands to whoever presents the kit's auth key. */
  datatype RecoveryInit = RecoveryInit(token: nat, kit: KitBlob, privateKey: Option<PrivateKeyBlob>)

  datatype RecoveryRequest = RecoveryRequest(wrapped: WrappedKey, privateKey: Option<PrivateKeyBlob>, kitAuth: Key, kit: KitBlob)

  /** completeAccountRecovery: everything re-wrapped under the new password, and a replacement kit. */
  function CompleteRecovery(init: RecoveryInit, code: string, newPassword: string, newCode: string, email: string)
    : Option<RecoveryRequest>
  {
    match UnwrapVaultSubkeys(init.kit, code, email)
    case None => None
    case Some(recovered) =>
      var smk := AccountSmk(recovered.account);
      var wrapped := WrapAccountKey(recovered.account, newPassword, email);
      var kit := WrapVaultSubkeys(Subkeys(smk, recovered.account), newCode, email);
      if init.privateKey.None? then Some(RecoveryRequest(wrapped, None, RecoveryAuth(newCode, email), kit))
      else match OpenPrivateKey(init.privateKey.value, smk, recovered.smk)
        case None => None
        case Some(priv) =>
          Some(RecoveryRequest(wrapped, Some(SealPrivateKey(priv, smk)), RecoveryAuth(newCode, email), kit))
  }
}
