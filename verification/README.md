# nopwd protocol proofs

nopwd is a zero-knowledge vault: the server keeps ciphertexts, signed key wraps
and counters it cannot read or forge, and clients decide what to trust. This
project models the state machines in which several parties have to keep
agreeing, and proves that they do, over every run and against every input.

- **Organisation keys** (`Identity`, `OrgServer`, `OrgGraph`, `OrgAuthority`,
  `OrgTrust`, `OrgConfirm`, `OrgPlans`, `OrgRotation`, `OrgRekey`, `OrgItems`,
  `OrgAgreement`, `OrgLimits`): the client builds a key rotation, the server
  applies it or changes nothing, serves signed wrap chains, and clients verify
  them under pins, epoch marks and a local ledger; and who may change a
  membership at all.
- **Account keys** (`AccountKeys`, `AccountServer`, `AccountHandshakes`,
  `AccountWrites`, `AccountSessions`, `AccountAuthority`, `AccountRuns`,
  `AccountStore`, `AccountDevice`): password, wrapped account key, private-key
  wrap and recovery kit through first-unlock migration, SRP upgrade, password
  change and recovery, with the pending-handshake tables; and what stands behind
  every session, token and change.
- **Item envelopes** (`ItemEnvelope`, `RollbackSafety`, `LegacyUpgrade`,
  `VaultTable`, `VaultDevices`, `VaultProgress`): canonical associated data,
  revision marks against any server, no false alarms and no lost progress with
  an honest one.
- **Login throttle** (`Throttle`, `ThrottleRate`, `ThrottleLaws`,
  `ThrottleIsolation`): the backoff law, rate bounds and when they are reached,
  and non-interference for trusted networks.
- **Arithmetic and codecs** (`Srp`, `SyncMerge`, `SyncDelivery`, `Cbor`, `Der`,
  `Dotenv`, `DotenvValues`, `Adopt`, with `Arithmetic`, `Bytes`, `Utf8`, `Rows`
  below them).

`dafny verify dfyconfig.toml` checks everything.

## Modelling decisions

- Cryptography is ideal (`IdealCrypto`): a ciphertext or signature is the tuple
  of what went into it, and a derived key is the term it was derived as. It
  opens or verifies with the matching key and data and with nothing else.
  Nonces, key sizes and base64 carry no meaning. An OPAQUE or SRP message stands
  for the password its sender typed; hashes and randomness are parameters.
- Each server handler is one atomic step and a failed transaction puts back what
  it changed. The code locks rows in `invite_member`, `rotate_key` and
  `rotate_master_password`; some other handlers are several statements.
- Time is whole seconds from one clock. Pending rows are kept in order of
  insertion, which is the order of `created_at` under such a clock.
- Ids that the server or a client draws at random are fresh: a request that
  draws an id already issued does nothing.
- A new organisation starts at epoch 1, as the column default says.
- Strings are sequences of Unicode scalar values, UUIDs are their 16 bytes,
  emails are already lower-cased, and `toLowerCase` and `toEnvKey` are parameters.
- An organisation's items may change in any way between two requests
  (`ChangeItems`); what a rotation has to cover is what is there when it arrives.
- All user rows carry the keyed email hash. A user's organisation items are
  listed in table order.

## Where a promise needs a condition

Each of these is a promise that the code meets only under a condition. The
members named give the condition, in both directions where the text says "if and
only if", and then a concrete run or input outside it; where one member carries
both sides it stands alone.

- Recovery without a wrapped account key keeps a migrated account usable if and
  only if the password stays the same (`AccountRuns.RecoveryWithoutWrapLocksOut`).
- `create_org` stores any epoch the client names, so signed rows are at the
  current epoch throughout a run if and only if every creation the server accepts
  in it signs epoch 1 (`OrgGraph.EpochsCurrentThroughout`, `OrgGraph.WrongFirstEpochBreaksRule`).
- A served chain passes the client's structural checks if and only if its
  length is at most 16 and every row on it is signed
  (`OrgGraph.EveryRunServesChains`; sixteen nested invitations
  `OrgLimits.NestedInvitationsHitTheLimit`, a creation without a signature
  `OrgLimits.UnsignedCreationIsRefused`).
- A plan is answered `Rotated` if and only if the kept item ids are distinct: ids
  are unique per user only, so two users' rows may share one
  (`OrgRotation.PlanIsAccepted`, `OrgLimits.SharedIdIsRefused`).
- A v1 blob is accepted if and only if it opens, the store is not v2-only and the
  item's mark is at most 0; so never for an item seen as v2, except at revision 0,
  which clients do not write (`RollbackSafety.LegacyAcceptedIff`,
  `RollbackSafety.NoLegacyAfterV2`, `RollbackSafety.RevisionZeroLeavesLegacyOpen`).
- `modPow` is the power if and only if it is not asked for a zeroth power modulo
  1 (`Srp.ModPowIsPower`).
- Adopting a secret under a valid name keeps the line parseable if and only if
  the name has no U+2028 or U+2029 (`Adopt.AdoptRoundTrip`, `Adopt.SeparatorNameBreaks`).
- Every event is delivered exactly once if devices push above their own highest
  number; one pushed at or below what its reader has passed never is
  (`SyncDelivery.DeliveredExactlyOnce`, `SyncDelivery.BelowClockIsNeverDelivered`).
- A CBOR encoding can be read back if and only if its integers and lengths are
  below 2^32 (`Cbor.ReadableIff`, `Cbor.AmbiguousBeyondLimit`).
- A reference to a login item's own field gives that field, unless it is empty or a
  custom field maps to the same variable name (`DotenvValues.FieldResolves`).
- A network's answers depend on nobody else while it stays trusted; one that is
  not trusted can be locked out by others (`ThrottleIsolation.TrustedNetworkIsIsolated`,
  `ThrottleIsolation.UntrustedNetworkIsNot`).

- Each lock doubles the one before, up to the maximum, if and only if the exponent
  is not yet cut off at 30 or the maximum is reached
  (`ThrottleLaws.LocksDouble`); under the deployed policies it always is.
- The rate bound free + D + W/max is reached if and only if the locks up to that
  count fit into the window (`ThrottleLaws.BoundIsReachedIff`); under the deployed
  policies it never is, and one attempt fewer is in every window that holds the
  doubling locks and then full ones (`ThrottleLaws.DeployedBoundIsOneTooMany`).
- Pinning the signers a client is asked to confirm makes the key usable if and only
  if the server shows one identity per signer (`OrgConfirm.ConfirmedIsUsable`).
- A plan with nothing missing and every item readable is built if and only if every
  remaining member is confirmed (`OrgPlans.PlanIsMade`).

The rate bound is stated for policies with at least one free attempt, as both
deployed policies have (`ThrottleRate.DeployedBounds`).

## Model

| member | source | states |
|---|---|---|
| `AccountRuns.KeysSurviveEveryRun` | packages/crypto/src/account-key.ts:203-269 | In every run of requests from anyone, where what carries the user's session or recovery token is built as the client code builds it from any earlier (possibly stale) answer: the stored credential and kit are those of the last accepted write (and those at the start if there was none); the vault keys never change, the stored wrap opens to them under that credential's password, and that kit opens to them under the one code it was registered with; the private key stays the same, under the account smk once migrated (the legacy smk before); and items change only by item writes |
| `AccountRuns.RequestStep` | crates/nopass-api/src/db/recovery.rs:134-257 | One request of any kind keeps a healthy row healthy, leaves exactly the kit and credential it writes and otherwise those that were there, and changes no item blob unless it is an item write |
| `AccountWrites.WritesLand` | crates/nopass-api/src/db/recovery.rs:162-200 | Whoever sends it: a request stores the kit and credential it is entitled to write, and a password change, upgrade or migration leaves the kit alone |
| `AccountWrites.StoredIsLatest` | crates/nopass-api/src/routes/password.rs:28-35 | In every run, whoever takes part, the stored kit and credential are those written last |
| `AccountWrites.LatestKitIsLastWritten` | crates/nopass-api/src/db/recovery.rs:115-117 | The latest kit is the one a request wrote if none wrote one after it, and the first one if none wrote any |
| `AccountRuns.MigrationFits` | packages/crypto/src/account-key.ts:229-252 | A first-unlock migration or SRP upgrade that the server accepts wraps exactly the keys the items are under, and moves the same private key to the account smk |
| `AccountRuns.PasswordChangeFits` | packages/crypto/src/password-change.ts:64-77 | A password change from any earlier start leaves the same keys behind the new password |
| `AccountRuns.RecoveryFits` | packages/crypto/src/account-recovery.ts:43-97 | A recovery from any earlier init leaves the same keys behind the new password and the replacement kit, and the same private key behind the account smk |
| `AccountRuns.NewKitFits` | crates/nopass-api/src/db/recovery.rs:23-74 | A kit made by a client that opened the account from any earlier answer holds the account's keys; removing the kit is harmless |
| `AccountRuns.KeyPairFits` | crates/nopass-api/src/routes/orgs.rs:45-91 | Creating an organisation never replaces a stored private key, and one stored for the first time opens under the account smk |
| `AccountRuns.RegisteredFits` | packages/ui/src/components/UnlockScreen.tsx:223-252 | A new account satisfies the invariant with its password's legacy keys |
| `AccountRuns.HealthyUnlocks` | packages/crypto/src/account-key.ts:203-269 | A healthy account unlocks to its keys with the current password, or first wraps exactly those; with any other password a migrated account does not open |
| `AccountRuns.HealthyRecovers` | packages/crypto/src/account-recovery.ts:29-97 | A healthy account's kit is recovered by its code and by no other, to the same keys and private key under any new password |
| `AccountRuns.RecoveryWithoutWrapLocksOut` | crates/nopass-api/src/routes/recovery.rs:222-250 | After a recovery that sends no wrapped key, a migrated account opens with its new password if and only if that is the old one |
| `AccountDevice.Device.Login` | packages/crypto/src/password-login.ts:109-148 | OPAQUE first, noted once a session is issued; SRP only for an account never seen on OPAQUE |
| `AccountDevice.Device.SignInAndUnlock` | packages/crypto/src/account-key.ts:203-269 | The messages of a sign-in and unlock in order, the account opened, and the notes, which are written only after the server answered |
| `AccountDevice.NoLegacyKeysAgain` | packages/crypto/src/account-key.ts:215-231 | Against any server, once a device has opened an account it opens it only from a served wrap under the password typed, and never sends password-derived keys again |
| `AccountDevice.NoSrpAgain` | packages/crypto/src/password-login.ts:125-135 | Against any server, once a device has seen an account on OPAQUE it never falls back to SRP |
| `AccountDevice.PasswordOpens` | packages/crypto/src/account-key.ts:203-269 | With an honest server and a healthy account, the current password opens the vault keys, with exactly the messages the account's state calls for, and both facts are noted |
| `AccountDevice.WrongPasswordOpensNothing` | packages/crypto/src/password-login.ts:109-148 | With any other password nothing opens, no key is sent and the notes stay |
| `AccountKeys.WrapRoundTrip` | packages/crypto/src/account-key.ts:105-143 | A wrapped account key opens for its own password and email and for no other |
| `AccountKeys.KitRoundTrip` | packages/crypto/src/recovery.ts:126-156 | A kit opens to the three subkeys it was made from, in their places, for its own code only |
| `AccountHandshakes.HandshakeDiscipline` | crates/nopass-api/src/routes/proof.rs:58-125 | In every run with any clients, each OPAQUE login and each accepted password proof redeems a start made earlier in the run for the same user and purpose, unexpired, with the right password, computed from the record the account still has, and redeemed by no other request; whose session it then opens is `EverySessionIsEarned`, and that it is redeemed at all `LiveStartLogsIn` |
| `AccountHandshakes.EveryRunIsCurrent` | crates/nopass-api/src/db/auth.rs:89-142 | In every run each account has exactly one of SRP verifier and OPAQUE record, each account has at most 5 pending starts of either kind, and every pending start was computed from the current credential |
| `AccountHandshakes.HandleKeeps` | crates/nopass-api/src/routes/auth.rs:291-364 | Every request keeps that invariant |
| `AccountHandshakes.RedemptionIsCurrent` | crates/nopass-api/src/routes/auth.rs:335-364 | A redemption matches a pending row of the right purpose whose record is the account's, and uses the row up; the session or change it buys is the row's user's (`NewSessionIsEarned`, `RowChangeIsAuthorised`) |
| `AccountHandshakes.SpentStaysSpent` | crates/nopass-api/src/db/pending.rs:65-74 | An id once redeemed is never pending again |
| `AccountHandshakes.SwapKeeps` | crates/nopass-api/src/db/auth.rs:130-142 | A credential may change because the user's pending logins are dropped with it |
| `AccountSessions.EverySessionIsEarned` | crates/nopass-api/src/routes/auth.rs:335-484 | In every run a session that was not there at the start belongs to the user of a live OPAQUE login or SRP start, finished within five minutes with the password the account had then, by a request with that session number and at that time |
| `AccountSessions.NewSessionIsEarned` | crates/nopass-api/src/routes/auth.rs:335-364 | One request opens a session only that way |
| `AccountSessions.LiveStartLogsIn` | crates/nopass-api/src/routes/auth.rs:335-364 | The converse: every live, current, unexpired login start, finished with its password under a fresh session number, opens exactly that user's session |
| `AccountSessions.LiveSrpStartLogsIn` | crates/nopass-api/src/routes/auth.rs:438-484 | and so does every live SRP start |
| `AccountSessions.PasswordLogsIn` | crates/nopass-api/src/routes/auth.rs:291-364 | From any reachable state, a start and a finish with the account's password log its user in |
| `AccountAuthority.VerifierLogsIn` | crates/nopass-api/src/routes/auth.rs:380-484 | and over SRP for an account that still has a verifier |
| `AccountAuthority.RegisteredLogsIn` | crates/nopass-api/src/routes/auth.rs:246-287 | A new account holds what was registered, no other account changes, and its password logs in at once |
| `AccountAuthority.EveryChangeIsAuthorised` | crates/nopass-api/src/routes/recovery.rs:182-282 | In every run that starts with nobody signed in, behind every change of an account's row stands an earlier sign-in with the password the account had then, under the session number the request carries, or an earlier recovery start with the auth key of the kit the account still has |
| `AccountAuthority.RowChangeIsAuthorised` | crates/nopass-api/src/routes/proof.rs:30-56 | One request changes a row only under a session or recovery token of that row's own user |
| `AccountAuthority.SignOutIsFinal` | crates/nopass-api/src/routes/auth.rs:661-667 | Signing out ends exactly that session, and in no later run does it open again |
| `AccountAuthority.OnlyActingSessionStays` | crates/nopass-api/src/db/recovery.rs:235-253 | After a password change or upgrade the user has the acting session and no other; other users keep all of theirs |
| `AccountAuthority.StartsLookAlike` | crates/nopass-api/src/routes/auth.rs:289-333 | A login start leaves a row of the same shape for every account key, known or not |
| `AccountAuthority.FakeStartOpensNothing` | crates/nopass-api/src/routes/auth.rs:335-364 | and without a record no password finishes it |
| `AccountAuthority.ProofStartIff` | crates/nopass-api/src/routes/proof.rs:58-99 | A proof start leaves a pending row of its purpose if and only if the session's user logs in over OPAQUE and, for a password change, has a wrapped key and a session of at most fifteen minutes; otherwise nothing changes |
| `AccountAuthority.OneGuessPerStart` | crates/nopass-api/src/db/pending.rs:65-74 | Right or wrong, a finish of any kind leaves no pending row under the id it named |
| `AccountSessions.PruneIsExact` | crates/nopass-api/src/db/pending.rs:168-182 | The sweep deletes exactly the handshakes and tokens past their time |
| `AccountSessions.ProvenMigrationIsStored` | crates/nopass-api/src/routes/auth.rs:641-659 | A proven first-unlock migration of a row without a wrap leaves exactly that wrap and the private key it brings; a row with one is left alone |
| `AccountSessions.ProvenUpgradeIsStored` | crates/nopass-api/src/db/auth.rs:89-128 | A proven SRP upgrade leaves record and wrap, and no verifier |
| `AccountSessions.ProvenChangeIsStored` | crates/nopass-api/src/routes/password.rs:77-118 | A proven password change leaves exactly the new record and wrap |
| `AccountSessions.ItemWriteLands` | crates/nopass-api/src/db/vaults.rs:76-131 | An item write lands under the session's user at the next version and touches nothing else |
| `AccountSessions.EveryTokenIsGiven` | crates/nopass-api/src/routes/recovery.rs:103-143 | In every run a live recovery token was given to a request that presented the auth key of the kit still stored |
| `AccountSessions.RecoveryIsAuthorised` | crates/nopass-api/src/routes/recovery.rs:145-282 | So every recovery that goes through was started at most ten minutes before with the auth key of the kit it replaces |
| `AccountSessions.KitWriteEndsTokens` | crates/nopass-api/src/db/recovery.rs:23-74 | A new, removed or replaced kit ends the tokens of the old one |
| `AccountSessions.RightAuthGetsToken` | crates/nopass-api/src/routes/recovery.rs:103-143 | Whoever presents the stored auth key gets a token |
| `Rows.CountTrimmed` | crates/nopass-api/src/db/pending.rs:48-60 | The trim leaves the newest five rows of the account, or all if there are fewer |
| `Rows.CountTrimmedOther` | crates/nopass-api/src/db/pending.rs:48-60 | and no count of another account grows |
| `AccountStore.Accounts.RotateMasterPassword` | crates/nopass-api/src/db/recovery.rs:134-257 | All or nothing: the new state is the specified rotation, or everything is as before; the token error comes exactly when the token is gone |
| `AccountStore.Accounts.Reencrypt` | crates/nopass-api/src/db/recovery.rs:202-222 | The item loop applies the batch in order and fails at the first row that is not the user's |
| `AccountStore.LegacyRotationCoversAll` | crates/nopass-api/src/db/recovery.rs:202-233 | With distinct ids a re-encrypting rotation passes if and only if it names exactly the account's items, and then each gets its new blob and one higher version |
| `AccountStore.RotationEndsOldAuthority` | crates/nopass-api/src/db/recovery.rs:235-253 | After a rotation no handshake, recovery token or session of the user is left but the acting session; other accounts keep all of theirs |
| `AccountStore.Accounts.CompleteSrpUpgrade` | crates/nopass-api/src/db/auth.rs:89-128 | The whole state after the upgrade, or false and no change without a verifier |
| `AccountStore.Accounts.SetAccountKey` | crates/nopass-api/src/db/auth.rs:147-171 | Stores a wrap once; false and no change if there is one |
| `AccountStore.Accounts.SetKit` | crates/nopass-api/src/db/recovery.rs:23-74 | A new or removed kit ends the tokens of the old one |
| `AccountStore.Accounts.InsertOpaqueLogin` | crates/nopass-api/src/db/pending.rs:29-63 | Insert and trim, as one new state |
| `AccountStore.Accounts.TakeOpaqueLogin` | crates/nopass-api/src/db/pending.rs:65-74 | Returns the row and removes it, so a second take finds nothing |
| `AccountStore.Accounts.DropLogins` | crates/nopass-api/src/db/auth.rs:132-142 | Exactly the user's pending logins of both kinds go |
| `Identity.VerifyOrgKeyChain` | packages/crypto/src/identity.ts:294-351 | The loop returns the first problem in chain order, or the unconfirmed signers, or the wrap |
| `Identity.VerdictIsTrust` | packages/crypto/src/identity.ts:294-351 | A chain is accepted if and only if it is trusted (one org and epoch, starts at this user, only the last link self-signed and an owner's, each earlier signer the next link's recipient with role owner or admin, every signature and bundle under a pinned identity, at most 16 links) and its epoch is not below the recorded one |
| `Identity.AcceptedKeyIsDelegated` | packages/crypto/src/identity.ts:294-351 | Whatever server: if pinned identities sign only wraps they issued, an accepted key was issued through a chain of such issues that starts with an owner |
| `Identity.PinnedKeyIsSignedByPin` | packages/crypto/src/identity.ts:186-205 | For a pinned user a bundle is accepted if and only if the pinned identity signed this very key for this user |
| `Identity.FirstSeenIff` | packages/crypto/src/identity.ts:186-205 | Without a pin a bundle is accepted, as first seen, if and only if the identity it carries signed it |
| `Identity.PinChangedIff` | packages/crypto/src/identity.ts:186-205 | A changed pin is reported if and only if the bundle is properly signed by another identity than the pinned one |
| `Identity.RollbackIff` | packages/crypto/src/identity.ts:294-351 | A rollback is reported if and only if the recorded epoch is higher and without it only confirmation would have stood in the way |
| `Identity.WrapMessageInjective` | packages/crypto/src/identity.ts:231-248 | The signed bytes determine all six fields of a wrap |
| `Identity.WrapIsNeverBundle` | packages/crypto/src/identity.ts:104-106 | No wrap message equals a bundle message |
| `OrgTrust.TrustStores.ConfirmKey` | packages/crypto/src/identity.ts:208-211 | Pins a verified first-seen key; no pin is ever replaced |
| `OrgTrust.TrustStores.RecordEpoch` | packages/ui/src/lib/local-trust-state.ts:145-156 | The mark is raised or left |
| `OrgTrust.TrustStores.OpenOrgKey` | packages/ui/src/lib/org-trust.ts:68-80 | Opens only a usable chain, and records its epoch only once the key opened |
| `OrgTrust.AcceptedEpochsNeverDecrease` | packages/ui/src/lib/org-trust.ts:68-80 | Over any sequence of openings against any server, the epochs accepted for an organisation never decrease |
| `OrgConfirm.CheckMeans` | packages/ui/src/lib/org-trust.ts:35-62 | An own wrap without a signature is reported as such, and offered for re-signing to owners only; a key is usable if and only if its chain is trusted and no rollback |
| `OrgConfirm.ConfirmedIsUsable` | packages/ui/src/lib/org-trust.ts:35-62 | The signers to confirm are unpinned and named once each; pinning exactly them makes the key usable if and only if the server shows one identity per signer |
| `OrgTrust.BuildResignedWraps` | packages/ui/src/lib/org-trust.ts:99-160 | One signed wrap per member with a confirmed key, the rest skipped, in order |
| `OrgPlans.WrapsExactlyConfirmed` | packages/ui/src/lib/org-trust.ts:99-160 | The wraps are those of the confirmed members (the owner, or signed by the identity pinned for them), of all of them, and exactly the others are skipped |
| `OrgPlans.PlanIsMade` | packages/ui/src/lib/org-trust.ts:249-307 | With nothing known missing and every kept item movable, a plan is built if and only if every remaining member is confirmed |
| `OrgPlans.RefusalNamesCause` | packages/ui/src/lib/org-trust.ts:249-307 | A refusal names exactly the missing items and members, the unconfirmed members, or the items that do not open |
| `OrgTrust.BuildRotation` | packages/ui/src/lib/org-trust.ts:249-307 | The plan, or the first of the refusals in the code's order; the store in every case: untouched if a list is incomplete or a member is unconfirmed, otherwise as the item loop leaves it, up to a throw |
| `OrgTrust.OnlyReadMarksRise` | packages/ui/src/lib/org-trust.ts:273-297 | Reading for a rotation only raises marks, and only those of listed items that are not dropped |
| `OrgTrust.ReencryptItems` | packages/ui/src/lib/org-trust.ts:273-297 | The item loop of a rotation, read through the revision store |
| `OrgTrust.OrgLedger.Remember` | packages/ui/src/lib/local-trust-state.ts:169-188 | The entry becomes the union with what was seen |
| `OrgTrust.OrgLedger.Forget` | packages/ui/src/lib/local-trust-state.ts:169-188 | The entry loses exactly what went |
| `OrgTrust.OrgLedger.CommitRotation` | packages/ui/src/components/OrgPanel.tsx:534-553 | The ledger entry after a committed rotation; other organisations' entries stay |
| `OrgRotation.PlanIsAccepted` | crates/nopass-api/src/db/orgs.rs:349-445 | A plan built from the server's current lists, with distinct drop ids and without removing the owner, is answered Rotated if and only if the kept item ids are distinct |
| `OrgLimits.SharedIdIsRefused` | crates/nopass-api/src/db/orgs.rs:395-400 | Two members' rows with one id and blob, in an organisation whose signed rows all carry its key: the owner's plan is built and the server answers IncompleteItems, for every content and key |
| `OrgRotation.MembersGetNewKey` | crates/nopass-api/src/db/orgs.rs:349-445 | After it every remaining member whose device has the owner pinned is served a chain that verifies at the next epoch and opens, with the member's private key, to the one new key |
| `OrgRotation.RemovedLosesAccess` | crates/nopass-api/src/db/orgs.rs:349-445 | The removed member is served no chain, and their private key opens no wrap left in the organisation |
| `OrgRotation.RetiredKeyOpensNothing` | packages/ui/src/lib/org-trust.ts:273-297 | After a rotation to another key the retired key opens no item row, under any binding |
| `OrgRotation.ItemsSurvive` | packages/ui/src/lib/org-trust.ts:273-297 | Every kept item decrypts under the new key to its old plaintext at a strictly higher revision |
| `OrgRotation.KnownIsAccountedFor` | packages/ui/src/lib/org-trust.ts:249-271 | In any successful plan each known item is re-encrypted, dropped or acknowledged gone, and each known member wrapped, removed or acknowledged gone |
| `OrgRotation.LedgerIsExact` | packages/ui/src/components/OrgPanel.tsx:534-553 | After commit the ledger is exactly the server's item and member sets |
| `OrgAgreement.EveryHonestRunAgrees` | packages/ui/src/components/OrgPanel.tsx:334-553 | In every run whose accepted requests are built by the client code from any earlier answers: an organisation has one key, and a member verifies their chain if and only if it has at most 16 links, every signer on it is pinned under the identity they published, and the epoch is no rollback; all who do open that one key |
| `OrgAgreement.MemberOpens` | packages/crypto/src/identity.ts:294-351 | For one member of an organisation whose rows carry its key: exactly when the chain verifies, and what it opens to |
| `OrgAgreement.RunLeads` | crates/nopass-api/src/db/orgs.rs:116-277 | In such a run every earlier state leads to the present one: epochs never fall, and within an epoch members, roles and the one key stay |
| `OrgAgreement.InviteStep` | packages/ui/src/components/OrgPanel.tsx:429-473 | An invitation built from an earlier answer and accepted now carries the present key |
| `OrgAgreement.ResignStep` | packages/ui/src/components/OrgPanel.tsx:298-332 | Re-signed wraps accepted now carry the present key, also when the chain did not verify and epoch 1 was assumed |
| `OrgAgreement.RotateStep` | packages/ui/src/components/OrgPanel.tsx:475-553 | A rotation built from an earlier answer and accepted now leaves every remaining row with the one new key |
| `OrgItems.DecryptOrgItem` | packages/ui/src/lib/org-trust.ts:320-336 | The first key of the ring that opens the item decides result and store; if none does, the last key's error is returned and the store is as before |
| `OrgItems.KeyIsUnique` | packages/ui/src/lib/org-trust.ts:320-336 | At most one key opens an item, so the order of the ring never changes what is read |
| `OrgItems.RetiredKeyStillReads` | packages/ui/src/lib/org-trust.ts:309-336 | An item reads if and only if its sealing key is in the ring, current or retired, and it is not rolled back |
| `OrgItems.RecordVerifiedOrgItems` | packages/ui/src/lib/org-trust.ts:344-363 | Every listed item is verified or failed in turn, through the store as the earlier ones left it, and exactly the verified ids enter the ledger |
| `OrgItems.VerifiedIff` | packages/ui/src/lib/org-trust.ts:344-363 | An id is verified if and only if a listed row with it opens at its turn, and failed if and only if one does not |
| `OrgItems.VerifiedIsAuthentic` | packages/ui/src/lib/org-trust.ts:338-363 | A verified id is that of a listed row that opens, under this organisation's binding, with a held key |
| `OrgItems.OmissionIsNoticed` | packages/ui/src/lib/org-trust.ts:249-271 | A remembered item the server leaves out, not dropped and not acknowledged, makes the plan refuse and name it |
| `OrgServer.OrgStore.InviteMember` | crates/nopass-api/src/db/orgs.rs:116-151 | The new member row, or no change |
| `OrgServer.OrgStore.AcceptInvite` | crates/nopass-api/src/db/orgs.rs:266-277 | An invited row becomes active, or no change |
| `OrgServer.OrgStore.RewrapMembers` | crates/nopass-api/src/db/orgs.rs:240-264 | Every wrap at the current epoch applied, or no change |
| `OrgServer.OrgStore.RotateKey` | crates/nopass-api/src/db/orgs.rs:349-445 | Nothing changes unless the request is for the next epoch and covers exactly the remaining members and all items; the answer names the first check that fails. When that is, and what it leaves, without these definitions: `RotatedIff`, `EveryItemIsReached`, `NothingElseIsLeft`, `LeftOutIsRefused` |
| `OrgRekey.RotatedIff` | crates/nopass-api/src/db/orgs.rs:349-405 | A rotation is accepted if and only if it names the next epoch, removes nobody or a member who is no owner, has one wrap at that epoch for each remaining member and for nobody else, and names every item once, to re-encrypt or to delete, and nothing else |
| `OrgRekey.EveryItemIsReached` | crates/nopass-api/src/db/orgs.rs:405-445 | After it, every old row is gone with its id named for deletion, or there with the blob of the one entry for its id and the next version |
| `OrgRekey.NothingElseIsLeft` | crates/nopass-api/src/db/orgs.rs:405-445 | and every row there is an old one with one of the new blobs |
| `OrgRekey.LeftOutIsRefused` | crates/nopass-api/src/db/orgs.rs:395-400 | A rotation that names some item in neither list is refused and changes nothing, for any organisation and request |
| `OrgRekey.OwnerRotates` | crates/nopass-api/src/routes/orgs.rs:288-338 | An active owner's accepted rotation takes effect |
| `OrgRekey.OwnerResigns` | crates/nopass-api/src/db/orgs.rs:240-264 | Wraps an owner re-signs at the current epoch, one each, all end up in their rows with role and status kept |
| `OrgRekey.EveryRotationRekeys` | packages/ui/src/lib/org-trust.ts:249-307 | In every honest run, whatever happened to the items in between, after every accepted rotation all members carry one key and every item is sealed under it for this organisation and its id |
| `OrgRekey.OnlyThatKey` | packages/crypto/src/item-envelope.ts:235-318 | so no other key, the retired one included, opens any of them under any binding |
| `OrgAuthority.MemberChangeIsAuthorised` | crates/nopass-api/src/routes/orgs.rs:128-250 | One request brings a member in only as an active admin's invitation or a creation, takes one out only by an owner's rotation (never an owner), activates one only by their own acceptance, changes a wrap only for an owner, and never a role |
| `OrgAuthority.EveryMemberWasBroughtIn` | crates/nopass-api/src/routes/orgs.rs:128-189 | In every run a member who was not there at the start was invited by someone then an active admin, or created the organisation, with the role they have; so nobody removed gets back in otherwise |
| `OrgAuthority.EveryActiveMemberJoined` | crates/nopass-api/src/routes/orgs.rs:217-230 | and is active only by their own acceptance or creation |
| `OrgAuthority.InvitedThenAccepted` | crates/nopass-api/src/db/orgs.rs:116-154 | An admin's invitation makes a pending member, and acceptance an active one with the role and wrap of the invitation |
| `OrgAuthority.PublishedKeysStay` | crates/nopass-api/src/db/keys.rs:65-93 | In every run a published identity and public key are never replaced |
| `OrgAuthority.FirstIdentityIsStored` | crates/nopass-api/src/db/keys.rs:65-93 | and the first identity for a key is stored |
| `OrgServer.CountsDistinct` | crates/nopass-api/src/db/orgs.rs:349-445 | Comparing set size with list length detects duplicates exactly |
| `OrgGraph.EveryRunKeepsGraph` | crates/nopass-api/src/db/orgs.rs:10-43 | In every run of create, invite, accept, rewrap, rotate and publish: one owner row per organisation, inviters form a forest rooted at it through owners and admins, everyone has a published key, and (with first epochs of 1) every signed row is at the current epoch |
| `OrgGraph.HandleKeepsGraph` | crates/nopass-api/src/routes/orgs.rs:128-240 | Every request keeps the forest |
| `OrgGraph.HandleKeepsEpochs` | crates/nopass-api/src/db/orgs.rs:240-277 | Every request keeps signed rows at the current epoch, if an accepted creation signs epoch 1 |
| `OrgGraph.WrongFirstEpochBreaksRule` | crates/nopass-api/src/db/orgs.rs:10-43 | A creation that signs another epoch breaks it |
| `OrgGraph.EpochsCurrentThroughout` | crates/nopass-api/src/db/orgs.rs:10-43 | Signed rows are at the current epoch at every point of a run if and only if every accepted creation in it signs epoch 1 |
| `OrgGraph.ChainIsPath` | crates/nopass-api/src/db/orgs.rs:156-210 | The recursive query returns the path to the owner, cut after 17 rows |
| `OrgGraph.ServedChainHolds` | crates/nopass-api/src/db/orgs.rs:156-210 | The served chain passes every structural check of the client if and only if it has at most 16 links and all of them are signed |
| `OrgGraph.EveryRunServesChains` | crates/nopass-api/src/db/orgs.rs:116-210 | In every run from no organisations whose accepted creations sign epoch 1, every member has exactly one height n above the owner, and the served chain passes all structural checks if and only if n + 1 is at most 16 and the path is signed |
| `OrgLimits.NestedInvitationsHitTheLimit` | crates/nopass-api/src/routes/orgs.rs:128-189 | In the run of n nested admin invitations, all signed, the last member's chain passes if and only if n is at most 15, and from 16 on every client answers that it is too long |
| `OrgLimits.UnsignedCreationIsRefused` | crates/nopass-api/src/db/orgs.rs:10-43 | A creation without signature or epoch is stored, and its owner's own chain is refused as unsigned |
| `OrgGraph.RotatedRows` | crates/nopass-api/src/db/orgs.rs:405-445 | After a rotation exactly the remaining members are left, each reparented to the owner at the new epoch with role and status kept |
| `OrgGraph.WrapLands` | crates/nopass-api/src/db/orgs.rs:240-264 | With distinct recipients each wrap of a batch ends up in its member's row |
| `ItemEnvelope.ItemAadInjective` | packages/crypto/src/item-envelope.ts:180-219 | The associated data determines scope, item id, item type and revision |
| `ItemEnvelope.EnvelopeRoundTrip` | packages/crypto/src/item-envelope.ts:235-318 | An envelope opens to its plaintext and revision, under its own binding and key only |
| `ItemEnvelope.AcceptedWasSealedForThis` | packages/crypto/src/item-envelope.ts:270-318 | Whatever header a server puts before a ciphertext: it opens if and only if it was sealed for this scope, id, type and that revision |
| `ItemEnvelope.LegacyRoundTrip` | packages/crypto/src/item-envelope.ts:270-318 | A v1 item opens with its two keys, as revision 0, for any binding of its type, and with nothing else |
| `ItemEnvelope.RefusalsMean` | packages/crypto/src/item-envelope.ts:270-318 | A v1 blob is refused as such if and only if the store is v2-only; a rollback is reported, with both revisions, if and only if the blob opens below the mark |
| `ItemEnvelope.DecryptVaultItem` | packages/crypto/src/item-envelope.ts:270-318 | Result and store as specified: v1 refused after v2-only, rollback refused, success recorded, failure records nothing |
| `ItemEnvelope.MemoryRevisionStore.Record` | packages/crypto/src/item-envelope.ts:97-101 | A mark only rises, and the snapshot follows |
| `ItemEnvelope.MemoryRevisionStore.MarkV2Only` | packages/crypto/src/item-envelope.ts:107-116 | The flag is set for good, and the snapshot follows |
| `ItemEnvelope.NextRevision` | packages/crypto/src/item-envelope.ts:327-336 | A write is above everything the device has seen of the item and above the blob it replaces |
| `RollbackSafety.AcceptedRevisionsNeverDecrease` | packages/crypto/src/item-envelope.ts:270-318 | Over every sequence of served blobs, markers and restarts, accepted revisions of an item never decrease |
| `RollbackSafety.LegacyAcceptedIff` | packages/crypto/src/item-envelope.ts:270-318 | Exactly when a v1 blob is accepted |
| `RollbackSafety.NoLegacyAfterV2` | packages/crypto/src/item-envelope.ts:270-318 | No v1 for an item already accepted as v2 above revision 0 |
| `RollbackSafety.NoLegacyAfterMarker` | packages/crypto/src/item-envelope.ts:152-166 | No v1 for any item after a genuine v2-only marker |
| `RollbackSafety.ClosedIffMarked` | packages/crypto/src/item-envelope.ts:142-166 | Over every run against any server, v1 is closed if and only if it was before or the account's own marker was shown |
| `RollbackSafety.WrittenRevisionsArePositive` | packages/crypto/src/item-envelope.ts:327-336 | Clients never write revision 0 |
| `RollbackSafety.RevisionZeroLeavesLegacyOpen` | packages/crypto/src/item-envelope.ts:270-318 | The one way round: a v2 blob of revision 0, then a v1 blob is accepted |
| `RollbackSafety.ApplyV2OnlyMarker` | packages/crypto/src/item-envelope.ts:152-166 | Only a marker under the vault's MAC key closes v1 |
| `RollbackSafety.RestartStore` | packages/crypto/src/item-envelope.ts:80-116 | A restart from the snapshot loses nothing |
| `LegacyUpgrade.UpgradeLegacyItems` | packages/crypto/src/item-envelope.ts:345-373 | The loop's server blobs, store and counters, for any pattern of failed writes |
| `LegacyUpgrade.UpgradeIsLossless` | packages/crypto/src/item-envelope.ts:345-373 | Every item readable before is readable after to the same plaintext, whatever writes failed |
| `LegacyUpgrade.FailedIsLegacyLeft` | packages/crypto/src/item-envelope.ts:338-373 | The reported count is exactly the number of v1 items left on the server |
| `LegacyUpgrade.MarkOnlyWhenNoneLeft` | packages/crypto/src/item-envelope.ts:338-373 | Marking the account v2-only afterwards loses no item if and only if that count is 0 |
| `LegacyUpgrade.AcceptedIsUpgraded` | packages/crypto/src/item-envelope.ts:345-373 | A readable v1 item whose write the server takes is a v2 item afterwards and its v1 blob is refused from then on; other items are left alone |
| `LegacyUpgrade.CountersAddUp` | packages/crypto/src/item-envelope.ts:345-373 | Every v1 item is counted once, as upgraded or as failed |
| `VaultTable.ItemTable.CreateItem` | crates/nopass-api/src/db/vaults.rs:76-103 | New row at version 1 under the client's id or the drawn one, or no change if the id is taken or the vault is not there |
| `VaultTable.ItemTable.UpdateItem` | crates/nopass-api/src/db/vaults.rs:105-131 | Compare-and-set on the version: accepted exactly at the row's own version, whatever that is (`UpdateAtOwnVersion`) |
| `VaultTable.ItemTable.MoveItem` | crates/nopass-api/src/db/vaults.rs:237-257 | Vault changes and version rises, blob stays |
| `VaultTable.ItemTable.SoftDeleteItem` | crates/nopass-api/src/db/vaults.rs:148-157 | Deletion mark set once, blob stays |
| `VaultTable.ItemTable.DeleteVaultIfSafe` | crates/nopass-api/src/db/vaults.rs:216-235 | Refused while live items or no other vault remain |
| `VaultProgress.UpdateAtOwnVersion` | crates/nopass-api/src/db/vaults.rs:105-131 | An update goes through if and only if it names the row's version, then raises it by one, and touches no other row |
| `VaultProgress.MoveChangesVault` | crates/nopass-api/src/db/vaults.rs:237-257 | A move changes the vault and the version and nothing else |
| `VaultProgress.DeleteMarks` | crates/nopass-api/src/db/vaults.rs:148-157 | A deletion marks a live row, once, and leaves the rest of it alone |
| `VaultProgress.DropTakesOneVault` | crates/nopass-api/src/db/vaults.rs:216-235 | Dropping a vault takes its rows and no other vault's, and no live row exactly when it is allowed |
| `VaultDevices.NoFalseAlarm` | packages/crypto/src/item-envelope.ts:270-336 | With an honest server and any devices with stale caches, in every interleaving, writes whose answer was lost included, a fresh read is accepted |
| `VaultDevices.AcceptedEditRaisesRevision` | crates/nopass-api/src/db/vaults.rs:105-131 | Every accepted edit strictly raises the blob's revision and opens to the new content |
| `VaultProgress.FetchCatchesUp` | packages/crypto/src/item-envelope.ts:270-318 | In every reachable state a fetch leaves the device with the row as it is and the row's revision as its mark |
| `VaultProgress.FreshEditIsAccepted` | crates/nopass-api/src/db/vaults.rs:105-131 | In every reachable state a device that has just fetched a row can edit it, whatever its version: the row then holds the new content at the next revision and version |
| `VaultProgress.StaleEditIsRefused` | crates/nopass-api/src/db/vaults.rs:105-131 | An edit from a cache at another version is refused and changes nothing |
| `VaultProgress.NewItemIsAccepted` | crates/nopass-api/src/db/vaults.rs:76-103 | A new item lands at version 1 and revision 1 with its plaintext |
| `VaultProgress.MarkerGoesOut` | packages/crypto/src/item-envelope.ts:142-166 | With no v1 item left a listing device publishes the marker, and every device that fetches it closes v1 |
| `VaultDevices.RunKeepsInv` | packages/crypto/src/item-envelope.ts:97-101 | In every run each device's recorded revision is at most that of the server's blob |
| `VaultDevices.NextKeepsInv` | packages/crypto/src/item-envelope.ts:345-373 | Every action keeps that, upgrades and v2-only markers included |
| `Throttle.LockSecsInRange` | crates/nopass-api/src/db/throttle.rs:33-41 | No overflow: the lock is between 1 and max seconds for every counter value; which value is `FirstLock` and `LocksDouble` |
| `ThrottleLaws.FirstLock` | crates/nopass-api/src/db/throttle.rs:33-41 | No lock below free failures; the first is the base, or the maximum if that is less |
| `ThrottleLaws.LocksDouble` | crates/nopass-api/src/db/throttle.rs:33-41 | Every further failure gives the smaller of twice the lock and the maximum, if and only if fewer than 30 doublings were made or the maximum is reached; beyond that the lock stays |
| `ThrottleLaws.DeployedLocks` | crates/nopass-api/src/db/throttle.rs:14-41 | The locks of both deployed policies one by one |
| `Throttle.RetryAfterIsExact` | crates/nopass-api/src/db/throttle.rs:43-84 | A locked answer's retry time is exact: still locked before it, let through at it |
| `Throttle.LoginThrottle.RecordAttempt` | crates/nopass-api/src/db/throttle.rs:43-84 | Outcome and row as specified: decay, count, and the lock of the doubling law (`LocksDouble`) |
| `Throttle.LoginThrottle.Reset` | crates/nopass-api/src/db/throttle.rs:86-96 | Exactly these counters go |
| `Throttle.LoginThrottle.TrustNetwork` | crates/nopass-api/src/db/throttle.rs:115-127 | The network is trusted from now |
| `Throttle.LoginThrottle.PruneStale` | crates/nopass-api/src/db/throttle.rs:129-145 | Exactly the rows that no longer matter go |
| `Throttle.LoginThrottle.ThrottleAccount` | crates/nopass-api/src/routes/auth.rs:119-161 | The network counter decides first; a trusted network skips the account counter |
| `Throttle.LoginThrottle.ResetThrottle` | crates/nopass-api/src/routes/auth.rs:163-170 | A success clears both counters and trusts the network |
| `ThrottleLaws.SuccessClears` | crates/nopass-api/src/routes/auth.rs:163-170 | After a success the next start from that network counts as the first, whenever it comes, and the network is trusted for 90 days and not after |
| `ThrottleLaws.SuccessIsLocal` | crates/nopass-api/src/db/throttle.rs:86-127 | and no other counter or trust changes |
| `ThrottleLaws.PruneIsExactAndInvisible` | crates/nopass-api/src/db/throttle.rs:129-145 | A row is pruned if and only if it is over a day old and its lock is over, and then it would have made no difference to any later attempt |
| `ThrottleLaws.PrunedRows` | crates/nopass-api/src/db/throttle.rs:129-145 | The sweep takes exactly those rows, and exactly the trust older than its lifetime |
| `ThrottleRate.RateBound` | crates/nopass-api/src/db/throttle.rs:33-84 | For every schedule of one key without a reset, pruning included, a window W of at most a day holds at most free + D + W/max allowed attempts |
| `ThrottleLaws.SharpSpacing` | crates/nopass-api/src/db/throttle.rs:43-84 | Consecutive attempts of any schedule are at least the sum of their locks apart |
| `ThrottleLaws.PatientPasses` | crates/nopass-api/src/db/throttle.rs:43-84 | The schedule that waits each lock out gets every attempt through |
| `ThrottleLaws.FitIff` | crates/nopass-api/src/db/throttle.rs:33-84 | For every window of at most a day: n attempts can get through in it if and only if n is at most free or the locks between them fit |
| `ThrottleLaws.BoundIsReachedIff` | crates/nopass-api/src/db/throttle.rs:33-84 | So free + D + W/max is reached if and only if D + W/max locks fit into W |
| `ThrottleLaws.DeployedBoundIsOneTooMany` | crates/nopass-api/src/db/throttle.rs:14-41 | Under neither deployed policy is it ever reached; one attempt fewer is |
| `ThrottleRate.CounterNeedsTime` | crates/nopass-api/src/db/throttle.rs:43-84 | Every failure counted beyond free + D has cost a full lock since the first attempt |
| `ThrottleRate.CounterFitsI32` | crates/nopass-api/src/db/throttle.rs:43-84 | So under either deployed policy the counter stays within an i32 for sixty thousand years of attempts |
| `ThrottleRate.TraceFollows` | crates/nopass-api/src/db/throttle.rs:43-84 | Consecutive allowed attempts are a lock apart with the count one higher, or a day apart and counted from one |
| `ThrottleRate.DoublingsIsLeast` | crates/nopass-api/src/db/throttle.rs:33-41 | D is the least number with base·2^D >= max |
| `ThrottleRate.LongLock` | crates/nopass-api/src/db/throttle.rs:33-41 | From free + D failures on the lock is the maximum |
| `ThrottleRate.DeployedBounds` | crates/nopass-api/src/db/throttle.rs:14-25 | The two deployed policies in numbers per day |
| `ThrottleIsolation.TrustedNetworkIsIsolated` | crates/nopass-api/src/routes/auth.rs:105-170 | While a network stays trusted, its answers in any run equal those of the run with every other network's and account's event deleted, pruning included |
| `ThrottleIsolation.UntrustedNetworkIsNot` | crates/nopass-api/src/routes/auth.rs:119-161 | Without trust 100 strangers lock it out |
| `ThrottleIsolation.NetworkRateBound` | crates/nopass-api/src/routes/auth.rs:119-161 | In every run of the server one network gets at most 15 + W/900 starts through per account and window without a success of its own |
| `ThrottleIsolation.AccountRateBound` | crates/nopass-api/src/routes/auth.rs:119-161 | In every run without a success for the account, all untrusted networks together get at most 106 + W/3600 starts through in any window W of at most a day, however many there are |
| `Srp.ModPow` | packages/crypto/src/srp-client.ts:81-90 | The square-and-multiply loop returns the residue, for every exponent |
| `Srp.ModPowIsPower` | packages/crypto/src/srp-client.ts:81-90 | It is base^exp mod m if and only if not (exp = 0 and m = 1) |
| `Srp.SrpStep2` | packages/crypto/src/srp-client.ts:174-211 | The abort on B ≡ 0, and otherwise x from salt, identity and password, u from A and B, the secret and M1 |
| `Srp.UnblindsToPower` | packages/crypto/src/srp-client.ts:174-202 | B minus k·v is g^b modulo N |
| `Srp.SecretsAgree` | packages/crypto/src/srp-client.ts:149-202 | The client's S equals the server's (A·v^u)^b mod N for all a, b, x, u, k (sections 2.5.3 and 2.6 of RFC 5054) |
| `Srp.ProofsAgree` | packages/crypto/src/srp-client.ts:121-128 | With the verifier of the password typed, the server computes the client's M1, and its M2 is the one the client expects |
| `Srp.PrivateKeyPinsPassword` | packages/crypto/src/srp-client.ts:110-128 | For an injective hash and salts of one length, x determines the salt and identity:password |
| `Srp.ProofsPinSecrets` | packages/crypto/src/srp-client.ts:121-128 | and, for numbers of equal byte lengths, u determines A and B, and M1 the secret too |
| `Srp.ServerProofPinsSecret` | packages/crypto/src/srp-client.ts:121-128 | as M2 determines M1 and the secret |
| `Srp.VerifyServerProof` | packages/crypto/src/srp-client.ts:215-228 | The comparison loop accepts exactly the expected proof, whatever the lengths |
| `Bytes.MinimalUnique` | packages/crypto/src/srp-client.ts:69-79 | The minimal byte encoding is the only one without a leading zero and round trips |
| `SyncMerge.MoreRecentIsStrictTotalOrder` | packages/crypto/src/sync-engine.ts:65-78 | For events with distinct stamps the comparison is a strict total order; which way it points is in `MergeMarksDeleted` |
| `SyncMerge.ApplySyncEvents` | packages/crypto/src/sync-engine.ts:20-63 | Items and clock after a batch; with distinct stamps each item is marked deleted at e's time if e is its delete at the highest sequence number and, among deletes there, the greatest device id, and is unchanged if there is none |
| `SyncMerge.MergeMarksDeleted` | packages/crypto/src/sync-engine.ts:20-78 | For every batch with distinct stamps and every local item, in terms of sequence numbers, kinds and device ids alone: the deletion mark of the merged item, or the item unchanged |
| `SyncMerge.LoadKeepsOrder` | packages/crypto/src/sync-engine.ts:20-63 | Items with distinct ids come back in their places |
| `SyncMerge.LoadIsDistinct` | packages/crypto/src/sync-engine.ts:20-63 | and every id comes back once |
| `SyncMerge.LoadKeepsLast` | packages/crypto/src/sync-engine.ts:20-63 | with the last of several local items under one id |
| `SyncMerge.MergeIsOrderFree` | packages/crypto/src/sync-engine.ts:20-63 | Batches with the same events give the same items and clock |
| `SyncMerge.PermutationsMergeAlike` | packages/crypto/src/sync-engine.ts:20-63 | So every permutation of a batch does |
| `SyncDelivery.SyncLog.PushSyncEvents` | crates/nopass-api/src/db/sync.rs:7-37 | Rows are appended in order, conflicting ones skipped |
| `SyncDelivery.PushKeepsKeys` | crates/nopass-api/src/db/sync.rs:7-37 | Whatever is pushed: no row is lost or moved, ids and (device, sequence) stay unique, and an event is left out only beside a row with one of its keys |
| `SyncDelivery.PullSyncEvents` | crates/nopass-api/src/db/sync.rs:39-87 | Per-checkpoint rows and unknown devices' rows, as specified |
| `SyncDelivery.PullHandsOutUnseen` | crates/nopass-api/src/db/sync.rs:39-87 | With one checkpoint per device a pull returns exactly the unseen rows, each as often as it is stored |
| `SyncDelivery.PullWithClock` | packages/crypto/src/sync-engine.ts:83-90 | Checkpoints built from a clock ask for exactly what the clock has not seen |
| `SyncDelivery.DeliveredExactlyOnce` | crates/nopass-api/src/db/sync.rs:7-102 | With devices that push above their own highest number (retries allowed), in any interleaving, after a pull the client has each event of its user exactly once and its clock is the server's vector clock |
| `SyncDelivery.BelowClockIsNeverDelivered` | crates/nopass-api/src/db/sync.rs:39-87 | An event at or below the reader's clock is never handed out |
| `Cbor.Writer.EncodeInto` | packages/crypto/src/webauthn.ts:57-78 | Appends exactly the encoding |
| `Cbor.RoundTrip` | packages/crypto/src/webauthn.ts:38-78 | A decoder recovers value and leftover bytes (section 3 of RFC 8949) |
| `Cbor.ReadableIff` | packages/crypto/src/webauthn.ts:38-78 | For every value: the encoding reads back, with the leftover bytes, if and only if its integers and lengths are below 2^32 |
| `Cbor.PrefixFree` | packages/crypto/src/webauthn.ts:38-78 | No encoding is a prefix of another |
| `Cbor.BuildAttestationObject` | packages/crypto/src/webauthn.ts:173-180 | The object decodes to the three entries if and only if the authenticator data is below 2^32 bytes |
| `Cbor.AmbiguousBeyondLimit` | packages/crypto/src/webauthn.ts:38-49 | From 2^32 on every head, of any major type, is also that of another length, and every integer shares its bytes with another |
| `Der.EncodeInt` | packages/crypto/src/webauthn.ts:186-199 | The skip-zeros loop gives the minimal positive body of the same value |
| `Der.RawSigToDer` | packages/crypto/src/webauthn.ts:186-199 | For every 64 bytes the output decodes to the same r and s (section 8.3 of ITU-T X.690) |
| `Der.SignatureIsCanonical` | packages/crypto/src/webauthn.ts:186-199 | and is the only encoding that does |
| `Dotenv.ParsedParts` | apps/cli/src/secret-refs.ts:87-108 | Key and trailing text of a parsed line are well formed |
| `Dotenv.QuotedLineParses` | apps/cli/src/secret-refs.ts:87-108 | A single-quoted assignment parses to its literal if and only if the literal has no line end |
| `DotenvValues.DoubleQuotedParses` | apps/cli/src/secret-refs.ts:87-108 | A double-quoted, escaped literal parses back to the literal, with what follows the quote as trailing text |
| `DotenvValues.UnclosedIsUnterminated` | apps/cli/src/secret-refs.ts:87-108 | and without its closing quote it is reported as unterminated |
| `DotenvValues.PlainParses` | apps/cli/src/secret-refs.ts:87-108 | An unquoted value parses to itself, with an inline comment as trailing text |
| `Dotenv.SplitThenJoin` | apps/cli/src/adopt.ts:102-151 | Splitting a file and joining the lines gives the file back |
| `Dotenv.JoinThenSplit` | apps/cli/src/adopt.ts:102-151 | and the other way round |
| `Dotenv.ParseDotenv` | apps/cli/src/secret-refs.ts:110-117 | The entries with their line numbers, in order |
| `DotenvValues.EntryIff` | apps/cli/src/secret-refs.ts:110-117 | They are exactly the terminated assignments, each with its own line number, in line order |
| `Adopt.AdoptSecret` | apps/cli/src/adopt.ts:65-151 | The item (under the name given or the default one), the reference and the file written; or an error and the file untouched; the item is offered once the plan stands, the file written once the item is saved, and a rewrite that fails leaves the item saved |
| `Adopt.AdoptedIff` | apps/cli/src/adopt.ts:34-49 | A line is adopted if and only if it assigns a terminated, non-empty value that is no reference, under a valid name not yet taken |
| `Adopt.OnlyOneLineChanges` | apps/cli/src/adopt.ts:102-151 | All other lines and every terminator are unchanged |
| `Adopt.RewrittenLineParses` | apps/cli/src/adopt.ts:34-49 | The new line is the same assignment of the reference, if and only if the name has no line end |
| `Adopt.ReferenceResolves` | apps/cli/src/secret-refs.ts:35-65 | The reference resolves, in the vault plus the saved item, to the saved value |
| `DotenvValues.FieldResolves` | apps/cli/src/secret-refs.ts:9-65 | In any vault, a reference to a login item's password, user name or one-time secret resolves to it, unless it is empty or a custom field maps to the same variable; then the last such field wins |
| `Adopt.AdoptRoundTrip` | apps/cli/src/adopt.ts:102-151 | The rewritten file parses to the same entries but for the adopted value, and resolving the reference gives the original value back |
| `Adopt.BreakingNames` | apps/cli/src/adopt.ts:71-76 | The valid names that break the rewrite are those with U+2028 or U+2029 |
| `Adopt.SeparatorNameBreaks` | apps/cli/src/adopt.ts:71-76 | One such name, on one line |

## Left out

- User interface, HTTP clients and routing, configuration, metrics, billing: plumbing. `OrgPanel.commitRotation` is used only for its order of store updates.
- The insides of Argon2id, AES-GCM, HKDF, Ed25519, RSA-OAEP, OPAQUE and the Rust `srp` crate: foreign code; the SRP server is the RFC 5054 formula.
- Key zeroing and constant-time comparison: not functional properties.
- Interleavings inside a handler that is several statements: handlers are atomic here.
- Recovery by clients that re-encrypt every item is modelled on the server, but is outside the account invariant (see `RecoveryWithoutWrapLocksOut`).
- Account deletion and its cascades, and rows that still carry the raw email hash: `find_user` is by account key only.
- The retry of an identity-key publish without a proof: the first publish and its password proof are modelled.
- The KDF floor check.
- Recovery codes: generation and normalisation of what the user types.
- Throttle.LoginThrottle.RecordAttempt: does not model the wrap-around of an i32 counter, which `CounterFitsI32` puts sixty thousand years of attempts away.
- Safety numbers, and the move of trust records from their old storage keys.
- Item edits by other members while a rotation is being built: the server refuses a plan whose item ids are no longer the current ones (`LeftOutIsRefused`), and a changed blob under an unchanged id is overwritten, as in the code.
- Item contents across differently split sync batches: the merge drops upserts of unknown items, so only within-batch determinism and the clock are stated.
- The source-file branch of `extractSecret`, and how the rewrite uses a temporary file.
- WebAuthn credential creation, authenticator data and the relying-party id check.
- URL matching, shares, device rows, activity log, password strength, TOTP, SSH agent, keychain, extension lifecycle: single-branch or operating-system code.
