/**
 * Key bundles, pins, signed org-key wraps and the verification of wrap chains
 * (packages/crypto/src/identity.ts).
 */
module Identity {
  import opened Wrappers
  import opened Bytes
  import opened Arithmetic
  import opened IdealCrypto
  import Utf8

  // ── Key bundles and pins ───────────────────────────────────────────────────

  datatype KeyBundle = KeyBundle(
    userId: Uuid,
    publicKey: ByteString,
    identity: Option<IdentityPublic>,
    signature: Option<Signature>)

  /** Identity keys this device pinned, per user id. */
  type Pins = map<Uuid, IdentityPublic>

  /** "nopwd-key-bundle-v1" */
  const BUNDLE_LABEL: ByteString :=
    [110, 111, 112, 119, 100, 45, 107, 101, 121, 45, 98, 117, 110, 100, 108, 101, 45, 118, 49]

  /** "nopwd-org-key-wrap-v2" */
  const WRAP_LABEL: ByteString :=
    [110, 111, 112, 119, 100, 45, 111, 114, 103, 45, 107, 101, 121, 45, 119, 114, 97, 112, 45, 118, 50]

  function BundleMessage(userId: Uuid, spki: ByteString): ByteString {
    BUNDLE_LABEL + [0] + userId + spki
  }

  /** The bundle a user publishes for the RSA key they really hold. */
  function PublishedBundle(userId: Uuid, priv: PrivateKey): KeyBundle {
    KeyBundle(userId, SpkiOf(priv), Some(IdentityPublic(priv)), Some(Sign(BundleMessage(userId, SpkiOf(priv)), priv)))
  }

  predicate BundleVerifies(b: KeyBundle) {
    && b.identity.Some?
    && b.signature.Some?
    && Verifies(b.signature.value, BundleMessage(b.userId, b.publicKey), b.identity.value)
  }

  datatype KeyError = NoIdentity | BadBundleSignature | PinChanged

  datatype VerifiedKey = VerifiedKey(spki: ByteString, firstSeen: bool)

  function VerifyMemberKey(b: KeyBundle, pins: Pins): (r: Result<VerifiedKey, KeyError>) {
    if b.identity.None? || b.signature.None? then Err(NoIdentity)
    else if !BundleVerifies(b) then Err(BadBundleSignature)
    else if b.userId in pins && pins[b.userId] != b.identity.value then Err(PinChanged)
    else Ok(VerifiedKey(b.publicKey, b.userId !in pins))
  }

  /** A pinned user's bundle is accepted exactly when the pinned identity signed this key for this user. */
  lemma PinnedKeyIsSignedByPin(b: KeyBundle, pins: Pins)
    requires b.userId in pins
    ensures VerifyMemberKey(b, pins).Ok? <==>
            && b.identity == Some(pins[b.userId])
            && b.signature == Some(Signature(pins[b.userId], BundleMessage(b.userId, b.publicKey)))
  {
  }

  /** A bundle of a user without a pin is accepted, as seen for the first time, exactly when it is signed by the identity it carries. */
  lemma FirstSeenIff(b: KeyBundle, pins: Pins)
    requires b.userId !in pins
    ensures VerifyMemberKey(b, pins).Ok? <==>
            b.identity.Some? && b.signature == Some(Signature(b.identity.value, BundleMessage(b.userId, b.publicKey)))
    ensures VerifyMemberKey(b, pins).Ok? ==> VerifyMemberKey(b, pins).value == VerifiedKey(b.publicKey, true)
  {
  }

  /** A changed pin is reported exactly for a bundle that is properly signed, by another identity than the pinned one. */
  lemma PinChangedIff(b: KeyBundle, pins: Pins)
    ensures VerifyMemberKey(b, pins) == Err(PinChanged) <==>
            && b.userId in pins && b.identity.Some? && b.identity.value != pins[b.userId]
            && b.signature == Some(Signature(b.identity.value, BundleMessage(b.userId, b.publicKey)))
    ensures VerifyMemberKey(b, pins) == Err(NoIdentity) <==> b.identity.None? || b.signature.None?
  {
  }

  // ── Signed org-key wraps ───────────────────────────────────────────────────

  datatype OrgKeyWrap = OrgKeyWrap(
    orgId: Uuid,
    epoch: int,
    recipient: Uuid,
    signer: Uuid,
    role: string,
    encryptedOrgKey: ByteString)

  /** Canonical signed bytes; None where the encoder throws. */
  function WrapMessage(w: OrgKeyWrap): (m: Option<ByteString>) {
    var role := Utf8.Encode(w.role);
    if |role| > 255 || w.epoch < 1 || w.epoch > 0xffff_ffff then None
    else Some(WRAP_LABEL + [0] + w.orgId + BigEndian(w.epoch, 4) + w.recipient + w.signer
              + [|role|] + role + w.encryptedOrgKey)
  }

  lemma EpochBytesInjective(a: int, b: int)
    requires 0 <= a <= 0xffff_ffff && 0 <= b <= 0xffff_ffff
    requires BigEndian(a, 4) == BigEndian(b, 4)
    ensures a == b
  {
    PowersOf256();
    BigEndianRoundTrip(a, 4);
    BigEndianRoundTrip(b, 4);
  }

  /** The signed bytes determine all six fields of the wrap. */
  lemma WrapMessageInjective(v: OrgKeyWrap, w: OrgKeyWrap)
    requires WrapMessage(v).Some?
    requires WrapMessage(v) == WrapMessage(w)
    ensures v == w
  {
    var rv, rw := Utf8.Encode(v.role), Utf8.Encode(w.role);
    var tv, tw := rv + v.encryptedOrgKey, rw + w.encryptedOrgKey;
    var hv := WRAP_LABEL + [0] + v.orgId + BigEndian(v.epoch, 4) + v.recipient + v.signer + [|rv|];
    var hw := WRAP_LABEL + [0] + w.orgId + BigEndian(w.epoch, 4) + w.recipient + w.signer + [|rw|];
    assert WrapMessage(v).value == hv + tv && WrapMessage(w).value == hw + tw;
    SplitEqual(hv, tv, hw, tw);
    WrapHeadersEqual(v, w, hv, hw, |rv|, |rw|);
    SplitEqual(rv, v.encryptedOrgKey, rw, w.encryptedOrgKey);
    Utf8.EncodeInjective(v.role, w.role);
    EpochBytesInjective(v.epoch, w.epoch);
  }

  lemma WrapHeadersEqual(v: OrgKeyWrap, w: OrgKeyWrap, hv: ByteString, hw: ByteString, lv: Byte, lw: Byte)
    requires 0 <= v.epoch && 0 <= w.epoch
    requires hv == WRAP_LABEL + [0] + v.orgId + BigEndian(v.epoch, 4) + v.recipient + v.signer + [lv]
    requires hw == WRAP_LABEL + [0] + w.orgId + BigEndian(w.epoch, 4) + w.recipient + w.signer + [lw]
    requires hv == hw
    ensures v.orgId == w.orgId && v.recipient == w.recipient && v.signer == w.signer && lv == lw
    ensures BigEndian(v.epoch, 4) == BigEndian(w.epoch, 4)
  {
    var l := WRAP_LABEL + [0];
    SplitEqual(l + v.orgId + BigEndian(v.epoch, 4) + v.recipient + v.signer, [lv],
               l + w.orgId + BigEndian(w.epoch, 4) + w.recipient + w.signer, [lw]);
    SplitEqual(l + v.orgId + BigEndian(v.epoch, 4) + v.recipient, v.signer,
               l + w.orgId + BigEndian(w.epoch, 4) + w.recipient, w.signer);
    SplitEqual(l + v.orgId + BigEndian(v.epoch, 4), v.recipient, l + w.orgId + BigEndian(w.epoch, 4), w.recipient);
    SplitEqual(l + v.orgId, BigEndian(v.epoch, 4), l + w.orgId, BigEndian(w.epoch, 4));
    SplitEqual(l, v.orgId, l, w.orgId);
    assert [lv][0] == [lw][0];
  }

  lemma SignedEpochIsPositive(w: OrgKeyWrap)
    requires WrapMessage(w).Some?
    ensures 1 <= w.epoch <= 0xffff_ffff
  {
  }

  /** A signature made for a bundle can never pass as one for a wrap, or the reverse. */
  lemma WrapIsNeverBundle(w: OrgKeyWrap, userId: Uuid, spki: ByteString)
    ensures WrapMessage(w) != Some(BundleMessage(userId, spki))
  {
    if WrapMessage(w).Some? {
      assert WrapMessage(w).value[6] == WRAP_LABEL[6] == 'o' as int;
      assert BundleMessage(userId, spki)[6] == BUNDLE_LABEL[6] == 'k' as int;
    }
  }

  // ── Chains ─────────────────────────────────────────────────────────────────

  datatype Link = Link(wrap: OrgKeyWrap, signature: Option<Signature>, signer: KeyBundle)

  /** Highest org-key epoch this device accepted, per org. */
  type Epochs = map<Uuid, int>

  datatype ChainError =
    | NotYours | TooLong | Unsigned | Mixed | SignerMismatch | NotOwner | NotAdmin
    | BadKey(error: KeyError) | BadSignature | Rollback
    | Unconfirmed(signers: seq<KeyBundle>)

  const MAX_CHAIN := 16

  predicate IsAdminRole(role: string) {
    role == "owner" || role == "admin"
  }

  /** What is structurally wrong with link `i`, before any key is looked at. */
  function StructureProblem(chain: seq<Link>, i: nat, orgId: Uuid): (e: Option<ChainError>)
    requires i < |chain|
  {
    var link := chain[i];
    var w := link.wrap;
    if link.signature.None? then Some(Unsigned)
    else if w.orgId != orgId || w.epoch != chain[0].wrap.epoch then Some(Mixed)
    else if link.signer.userId != w.signer then Some(SignerMismatch)
    else if w.signer == w.recipient then
      if w.role != "owner" || i + 1 < |chain| then Some(NotOwner) else None
    else if i + 1 == |chain| || chain[i + 1].wrap.recipient != w.signer || !IsAdminRole(chain[i + 1].wrap.role) then
      Some(NotAdmin)
    else None
  }

  predicate SignatureHolds(link: Link) {
    && link.signature.Some?
    && link.signer.identity.Some?
    && WrapMessage(link.wrap).Some?
    && Verifies(link.signature.value, WrapMessage(link.wrap).value, link.signer.identity.value)
  }

  /** The error the checks on link `i` raise, in the order the code makes them. */
  function LinkProblem(chain: seq<Link>, i: nat, orgId: Uuid, pins: Pins): (e: Option<ChainError>)
    requires i < |chain|
  {
    var link := chain[i];
    if StructureProblem(chain, i, orgId).Some? then StructureProblem(chain, i, orgId)
    else match VerifyMemberKey(link.signer, pins)
      case Err(e) => Some(BadKey(e))
      case Ok(_) => if SignatureHolds(link) then None else Some(BadSignature)
  }

  function FirstProblem(chain: seq<Link>, i: nat, orgId: Uuid, pins: Pins): (e: Option<ChainError>)
    requires i <= |chain|
    decreases |chain| - i
    ensures e.None? <==> forall k :: i <= k < |chain| ==> LinkProblem(chain, k, orgId, pins).None?
  {
    if i == |chain| then None
    else if LinkProblem(chain, i, orgId, pins).Some? then LinkProblem(chain, i, orgId, pins)
    else FirstProblem(chain, i + 1, orgId, pins)
  }

  predicate Names(signers: seq<KeyBundle>, userId: Uuid) {
    exists k :: 0 <= k < |signers| && signers[k].userId == userId
  }

  /** Unpinned signers of the first `n` links, each user once, in chain order. */
  function UnconfirmedSigners(chain: seq<Link>, n: nat, pins: Pins): (u: seq<KeyBundle>)
    requires n <= |chain|
    ensures forall i :: 0 <= i < n && chain[i].signer.userId !in pins ==> Names(u, chain[i].signer.userId)
    ensures forall k :: 0 <= k < |u| ==> u[k].userId !in pins
  {
    if n == 0 then []
    else
      var u := UnconfirmedSigners(chain, n - 1, pins);
      var s := chain[n - 1].signer;
      if s.userId in pins || Names(u, s.userId) then u
      else
        var v := u + [s];
        assert v[|u|] == s;
        assert forall id :: Names(u, id) ==> Names(v, id) by {
          forall id | Names(u, id) ensures Names(v, id) {
            var k :| 0 <= k < |u| && u[k].userId == id;
            assert v[k].userId == id;
          }
        }
        v
  }

  predicate OwnLink(chain: seq<Link>, orgId: Uuid, me: Uuid) {
    |chain| > 0 && chain[0].wrap.orgId == orgId && chain[0].wrap.recipient == me
  }

  function ChainVerdict(chain: seq<Link>, orgId: Uuid, me: Uuid, pins: Pins, epochs: Epochs)
    : (r: Result<OrgKeyWrap, ChainError>)
  {
    if !OwnLink(chain, orgId, me) then Err(NotYours)
    else if |chain| > MAX_CHAIN then Err(TooLong)
    else if FirstProblem(chain, 0, orgId, pins).Some? then Err(FirstProblem(chain, 0, orgId, pins).value)
    else if orgId in epochs && chain[0].wrap.epoch < epochs[orgId] then Err(Rollback)
    else if UnconfirmedSigners(chain, |chain|, pins) != [] then Err(Unconfirmed(UnconfirmedSigners(chain, |chain|, pins)))
    else Ok(chain[0].wrap)
  }

  method VerifyOrgKeyChain(chain: seq<Link>, orgId: Uuid, me: Uuid, pins: Pins, epochs: Epochs)
    returns (r: Result<OrgKeyWrap, ChainError>)
    ensures r == ChainVerdict(chain, orgId, me, pins, epochs)
  {
    hide WrapMessage, BundleMessage;
    if |chain| == 0 || chain[0].wrap.orgId != orgId || chain[0].wrap.recipient != me {
      return Err(NotYours);
    }
    if |chain| > MAX_CHAIN {
      return Err(TooLong);
    }
    var unconfirmed: seq<KeyBundle> := [];
    for i := 0 to |chain|
      invariant FirstProblem(chain, 0, orgId, pins) == FirstProblem(chain, i, orgId, pins)
      invariant unconfirmed == UnconfirmedSigners(chain, i, pins)
    {
      var link := chain[i];
      var structure := StructureProblem(chain, i, orgId);
      if structure.Some? {
        return Err(structure.value);
      }
      var verified := VerifyMemberKey(link.signer, pins);
      if verified.Err? {
        return Err(BadKey(verified.error));
      }
      if !SignatureHolds(link) {
        return Err(BadSignature);
      }
      if verified.value.firstSeen && !Names(unconfirmed, link.signer.userId) {
        unconfirmed := unconfirmed + [link.signer];
      }
    }
    if orgId in epochs && chain[0].wrap.epoch < epochs[orgId] {
      return Err(Rollback);
    }
    if |unconfirmed| > 0 {
      return Err(Unconfirmed(unconfirmed));
    }
    return Ok(chain[0].wrap);
  }

  // ── What acceptance means ──────────────────────────────────────────────────

  /** The signature of link `i` verifies under the identity pinned for its signer. */
  predicate PinnedSignature(link: Link, pins: Pins) {
    && link.wrap.signer in pins
    && WrapMessage(link.wrap).Some?
    && link.signature == Some(Signature(pins[link.wrap.signer], WrapMessage(link.wrap).value))
  }

  /** The signer's bundle is theirs, self-signed, and carries the pinned identity. */
  predicate PinnedBundle(link: Link, pins: Pins) {
    && link.signer.userId == link.wrap.signer
    && link.wrap.signer in pins
    && link.signer.identity == Some(pins[link.wrap.signer])
    && BundleVerifies(link.signer)
  }

  /** Link `i` is signed by somebody else, who is link `i + 1`'s recipient and an admin there. */
  predicate VouchedByNext(chain: seq<Link>, i: nat)
    requires i + 1 < |chain|
  {
    && chain[i].wrap.signer != chain[i].wrap.recipient
    && chain[i].wrap.signer == chain[i + 1].wrap.recipient
    && IsAdminRole(chain[i + 1].wrap.role)
  }

  /** One org, one epoch, admins vouching for members, ending in the owner's own wrap. */
  predicate TrustedChain(chain: seq<Link>, orgId: Uuid, me: Uuid, pins: Pins) {
    && 1 <= |chain| <= MAX_CHAIN
    && chain[0].wrap.recipient == me
    && (forall i :: 0 <= i < |chain| ==>
          && chain[i].wrap.orgId == orgId
          && chain[i].wrap.epoch == chain[0].wrap.epoch
          && PinnedBundle(chain[i], pins)
          && PinnedSignature(chain[i], pins))
    && (forall i :: 0 <= i < |chain| - 1 ==> VouchedByNext(chain, i))
    && var last := chain[|chain| - 1].wrap;
       last.signer == last.recipient && last.role == "owner"
  }

  /** Chain verification accepts exactly the trusted chains that are no rollback. */
  lemma VerdictIsTrust(chain: seq<Link>, orgId: Uuid, me: Uuid, pins: Pins, epochs: Epochs)
    ensures ChainVerdict(chain, orgId, me, pins, epochs).Ok? <==>
            && TrustedChain(chain, orgId, me, pins)
            && (orgId in epochs ==> chain[0].wrap.epoch >= epochs[orgId])
    ensures ChainVerdict(chain, orgId, me, pins, epochs).Ok? ==>
            && ChainVerdict(chain, orgId, me, pins, epochs).value == chain[0].wrap
            && 1 <= chain[0].wrap.epoch
  {
    hide WrapMessage, BundleMessage;
    if ChainVerdict(chain, orgId, me, pins, epochs).Ok? {
      AcceptedIsTrusted(chain, orgId, me, pins, epochs);
    }
    if TrustedChain(chain, orgId, me, pins) {
      TrustedHasNoProblem(chain, orgId, me, pins);
    }
  }

  /** A rollback is reported exactly when the recorded epoch is higher and nothing but confirmation stood in the way otherwise. */
  lemma RollbackIff(chain: seq<Link>, orgId: Uuid, me: Uuid, pins: Pins, epochs: Epochs)
    ensures ChainVerdict(chain, orgId, me, pins, epochs) == Err(Rollback) <==>
            && orgId in epochs && |chain| > 0 && chain[0].wrap.epoch < epochs[orgId]
            && var without := ChainVerdict(chain, orgId, me, pins, map[]);
               without.Ok? || without.error.Unconfirmed?
  {
    hide LinkProblem;
    FirstProblemIsStructural(chain, 0, orgId, pins);
  }

  lemma {:induction false} FirstProblemIsStructural(chain: seq<Link>, i: nat, orgId: Uuid, pins: Pins)
    requires i <= |chain|
    ensures FirstProblem(chain, i, orgId, pins).Some? ==>
              !FirstProblem(chain, i, orgId, pins).value.Unconfirmed? && FirstProblem(chain, i, orgId, pins).value != Rollback
    decreases |chain| - i
  {
    hide SignatureHolds;
    if i < |chain| {
      FirstProblemIsStructural(chain, i + 1, orgId, pins);
    }
  }

  lemma AcceptedIsTrusted(chain: seq<Link>, orgId: Uuid, me: Uuid, pins: Pins, epochs: Epochs)
    requires ChainVerdict(chain, orgId, me, pins, epochs).Ok?
    ensures TrustedChain(chain, orgId, me, pins)
    ensures 1 <= chain[0].wrap.epoch
  {
    hide WrapMessage, BundleMessage;
    var u := UnconfirmedSigners(chain, |chain|, pins);
    forall i | 0 <= i < |chain|
      ensures chain[i].signer.userId in pins
    {
      var id := chain[i].signer.userId;
      assert id !in pins ==> Names(u, id);
    }
    forall i | 0 <= i < |chain|
      ensures LinkProblem(chain, i, orgId, pins).None?
      ensures PinnedBundle(chain[i], pins) && PinnedSignature(chain[i], pins)
    {
      assert LinkProblem(chain, i, orgId, pins).None?;
    }
    SignedEpochIsPositive(chain[0].wrap);
  }

  lemma TrustedHasNoProblem(chain: seq<Link>, orgId: Uuid, me: Uuid, pins: Pins)
    requires TrustedChain(chain, orgId, me, pins)
    ensures FirstProblem(chain, 0, orgId, pins).None?
    ensures UnconfirmedSigners(chain, |chain|, pins) == []
  {
    hide WrapMessage, BundleMessage;
    forall i | 0 <= i < |chain|
      ensures LinkProblem(chain, i, orgId, pins).None?
    {
      assert PinnedBundle(chain[i], pins) && PinnedSignature(chain[i], pins);
      assert i + 1 < |chain| ==> VouchedByNext(chain, i);
    }
    AllPinned(chain, |chain|, pins);
  }

  lemma {:induction false} AllPinned(chain: seq<Link>, n: nat, pins: Pins)
    requires n <= |chain|
    requires forall i :: 0 <= i < |chain| ==> PinnedBundle(chain[i], pins)
    ensures UnconfirmedSigners(chain, n, pins) == []
  {
    hide WrapMessage, BundleMessage;
    if n > 0 {
      AllPinned(chain, n - 1, pins);
      assert PinnedBundle(chain[n - 1], pins);
    }
  }

  // ── Delegation ─────────────────────────────────────────────────────────────

  /**
   * Pinned identities sign only wraps their users issued: a signature of a
   * pinned identity on some wrap's bytes means the user issued that wrap.
   */
  ghost predicate PinsSignOnlyIssued(pins: Pins, issued: set<OrgKeyWrap>, seen: set<Signature>) {
    forall sig, user | sig in seen && user in pins && sig.key == pins[user] ::
      (forall w: OrgKeyWrap :: WrapMessage(w) == Some(sig.message) ==>
         exists v :: v in issued && v.signer == user && WrapMessage(v) == Some(sig.message))
  }

  /** The wrap was issued, by an owner for themselves or by someone in turn vouched for as admin. */
  ghost predicate Vouched(w: OrgKeyWrap, issued: set<OrgKeyWrap>, depth: nat)
    decreases depth
  {
    && w in issued
    && if w.signer == w.recipient then w.role == "owner"
       else depth > 0 && exists v ::
         && v in issued && v.recipient == w.signer && v.orgId == w.orgId && v.epoch == w.epoch
         && IsAdminRole(v.role) && Vouched(v, issued, depth - 1)
  }

  /**
   * Against any server: an accepted org key was issued, in this org and epoch,
   * through a line of admins that starts at an owner.
   */
  lemma AcceptedKeyIsDelegated(chain: seq<Link>, orgId: Uuid, me: Uuid, pins: Pins, epochs: Epochs,
                               issued: set<OrgKeyWrap>, seen: set<Signature>)
    requires ChainVerdict(chain, orgId, me, pins, epochs).Ok?
    requires forall i :: 0 <= i < |chain| && chain[i].signature.Some? ==> chain[i].signature.value in seen
    requires PinsSignOnlyIssued(pins, issued, seen)
    ensures var w := ChainVerdict(chain, orgId, me, pins, epochs).value;
            w.orgId == orgId && w.recipient == me && Vouched(w, issued, MAX_CHAIN)
  {
    VerdictIsTrust(chain, orgId, me, pins, epochs);
    SuffixVouched(chain, 0, orgId, me, pins, issued, seen);
    VouchedDeeper(chain[0].wrap, issued, |chain|, MAX_CHAIN);
  }

  lemma {:induction false} SuffixVouched(chain: seq<Link>, i: nat, orgId: Uuid, me: Uuid, pins: Pins,
                                         issued: set<OrgKeyWrap>, seen: set<Signature>)
    requires TrustedChain(chain, orgId, me, pins)
    requires forall i :: 0 <= i < |chain| && chain[i].signature.Some? ==> chain[i].signature.value in seen
    requires PinsSignOnlyIssued(pins, issued, seen)
    requires i < |chain|
    ensures Vouched(chain[i].wrap, issued, |chain| - i)
    decreases |chain| - i
  {
    hide WrapMessage, BundleMessage;
    var w := chain[i].wrap;
    assert PinnedSignature(chain[i], pins);
    var sig := chain[i].signature.value;
    assert sig in seen && w.signer in pins && sig.key == pins[w.signer];
    assert WrapMessage(w) == Some(sig.message);
    var v :| v in issued && v.signer == w.signer && WrapMessage(v) == Some(sig.message);
    WrapMessageInjective(w, v);
    if i + 1 < |chain| {
      assert VouchedByNext(chain, i);
      SuffixVouched(chain, i + 1, orgId, me, pins, issued, seen);
    }
  }

  lemma {:induction false} VouchedDeeper(w: OrgKeyWrap, issued: set<OrgKeyWrap>, d: nat, e: nat)
    requires Vouched(w, issued, d)
    requires d <= e
    ensures Vouched(w, issued, e)
    decreases d
  {
    if w.signer != w.recipient {
      var v :| v in issued && v.recipient == w.signer && v.orgId == w.orgId && v.epoch == w.epoch
        && IsAdminRole(v.role) && Vouched(v, issued, d - 1);
      VouchedDeeper(v, issued, d - 1, e - 1);
    }
  }
}
