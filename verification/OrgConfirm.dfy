/**
 * Confirming signers: what the check of an organisation key reports, and that
 * pinning exactly the signers it names makes the key usable
 * (packages/ui/src/lib/org-trust.ts, packages/crypto/src/identity.ts).
 */
module OrgConfirm {
  import opened Wrappers
  import opened Bytes
  import opened IdealCrypto
  import opened Identity
  import opened OrgServer
  import opened OrgTrust

  /** An unsigned own wrap is reported as such, and offered for re-signing to owners only; a key is usable exactly when its chain is trusted and no rollback. */
  lemma CheckMeans(orgId: Uuid, chain: seq<WrapLink>, me: Uuid, role: string, pins: Pins, epochs: Epochs)
    ensures var check, links := CheckOrgKey(orgId, chain, me, role, pins, epochs), ChainFromServer(orgId, chain);
            && (check.UnsignedWrap? <==> |chain| > 0 && chain[0].recipient == me && chain[0].signature.None?)
            && (check.UnsignedWrap? ==> (check.canResign <==> role == "owner"))
            && (check.Usable? <==> TrustedChain(links, orgId, me, pins) && (orgId in epochs ==> links[0].wrap.epoch >= epochs[orgId]))
            && (check.Usable? ==> check.wrap == links[0].wrap)
  {
    var links := ChainFromServer(orgId, chain);
    VerdictIsTrust(links, orgId, me, pins, epochs);
    if TrustedChain(links, orgId, me, pins) {
      assert PinnedSignature(links[0], pins);
    }
    hide ChainVerdict, WrapMessage, BundleMessage;
  }

  // ── Confirming ─────────────────────────────────────────────────────────────

  /** The pins after the user confirmed every signer named. */
  function Pinned(pins: Pins, signers: seq<KeyBundle>): Pins
    requires forall k :: 0 <= k < |signers| ==> signers[k].identity.Some?
  {
    if signers == [] then pins
    else
      var s := signers[|signers| - 1];
      Pinned(pins, signers[..|signers| - 1])[s.userId := s.identity.value]
  }

  /** Links by one user carry one identity. */
  predicate OneIdentityEach(links: seq<Link>) {
    forall i, j :: 0 <= i < |links| && 0 <= j < |links| && links[i].signer.userId == links[j].signer.userId ==>
      links[i].signer.identity == links[j].signer.identity
  }

  predicate Signs(links: seq<Link>, j: nat, b: KeyBundle) {
    j < |links| && links[j].signer == b
  }

  ghost predicate IsSigner(links: seq<Link>, b: KeyBundle) {
    exists j: nat :: Signs(links, j, b)
  }

  predicate DistinctUsers(signers: seq<KeyBundle>) {
    forall i, j :: 0 <= i < j < |signers| ==> signers[i].userId != signers[j].userId
  }

  /** The signers named are those of links, each user once. */
  lemma {:induction false} NamedAreSigners(links: seq<Link>, n: nat, pins: Pins)
    requires n <= |links|
    ensures var u := UnconfirmedSigners(links, n, pins);
            DistinctUsers(u) && forall k :: 0 <= k < |u| ==> IsSigner(links, u[k])
  {
    if n > 0 {
      NamedAreSigners(links, n - 1, pins);
      var u, u' := UnconfirmedSigners(links, n - 1, pins), UnconfirmedSigners(links, n, pins);
      assert Signs(links, n - 1, links[n - 1].signer);
      assert u' == u || (u' == u + [links[n - 1].signer] && !Names(u, links[n - 1].signer.userId));
    }
  }

  lemma {:induction false} PinnedAt(pins: Pins, signers: seq<KeyBundle>, user: Uuid)
    requires DistinctUsers(signers) && forall k :: 0 <= k < |signers| ==> signers[k].identity.Some?
    ensures !Names(signers, user) ==> (user in Pinned(pins, signers) <==> user in pins)
    ensures !Names(signers, user) && user in pins ==> Pinned(pins, signers)[user] == pins[user]
    ensures forall k :: 0 <= k < |signers| && signers[k].userId == user ==>
              user in Pinned(pins, signers) && Pinned(pins, signers)[user] == signers[k].identity.value
  {
    if signers != [] {
      var init := signers[..|signers| - 1];
      PinnedAt(pins, init, user);
      assert forall k :: 0 <= k < |init| ==> init[k] == signers[k];
    }
  }

  /** A chain that only waits for confirmation has no other fault. */
  lemma OnlyUnconfirmed(links: seq<Link>, orgId: Uuid, me: Uuid, pins: Pins, epochs: Epochs)
    requires ChainVerdict(links, orgId, me, pins, epochs).Err? && ChainVerdict(links, orgId, me, pins, epochs).error.Unconfirmed?
    ensures ChainVerdict(links, orgId, me, pins, epochs).error.signers == UnconfirmedSigners(links, |links|, pins) != []
    ensures OwnLink(links, orgId, me) && |links| <= MAX_CHAIN && (orgId in epochs ==> links[0].wrap.epoch >= epochs[orgId])
    ensures forall i :: 0 <= i < |links| ==> LinkProblem(links, i, orgId, pins).None?
  {
    hide WrapMessage, BundleMessage;
    if FirstProblem(links, 0, orgId, pins).Some? {
      FirstProblemIsStructural(links, 0, orgId, pins);
    }
  }

  /** Under pins that agree with what the links carry, and only then, a link without a fault stays without one. */
  lemma RepinnedLink(links: seq<Link>, i: nat, orgId: Uuid, pins: Pins, after: Pins)
    requires i < |links| && LinkProblem(links, i, orgId, pins).None? && links[i].signer.userId in after
    ensures links[i].signer.identity.Some?
    ensures LinkProblem(links, i, orgId, after).None? <==> Some(after[links[i].signer.userId]) == links[i].signer.identity
  {
    hide SignatureHolds, BundleMessage;
  }

  /**
   * When signers are to be confirmed, pinning exactly the ones named makes the
   * key usable, if and only if the server shows one identity per signer.
   */
  lemma ConfirmedIsUsable(orgId: Uuid, chain: seq<WrapLink>, me: Uuid, role: string, pins: Pins, epochs: Epochs)
    requires CheckOrgKey(orgId, chain, me, role, pins, epochs).Confirm?
    ensures var signers := CheckOrgKey(orgId, chain, me, role, pins, epochs).signers;
            && signers != [] && DistinctUsers(signers)
            && (forall k :: 0 <= k < |signers| ==> signers[k].identity.Some? && signers[k].userId !in pins)
            && (CheckOrgKey(orgId, chain, me, role, Pinned(pins, signers), epochs).Usable? <==> OneIdentityEach(ChainFromServer(orgId, chain)))
  {
    hide ChainVerdict, ChainFromServer, UnconfirmedSigners, LinkProblem;
    var links := ChainFromServer(orgId, chain);
    var signers := UnconfirmedSigners(links, |links|, pins);
    OnlyUnconfirmed(links, orgId, me, pins, epochs);
    NamedAreSigners(links, |links|, pins);
    forall k | 0 <= k < |signers| ensures signers[k].identity.Some? {
      assert IsSigner(links, signers[k]);
      var j: nat :| Signs(links, j, signers[k]);
      SignerHasIdentity(links, j, orgId, pins);
    }
    var after := Pinned(pins, signers);
    AllNamedArePinned(links, orgId, pins, signers, after);
    OkIffNoProblem(links, orgId, me, after, epochs);
    ConsistentIff(links, orgId, pins, signers, after);
  }

  lemma SignerHasIdentity(links: seq<Link>, j: nat, orgId: Uuid, pins: Pins)
    requires j < |links| && LinkProblem(links, j, orgId, pins).None?
    ensures links[j].signer.identity.Some?
  {
    hide StructureProblem;
  }

  lemma OkIffNoProblem(links: seq<Link>, orgId: Uuid, me: Uuid, pins: Pins, epochs: Epochs)
    requires OwnLink(links, orgId, me) && |links| <= MAX_CHAIN && (orgId in epochs ==> links[0].wrap.epoch >= epochs[orgId])
    requires UnconfirmedSigners(links, |links|, pins) == []
    ensures ChainVerdict(links, orgId, me, pins, epochs).Ok? <==> forall i :: 0 <= i < |links| ==> LinkProblem(links, i, orgId, pins).None?
    ensures ChainVerdict(links, orgId, me, pins, epochs).Err? ==> !ChainVerdict(links, orgId, me, pins, epochs).error.Unconfirmed?
  {
    hide LinkProblem, UnconfirmedSigners;
    FirstProblemIsStructural(links, 0, orgId, pins);
  }

  lemma AllNamedArePinned(links: seq<Link>, orgId: Uuid, pins: Pins, signers: seq<KeyBundle>, after: Pins)
    requires DistinctUsers(signers) && (forall k :: 0 <= k < |signers| ==> signers[k].identity.Some?)
    requires after == Pinned(pins, signers) && signers == UnconfirmedSigners(links, |links|, pins)
    ensures forall i :: 0 <= i < |links| ==> links[i].signer.userId in after
    ensures UnconfirmedSigners(links, |links|, after) == []
  {
    forall i | 0 <= i < |links| ensures links[i].signer.userId in after {
      PinnedAt(pins, signers, links[i].signer.userId);
    }
    NoneUnconfirmed(links, |links|, after);
  }

  lemma {:induction false} NoneUnconfirmed(links: seq<Link>, n: nat, pins: Pins)
    requires n <= |links| && forall i :: 0 <= i < |links| ==> links[i].signer.userId in pins
    ensures UnconfirmedSigners(links, n, pins) == []
  {
    if n > 0 {
      NoneUnconfirmed(links, n - 1, pins);
    }
  }

  lemma ConsistentIff(links: seq<Link>, orgId: Uuid, pins: Pins, signers: seq<KeyBundle>, after: Pins)
    requires DistinctUsers(signers) && (forall k :: 0 <= k < |signers| ==> signers[k].identity.Some?)
    requires after == Pinned(pins, signers) && signers == UnconfirmedSigners(links, |links|, pins)
    requires forall i :: 0 <= i < |links| ==> LinkProblem(links, i, orgId, pins).None?
    ensures (forall i :: 0 <= i < |links| ==> LinkProblem(links, i, orgId, after).None?) <==> OneIdentityEach(links)
  {
    hide LinkProblem, BundleVerifies;
    AllNamedArePinned(links, orgId, pins, signers, after);
    NamedAreSigners(links, |links|, pins);
    forall i | 0 <= i < |links|
      ensures LinkProblem(links, i, orgId, after).None? <==> Some(after[links[i].signer.userId]) == links[i].signer.identity
      ensures exists j: nat :: j < |links| && links[j].signer.userId == links[i].signer.userId && links[j].signer.identity == Some(after[links[i].signer.userId])
    {
      RepinnedLink(links, i, orgId, pins, after);
      PinIsSomeLinks(links, i, orgId, pins, signers, after);
    }
  }

  /** What is pinned for a link's signer is the identity some link of theirs carries. */
  lemma PinIsSomeLinks(links: seq<Link>, i: nat, orgId: Uuid, pins: Pins, signers: seq<KeyBundle>, after: Pins)
    requires i < |links| && LinkProblem(links, i, orgId, pins).None?
    requires DistinctUsers(signers) && (forall k :: 0 <= k < |signers| ==> signers[k].identity.Some?)
    requires after == Pinned(pins, signers) && signers == UnconfirmedSigners(links, |links|, pins)
    requires links[i].signer.userId in after
    ensures exists j: nat :: j < |links| && links[j].signer.userId == links[i].signer.userId && links[j].signer.identity == Some(after[links[i].signer.userId])
  {
    var user := links[i].signer.userId;
    PinnedAt(pins, signers, user);
    NamedAreSigners(links, |links|, pins);
    if user in pins {
      RepinnedLink(links, i, orgId, pins, pins);
    } else {
      var k :| 0 <= k < |signers| && signers[k].userId == user;
      assert IsSigner(links, signers[k]);
      var j: nat :| Signs(links, j, signers[k]);
    }
  }
}
