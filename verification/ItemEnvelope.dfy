/**
 * The versioned item envelope and the per-device revision store
 * (packages/crypto/src/item-envelope.ts).
 */
module ItemEnvelope {
  import opened Wrappers
  import opened Arithmetic
  import opened Bytes
  import opened IdealCrypto
  import Utf8

  datatype Scope = Personal | OfOrg(orgId: Uuid)

  datatype Binding = Binding(scope: Scope, itemId: Uuid, itemType: string)

  datatype Plaintext = Plaintext(itemType: string, content: string)

  type Ciphertext = Sealed<ByteString, ByteString, Plaintext>

  /** HMAC over a v1 ciphertext. */
  datatype MacTag = MacTag(key: ByteString, over: Ciphertext)

  /**
   * A stored item: the first nine bytes of a v2 blob, the ciphertext behind
   * them (None when the blob ends there) and the v1 MAC (None on v2).
   */
  datatype Blob = Blob(head: ByteString, body: Option<Ciphertext>, mac: Option<MacTag>)

  const HEADER_LEN := 9
  const FORMAT_V2: Byte := 2
  const MAX_SAFE_INTEGER := 0x1f_ffff_ffff_ffff

  /** "nopwd-item", a zero byte and the format version */
  const AAD_PREFIX: ByteString := [110, 111, 112, 119, 100, 45, 105, 116, 101, 109, 0, FORMAT_V2]

  predicate ValidRevision(n: int) {
    0 <= n <= MAX_SAFE_INTEGER
  }

  function ScopeBytes(s: Scope): ByteString {
    match s
    case Personal => [0]
    case OfOrg(orgId) => [1] + orgId
  }

  /** Canonical associated data; None where the encoder throws. */
  function ItemAad(b: Binding, revision: int): (aad: Option<ByteString>) {
    var itemType := Utf8.Encode(b.itemType);
    if |itemType| > 255 || !ValidRevision(revision) then None
    else Some(AAD_PREFIX + (ScopeBytes(b.scope) + (b.itemId + [|itemType|] + itemType + BigEndian(revision, 8))))
  }

  lemma RevisionBytesInjective(m: int, n: int)
    requires ValidRevision(m) && ValidRevision(n)
    requires BigEndian(m, 8) == BigEndian(n, 8)
    ensures m == n
  {
    PowersOf256();
    BigEndianRoundTrip(m, 8);
    BigEndianRoundTrip(n, 8);
  }

  /** The associated data determines scope, item id, item type and revision. */
  lemma ItemAadInjective(b: Binding, m: int, c: Binding, n: int)
    requires ItemAad(b, m).Some?
    requires ItemAad(b, m) == ItemAad(c, n)
    ensures b == c && m == n
  {
    var tb, tc := Utf8.Encode(b.itemType), Utf8.Encode(c.itemType);
    var restB := b.itemId + [|tb|] + tb + BigEndian(m, 8);
    var restC := c.itemId + [|tc|] + tc + BigEndian(n, 8);
    SplitEqual(AAD_PREFIX, ScopeBytes(b.scope) + restB, AAD_PREFIX, ScopeBytes(c.scope) + restC);
    ScopesEqual(b.scope, restB, c.scope, restC);
    RestsEqual(b.itemId, tb, m, c.itemId, tc, n);
    Utf8.EncodeInjective(b.itemType, c.itemType);
  }

  lemma ScopesEqual(s: Scope, restS: ByteString, t: Scope, restT: ByteString)
    requires ScopeBytes(s) + restS == ScopeBytes(t) + restT
    ensures s == t && restS == restT
  {
    assert (ScopeBytes(s) + restS)[0] == ScopeBytes(s)[0];
    assert (ScopeBytes(t) + restT)[0] == ScopeBytes(t)[0];
    SplitEqual(ScopeBytes(s), restS, ScopeBytes(t), restT);
    if s.OfOrg? {
      assert s.orgId == ScopeBytes(s)[1..] && t.orgId == ScopeBytes(t)[1..];
    }
  }

  lemma RestsEqual(i: Uuid, tb: ByteString, m: int, j: Uuid, tc: ByteString, n: int)
    requires |tb| <= 255 && |tc| <= 255 && ValidRevision(m) && ValidRevision(n)
    requires i + [|tb|] + tb + BigEndian(m, 8) == j + [|tc|] + tc + BigEndian(n, 8)
    ensures i == j && tb == tc && m == n
  {
    var x, y := tb + BigEndian(m, 8), tc + BigEndian(n, 8);
    assert i + [|tb|] + tb + BigEndian(m, 8) == (i + [|tb|]) + x;
    assert j + [|tc|] + tc + BigEndian(n, 8) == (j + [|tc|]) + y;
    SplitEqual(i + [|tb|], x, j + [|tc|], y);
    assert (i + [|tb|])[16] == |tb| && (j + [|tc|])[16] == |tc|;
    SplitEqual(i, [|tb|], j, [|tc|]);
    SplitEqual(tb, BigEndian(m, 8), tc, BigEndian(n, 8));
    RevisionBytesInjective(m, n);
  }

  // ── Sealing ────────────────────────────────────────────────────────────────

  datatype ItemError =
    | LegacyRejected | BadMac | UnknownFormat | RevisionOutOfRange | NotAuthentic | TypeMismatch | Unsealable
    | Rollback(served: int, highest: int)

  function EncryptItemV2(p: Plaintext, b: Binding, revision: int, key: ByteString): (r: Result<Blob, ItemError>) {
    if p.itemType != b.itemType then Err(TypeMismatch)
    else match ItemAad(b, revision)
      case None => Err(Unsealable)
      case Some(aad) => Ok(Blob([FORMAT_V2] + BigEndian(revision, 8), Some(Sealed(key, aad, p)), None))
  }

  /** A v1 item: no associated data, an HMAC beside the ciphertext. */
  function EncryptItemV1(p: Plaintext, key: ByteString, macKey: ByteString): Blob {
    var c := Sealed(key, [], p);
    Blob([], Some(c), Some(MacTag(macKey, c)))
  }

  datatype DecryptedItem = DecryptedItem(plaintext: Plaintext, revision: int, format: nat)

  predicate IsLegacy(blob: Blob) {
    blob.mac.Some?
  }

  function DecryptItemV1(blob: Blob, key: ByteString, macKey: ByteString): (r: Result<DecryptedItem, ItemError>)
    requires IsLegacy(blob)
  {
    if blob.body.None? || blob.mac.value != MacTag(macKey, blob.body.value) then Err(BadMac)
    else match Open(blob.body.value, key, [])
      case None => Err(NotAuthentic)
      case Some(p) => Ok(DecryptedItem(p, 0, 1))
  }

  function DecryptItemV2(blob: Blob, b: Binding, key: ByteString): (r: Result<DecryptedItem, ItemError>) {
    if |blob.head| != HEADER_LEN || blob.body.None? || blob.head[0] != FORMAT_V2 then Err(UnknownFormat)
    else
      var revision := Value(blob.head[1..]);
      if revision > MAX_SAFE_INTEGER then Err(RevisionOutOfRange)
      else match ItemAad(b, revision)
        case None => Err(Unsealable)
        case Some(aad) =>
          match Open(blob.body.value, key, aad)
          case None => Err(NotAuthentic)
          case Some(p) => Ok(DecryptedItem(p, revision, 2))
  }

  /** Decryption without a revision store. */
  function Unseal(blob: Blob, b: Binding, key: ByteString, macKey: ByteString): (r: Result<DecryptedItem, ItemError>) {
    var r := if IsLegacy(blob) then DecryptItemV1(blob, key, macKey) else DecryptItemV2(blob, b, key);
    if r.Ok? && r.value.plaintext.itemType != b.itemType then Err(TypeMismatch) else r
  }

  /** An envelope opens, with the plaintext and revision it was sealed with, under its own binding and key only. */
  lemma EnvelopeRoundTrip(p: Plaintext, b: Binding, revision: int, key: ByteString,
                          c: Binding, otherKey: ByteString, macKey: ByteString)
    requires EncryptItemV2(p, b, revision, key).Ok?
    ensures var blob := EncryptItemV2(p, b, revision, key).value;
            && Unseal(blob, b, key, macKey) == Ok(DecryptedItem(p, revision, 2))
            && (Unseal(blob, c, otherKey, macKey).Ok? <==> c == b && otherKey == key)
  {
    var blob := EncryptItemV2(p, b, revision, key).value;
    HeaderCarriesRevision(revision);
    hide ItemAad;
    if Unseal(blob, c, otherKey, macKey).Ok? {
      ItemAadInjective(b, revision, c, revision);
    }
  }

  /** A v1 item opens with its two keys, as revision 0, for any binding of its type, and with nothing else. */
  lemma LegacyRoundTrip(p: Plaintext, key: ByteString, macKey: ByteString, b: Binding, otherKey: ByteString, otherMac: ByteString)
    ensures Unseal(EncryptItemV1(p, key, macKey), b, otherKey, otherMac).Ok? <==>
            otherKey == key && otherMac == macKey && b.itemType == p.itemType
    ensures b.itemType == p.itemType ==> Unseal(EncryptItemV1(p, key, macKey), b, key, macKey) == Ok(DecryptedItem(p, 0, 1))
  {
  }

  lemma HeaderCarriesRevision(revision: int)
    requires ValidRevision(revision)
    ensures Value(([FORMAT_V2] + BigEndian(revision, 8))[1..]) == revision
  {
    PowersOf256();
    BigEndianRoundTrip(revision, 8);
    assert ([FORMAT_V2] + BigEndian(revision, 8))[1..] == BigEndian(revision, 8);
  }

  /**
   * Whatever a server makes of the header and the ciphertexts it holds: a v2
   * plaintext that comes out was sealed under this very scope, id, type and
   * revision, and a blob sealed for another binding or revision is refused.
   */
  lemma AcceptedWasSealedForThis(blob: Blob, b: Binding, key: ByteString, macKey: ByteString,
                                 p: Plaintext, c: Binding, sealedRevision: int)
    requires EncryptItemV2(p, c, sealedRevision, key).Ok?
    requires blob.body == EncryptItemV2(p, c, sealedRevision, key).value.body
    requires !IsLegacy(blob)
    ensures Unseal(blob, b, key, macKey).Ok? <==>
            && b == c
            && blob.head == EncryptItemV2(p, c, sealedRevision, key).value.head
    ensures Unseal(blob, b, key, macKey).Ok? ==>
            Unseal(blob, b, key, macKey).value == DecryptedItem(p, sealedRevision, 2)
  {
    HeaderCarriesRevision(sealedRevision);
    var r := Unseal(blob, b, key, macKey);
    if r.Ok? {
      HeaderIsRevision(blob.head, r.value.revision);
      ItemAadInjective(c, sealedRevision, b, r.value.revision);
    }
  }

  lemma HeaderIsRevision(head: ByteString, revision: int)
    requires |head| == HEADER_LEN && head[0] == FORMAT_V2
    requires revision == Value(head[1..])
    ensures head == [FORMAT_V2] + BigEndian(revision, 8)
  {
    ValueBigEndian(head[1..]);
    assert head == [head[0]] + head[1..];
  }

  // ── Revision store ─────────────────────────────────────────────────────────

  /** Highest revision seen per item, and whether v1 blobs are refused. */
  datatype Revisions = Revisions(highest: map<Uuid, int>, v2Only: bool) {

    function Recorded(itemId: Uuid, revision: int): Revisions {
      if itemId in highest && revision <= highest[itemId] then this
      else if itemId !in highest && revision <= -1 then this
      else this.(highest := highest[itemId := revision])
    }
  }

  /** The highest revision seen, or `otherwise` for an item never seen. */
  function SeenOr(s: Revisions, itemId: Uuid, otherwise: int): int {
    if itemId in s.highest then s.highest[itemId] else otherwise
  }

  class MemoryRevisionStore {
    var revisions: map<Uuid, int>
    var legacyClosed: bool
    /** What the change listener last wrote to local storage. */
    var saved: Revisions

    ghost predicate Valid()
      reads this
    {
      saved == State()
    }

    ghost function State(): Revisions
      reads this
    {
      Revisions(revisions, legacyClosed)
    }

    /** A new store, or a restart from the saved snapshot. */
    constructor (initial: Revisions)
      ensures Valid() && State() == initial
    {
      revisions, legacyClosed, saved := initial.highest, initial.v2Only, initial;
    }

    method Record(itemId: Uuid, revision: int)
      requires Valid()
      modifies this
      ensures Valid() && State() == old(State()).Recorded(itemId, revision)
    {
      var known := if itemId in revisions then revisions[itemId] else -1;
      if revision <= known {
        return;
      }
      revisions := revisions[itemId := revision];
      saved := Revisions(revisions, legacyClosed);
    }

    method MarkV2Only()
      requires Valid()
      modifies this
      ensures Valid() && State() == old(State()).(v2Only := true)
    {
      if legacyClosed {
        return;
      }
      legacyClosed := true;
      saved := Revisions(revisions, legacyClosed);
    }
  }

  /** Decryption against the store: result, and the store afterwards. */
  function Decrypt(blob: Blob, b: Binding, key: ByteString, macKey: ByteString, s: Revisions)
    : (r: (Result<DecryptedItem, ItemError>, Revisions))
  {
    if IsLegacy(blob) && s.v2Only then (Err(LegacyRejected), s)
    else match Unseal(blob, b, key, macKey)
      case Err(e) => (Err(e), s)
      case Ok(item) =>
        if item.revision < SeenOr(s, b.itemId, 0) then (Err(Rollback(item.revision, SeenOr(s, b.itemId, 0))), s)
        else (Ok(item), s.Recorded(b.itemId, item.revision))
  }

  /** A v1 blob is refused as such exactly on a v2-only store; a rollback is reported, with both revisions, exactly for a blob that opens below the mark. */
  lemma RefusalsMean(blob: Blob, b: Binding, key: ByteString, macKey: ByteString, s: Revisions)
    ensures var r := Decrypt(blob, b, key, macKey, s).0;
            && (r == Err(LegacyRejected) <==> IsLegacy(blob) && s.v2Only)
            && forall served, highest :: r == Err(Rollback(served, highest)) <==>
                 && !(IsLegacy(blob) && s.v2Only) && Unseal(blob, b, key, macKey).Ok?
                 && served == Unseal(blob, b, key, macKey).value.revision < highest == SeenOr(s, b.itemId, 0)
  {
    hide ItemAad;
  }

  method DecryptVaultItem(blob: Blob, b: Binding, key: ByteString, macKey: ByteString, store: MemoryRevisionStore)
    returns (r: Result<DecryptedItem, ItemError>)
    requires store.Valid()
    modifies store
    ensures store.Valid()
    ensures (r, store.State()) == Decrypt(blob, b, key, macKey, old(store.State()))
  {
    hide ItemAad;
    var item: DecryptedItem;
    if IsLegacy(blob) && store.legacyClosed {
      return Err(LegacyRejected);
    }
    if IsLegacy(blob) {
      var v1 := DecryptItemV1(blob, key, macKey);
      if v1.Err? {
        return v1;
      }
      item := v1.value;
    } else {
      var v2 := DecryptItemV2(blob, b, key);
      if v2.Err? {
        return v2;
      }
      item := v2.value;
    }
    if item.plaintext.itemType != b.itemType {
      return Err(TypeMismatch);
    }
    assert Unseal(blob, b, key, macKey) == Ok(item);
    if b.itemId in store.revisions && item.revision < store.revisions[b.itemId] {
      return Err(Rollback(item.revision, store.revisions[b.itemId]));
    }
    store.Record(b.itemId, item.revision);
    return Ok(item);
  }

  function Max(a: int, b: int): int {
    if a >= b then a else b
  }

  /** The revision a write uses: one past everything this device has seen of the item. */
  function NextRevision(s: Revisions, itemId: Uuid, current: int): (n: int)
    ensures n > current
    ensures itemId in s.highest ==> n > s.highest[itemId]
  {
    Max(SeenOr(s, itemId, 0), current) + 1
  }

  function EncryptVaultItem(p: Plaintext, b: Binding, key: ByteString, s: Revisions, current: int)
    : (r: Result<Blob, ItemError>)
  {
    EncryptItemV2(p, b, NextRevision(s, b.itemId, current), key)
  }
}
