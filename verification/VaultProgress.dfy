/**
 * What the vault lets through: fresh edits and new items are accepted, stale
 * edits are not, and each table operation does its one thing
 * (crates/nopass-api/src/db/vaults.rs, packages/crypto/src/item-envelope.ts).
 */
module VaultProgress {
  import opened Wrappers
  import opened Bytes
  import opened IdealCrypto
  import opened ItemEnvelope
  import opened VaultTable
  import opened VaultDevices
  import Utf8

  // ── The table ──────────────────────────────────────────────────────────────

  predicate SameElsewhere(before: Rows, after: Rows, id: Uuid) {
    && (forall x :: x in before && x != id ==> x in after && after[x] == before[x])
    && (forall x :: x in after && x != id ==> x in before)
  }

  /** An update goes through exactly at the row's own version, whatever that is, and raises it by one. */
  lemma UpdateAtOwnVersion(rows: Rows, id: Uuid, blob: Blob, expected: int)
    ensures var (after, ok) := Update(rows, id, blob, expected);
            && (ok <==> id in rows && expected == rows[id].version)
            && SameElsewhere(rows, after, id)
            && (ok ==> id in after && after[id] == rows[id].(blob := blob, version := expected + 1))
            && (!ok ==> after == rows)
  {
  }

  /** A move changes the vault and raises the version; blob, type and deletion mark stay. */
  lemma MoveChangesVault(rows: Rows, id: Uuid, to: Uuid, vaults: set<Uuid>)
    ensures var (after, ok) := Move(rows, id, to, vaults);
            && (ok <==> id in rows && to in vaults)
            && SameElsewhere(rows, after, id)
            && (ok ==> id in after && after[id].vault == to && after[id].version == rows[id].version + 1 &&
                       after[id].blob == rows[id].blob && after[id].itemType == rows[id].itemType && after[id].deleted == rows[id].deleted)
            && (!ok ==> after == rows)
  {
  }

  /** A deletion marks a live row and leaves the rest of it alone; a marked row is not marked again. */
  lemma DeleteMarks(rows: Rows, id: Uuid)
    ensures var (after, ok) := SoftDelete(rows, id);
            && (ok <==> id in rows && !rows[id].deleted)
            && SameElsewhere(rows, after, id)
            && (ok ==> id in after && after[id].deleted && after[id].blob == rows[id].blob && after[id].version == rows[id].version &&
                       after[id].vault == rows[id].vault && after[id].itemType == rows[id].itemType)
            && SoftDelete(after, id) == (after, false)
  {
  }

  /** Dropping a vault takes its rows and no other vault's; it is allowed exactly when they are all deleted. */
  lemma DropTakesOneVault(rows: Rows, vault: Uuid)
    ensures var after := DropVault(rows, vault);
            && (forall x :: x in after <==> x in rows && rows[x].vault != vault)
            && (forall x :: x in after ==> after[x] == rows[x])
            && (VaultIsEmpty(rows, vault) <==> forall x :: x in rows && !rows[x].deleted ==> x in after)
  {
  }

  // ── Devices ────────────────────────────────────────────────────────────────

  /** The type and the next revision fit the envelope. */
  predicate RoomForEdit(row: Row, id: Uuid, k: Keys)
    requires Unseal(row.blob, Personally(id, row.itemType), k.enc, k.mac).Ok?
  {
    |Utf8.Encode(row.itemType)| <= 255 && RevisionOf(row, id, k) < MAX_SAFE_INTEGER
  }

  /** After a fetch the device holds the row as it is, and its mark is the row's revision. */
  lemma FetchCatchesUp(w: World, d: nat, id: Uuid, k: Keys)
    requires Inv(w, k) && d in w.devices && id in w.rows
    ensures var w1, row := DoFetch(w, d, id, k), w.rows[id];
            && w1.rows == w.rows && d in w1.devices
            && Unseal(row.blob, Personally(id, row.itemType), k.enc, k.mac).Ok?
            && id in w1.devices[d].cache && w1.devices[d].cache[id] == Cached(row.blob, row.itemType, row.version)
            && SeenOr(w1.devices[d].store, id, 0) == RevisionOf(row, id, k)
  {
    hide Unseal;
    var row, dev := w.rows[id], w.devices[d];
    assert Unseal(row.blob, Personally(id, row.itemType), k.enc, k.mac).Ok?;
    SeenRevisionIsNatural(row, id, k);
    assert DeviceBehind(dev, w.rows, k) && FormatKnown(dev, w.rows);
    assert id !in LegacyIds(w.rows) || !dev.store.v2Only;
  }

  /** A device that has just fetched a row can edit it: the row then holds the new content at the next revision and version. */
  lemma FreshEditIsAccepted(w: World, d: nat, id: Uuid, content: string, k: Keys)
    requires Inv(w, k) && d in w.devices && id in w.rows
    requires Unseal(w.rows[id].blob, Personally(id, w.rows[id].itemType), k.enc, k.mac).Ok? ==> RoomForEdit(w.rows[id], id, k)
    ensures var w1, row := DoFetch(w, d, id, k), w.rows[id];
            && d in w1.devices
            && var (w2, ok) := DoEdit(w1, d, id, content, k);
               && ok && id in w2.rows && SameElsewhere(w.rows, w2.rows, id)
               && w2.rows[id] == row.(blob := w2.rows[id].blob, version := row.version + 1)
               && Unseal(row.blob, Personally(id, row.itemType), k.enc, k.mac).Ok?
               && Unseal(w2.rows[id].blob, Personally(id, row.itemType), k.enc, k.mac)
                  == Ok(DecryptedItem(Plaintext(row.itemType, content), RevisionOf(row, id, k) + 1, 2))
  {
    FetchCatchesUp(w, d, id, k);
    var w1, row := DoFetch(w, d, id, k), w.rows[id];
    hide DoFetch, Inv;
    SeenRevisionIsNatural(row, id, k);
    CachedEditIsAccepted(w1, d, id, content, k, row);
  }

  lemma CachedEditIsAccepted(w: World, d: nat, id: Uuid, content: string, k: Keys, row: Row)
    requires d in w.devices && id in w.rows && w.rows[id] == row && id in w.devices[d].cache
    requires w.devices[d].cache[id] == Cached(row.blob, row.itemType, row.version)
    requires Unseal(row.blob, Personally(id, row.itemType), k.enc, k.mac).Ok? && RoomForEdit(row, id, k)
    requires SeenOr(w.devices[d].store, id, 0) == RevisionOf(row, id, k) >= 0
    ensures var (w2, ok) := DoEdit(w, d, id, content, k);
            && ok && id in w2.rows && SameElsewhere(w.rows, w2.rows, id)
            && w2.rows[id] == row.(blob := w2.rows[id].blob, version := row.version + 1)
            && Unseal(w2.rows[id].blob, Personally(id, row.itemType), k.enc, k.mac)
               == Ok(DecryptedItem(Plaintext(row.itemType, content), RevisionOf(row, id, k) + 1, 2))
  {
    var b, next := Personally(id, row.itemType), RevisionOf(row, id, k) + 1;
    var p := Plaintext(row.itemType, content);
    assert ItemAad(b, next).Some?;
    assert EncryptItemV2(p, b, next, k.enc).Ok?;
    EnvelopeRoundTrip(p, b, next, k.enc, b, k.enc, k.mac);
    hide Unseal, EncryptItemV2;
    assert EditedRevision(w.devices[d], id, k) == next;
    assert EditedBlob(w.devices[d], id, content, k) == EncryptItemV2(p, b, next, k.enc);
  }

  /** An edit from a cache whose version is not the row's is refused, and changes nothing. */
  lemma StaleEditIsRefused(w: World, d: nat, id: Uuid, content: string, k: Keys)
    requires d in w.devices && id in w.devices[d].cache
    requires id !in w.rows || w.rows[id].version != w.devices[d].cache[id].version
    ensures DoEdit(w, d, id, content, k) == (w, false)
  {
    hide Unseal, EditedBlob;
  }

  /** A new item under an unused id lands at version 1 and revision 1, with the plaintext it was made from. */
  lemma NewItemIsAccepted(w: World, d: nat, id: Uuid, vault: Uuid, vaults: set<Uuid>, p: Plaintext, k: Keys)
    requires Inv(w, k) && d in w.devices && id !in w.used && vault in vaults && |Utf8.Encode(p.itemType)| <= 255
    ensures var w' := DoCreate(w, d, id, vault, vaults, p, k);
            && id in w'.rows && SameElsewhere(w.rows, w'.rows, id) && id in w'.used
            && w'.rows[id] == Row(p.itemType, w'.rows[id].blob, 1, vault, false)
            && Unseal(w'.rows[id].blob, Personally(id, p.itemType), k.enc, k.mac) == Ok(DecryptedItem(p, 1, 2))
  {
    var b := Personally(id, p.itemType);
    assert id !in w.rows && id !in w.devices[d].store.highest;
    hide Inv;
    assert ItemAad(b, 1).Some?;
    assert EncryptItemV2(p, b, 1, k.enc).Ok?;
    EnvelopeRoundTrip(p, b, 1, k.enc, b, k.enc, k.mac);
    hide Unseal, EncryptItemV2;
    assert NextRevision(w.devices[d].store, id, 0) == 1;
  }

  /** With no v1 item left, a listing device publishes the v2-only marker, and every device that fetches it closes v1. */
  lemma MarkerGoesOut(w: World, d: nat, e: nat, k: Keys)
    requires d in w.devices && e in w.devices && LegacyIds(w.rows) == {}
    ensures var w' := Next(Next(Next(w, ListForUpgrade(d), k), PublishMarker(d), k), FetchMarker(e), k);
            w'.marker && d in w'.devices && w'.devices[d].store.v2Only && e in w'.devices && w'.devices[e].store.v2Only && w'.rows == w.rows
  {
    hide Unseal;
  }
}
