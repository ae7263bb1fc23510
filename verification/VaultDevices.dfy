/**
 * Many devices of one account with an honest server: reads, edits from stale
 * caches, the v1 upgrade and the v2-only marker in any interleaving
 * (packages/crypto/src/item-envelope.ts, crates/nopass-api/src/db/vaults.rs).
 */
module VaultDevices {
  import opened Wrappers
  import opened Bytes
  import opened IdealCrypto
  import opened ItemEnvelope
  import opened VaultTable

  datatype Keys = Keys(enc: ByteString, mac: ByteString)

  /** A row as a device last received it. */
  datatype Cached = Cached(blob: Blob, itemType: string, version: nat)

  /** `toUpgrade`: after a full listing, the v1 items this device has not yet rewritten. */
  datatype Device = Device(store: Revisions, cache: map<Uuid, Cached>, toUpgrade: Option<set<Uuid>>)

  /** `used`: every item id ever chosen; `marker`: the v2-only marker is on the server. */
  datatype World = World(rows: Rows, devices: map<nat, Device>, used: set<Uuid>, marker: bool)

  datatype Action =
    | Fetch(d: nat, id: Uuid)
    | Reread(d: nat, id: Uuid)
    | Edit(d: nat, id: Uuid, content: string)
    | LostEdit(d: nat, id: Uuid, content: string)
    | CreateNew(d: nat, id: Uuid, vault: Uuid, vaults: set<Uuid>, plaintext: Plaintext)
    | LostCreate(d: nat, id: Uuid, vault: Uuid, vaults: set<Uuid>, plaintext: Plaintext)
    | ListForUpgrade(d: nat)
    | PublishMarker(d: nat)
    | FetchMarker(d: nat)
    | AddDevice(d: nat)
    | MoveRow(id: Uuid, to: Uuid, vaults: set<Uuid>)
    | DeleteRow(id: Uuid)
    | DeleteVault(vault: Uuid)

  function Personally(id: Uuid, itemType: string): Binding {
    Binding(Personal, id, itemType)
  }

  function LegacyIds(rows: Rows): set<Uuid> {
    set id | id in rows && IsLegacy(rows[id].blob)
  }

  /** Read the current row into the cache and decrypt it. */
  function DoFetch(w: World, d: nat, id: Uuid, k: Keys): World
    requires d in w.devices
  {
    if id !in w.rows then w
    else
      var row, dev := w.rows[id], w.devices[d];
      var store := Decrypt(row.blob, Personally(id, row.itemType), k.enc, k.mac, dev.store).1;
      w.(devices := w.devices[d := dev.(store := store, cache := dev.cache[id := Cached(row.blob, row.itemType, row.version)])])
  }

  /** Decrypt the cached row again. */
  function DoReread(w: World, d: nat, id: Uuid, k: Keys): World
    requires d in w.devices
  {
    var dev := w.devices[d];
    if id !in dev.cache then w
    else
      var c := dev.cache[id];
      w.(devices := w.devices[d := dev.(store := Decrypt(c.blob, Personally(id, c.itemType), k.enc, k.mac, dev.store).1)])
  }

  /** The blob an edit of the cached row writes. */
  function EditedBlob(dev: Device, id: Uuid, content: string, k: Keys): Result<Blob, ItemError>
    requires id in dev.cache
  {
    var c := dev.cache[id];
    match Unseal(c.blob, Personally(id, c.itemType), k.enc, k.mac)
    case Err(e) => Err(e)
    case Ok(current) =>
      EncryptVaultItem(Plaintext(c.itemType, content), Personally(id, c.itemType), k.enc, dev.store, current.revision)
  }

  /** The revision that edit is written at. */
  function EditedRevision(dev: Device, id: Uuid, k: Keys): int
    requires id in dev.cache
    requires Unseal(dev.cache[id].blob, Personally(id, dev.cache[id].itemType), k.enc, k.mac).Ok?
  {
    var c := dev.cache[id];
    NextRevision(dev.store, id, Unseal(c.blob, Personally(id, c.itemType), k.enc, k.mac).value.revision)
  }

  /** Send the edit with the cached version; record its revision only if the server took it. */
  function DoEdit(w: World, d: nat, id: Uuid, content: string, k: Keys): (r: (World, bool))
    requires d in w.devices
  {
    var dev := w.devices[d];
    if id !in dev.cache then (w, false)
    else
      var edited := EditedBlob(dev, id, content, k);
      if edited.Err? then (w, false)
      else
        var (rows, ok) := Update(w.rows, id, edited.value, dev.cache[id].version);
        if !ok then (w, false)
        else
          var c := Cached(edited.value, dev.cache[id].itemType, dev.cache[id].version + 1);
          var after := dev.(store := dev.store.Recorded(id, EditedRevision(dev, id, k)),
                            cache := dev.cache[id := c],
                            toUpgrade := if dev.toUpgrade.Some? then Some(dev.toUpgrade.value - {id}) else None);
          (w.(rows := rows, devices := w.devices[d := after]), true)
  }

  function DoCreate(w: World, d: nat, id: Uuid, vault: Uuid, vaults: set<Uuid>, p: Plaintext, k: Keys): World
    requires d in w.devices
  {
    var dev := w.devices[d];
    var sealed := EncryptVaultItem(p, Personally(id, p.itemType), k.enc, dev.store, 0);
    if id in w.used || sealed.Err? then w
    else
      var (rows, ok) := Create(w.rows, id, vault, vaults, p.itemType, sealed.value);
      if !ok then w
      else
        var after := dev.(store := dev.store.Recorded(id, NextRevision(dev.store, id, 0)),
                          cache := dev.cache[id := Cached(sealed.value, p.itemType, 1)]);
        w.(rows := rows, devices := w.devices[d := after], used := w.used + {id})
  }

  /** The server took a write, but the device never heard: it records nothing and keeps its cache. */
  function Unanswered(w: World, after: World): World {
    after.(devices := w.devices)
  }

  function Next(w: World, a: Action, k: Keys): World {
    match a
    case Fetch(d, id) => if d in w.devices then DoFetch(w, d, id, k) else w
    case Reread(d, id) => if d in w.devices then DoReread(w, d, id, k) else w
    case Edit(d, id, content) => if d in w.devices then DoEdit(w, d, id, content, k).0 else w
    case LostEdit(d, id, content) => if d in w.devices then Unanswered(w, DoEdit(w, d, id, content, k).0) else w
    case CreateNew(d, id, vault, vaults, p) => if d in w.devices then DoCreate(w, d, id, vault, vaults, p, k) else w
    case LostCreate(d, id, vault, vaults, p) => if d in w.devices then Unanswered(w, DoCreate(w, d, id, vault, vaults, p, k)) else w
    case ListForUpgrade(d) =>
      if d in w.devices then w.(devices := w.devices[d := w.devices[d].(toUpgrade := Some(LegacyIds(w.rows)))]) else w
    case PublishMarker(d) =>
      if d in w.devices && w.devices[d].toUpgrade == Some({}) then
        w.(marker := true, devices := w.devices[d := w.devices[d].(store := w.devices[d].store.(v2Only := true))])
      else w
    case FetchMarker(d) =>
      if d in w.devices && w.marker then
        w.(devices := w.devices[d := w.devices[d].(store := w.devices[d].store.(v2Only := true))])
      else w
    case AddDevice(d) => if d in w.devices then w else w.(devices := w.devices[d := Device(Revisions(map[], false), map[], None)])
    case MoveRow(id, to, vaults) => w.(rows := Move(w.rows, id, to, vaults).0)
    case DeleteRow(id) => w.(rows := SoftDelete(w.rows, id).0)
    case DeleteVault(vault) => if VaultIsEmpty(w.rows, vault) then w.(rows := DropVault(w.rows, vault)) else w
  }

  // ── Invariant ──────────────────────────────────────────────────────────────

  function RevisionOf(row: Row, id: Uuid, k: Keys): int
    requires Unseal(row.blob, Personally(id, row.itemType), k.enc, k.mac).Ok?
  {
    Unseal(row.blob, Personally(id, row.itemType), k.enc, k.mac).value.revision
  }

  /** Every stored blob opens as the item it is stored as. */
  ghost predicate RowsOpen(rows: Rows, k: Keys) {
    forall id :: id in rows ==> Unseal(rows[id].blob, Personally(id, rows[id].itemType), k.enc, k.mac).Ok?
  }

  /** No recorded revision is ahead of the server, and no cached row is. */
  ghost predicate DeviceBehind(dev: Device, rows: Rows, k: Keys)
    requires RowsOpen(rows, k)
  {
    && (forall id :: id in dev.store.highest && id in rows ==> dev.store.highest[id] <= RevisionOf(rows[id], id, k))
    && (forall id :: id in dev.cache && id in rows ==> CacheBehind(dev.cache[id], rows[id], id, k))
  }

  /** A cached row is the current one, or an older version of it at no higher revision. */
  ghost predicate CacheBehind(c: Cached, row: Row, id: Uuid, k: Keys)
    requires Unseal(row.blob, Personally(id, row.itemType), k.enc, k.mac).Ok?
  {
    var r := Unseal(c.blob, Personally(id, c.itemType), k.enc, k.mac);
    && c.itemType == row.itemType
    && c.version <= row.version
    && (c.version == row.version ==> c.blob == row.blob)
    && r.Ok?
    && r.value.revision <= RevisionOf(row, id, k)
  }

  ghost predicate KnowsOnlyUsed(dev: Device, used: set<Uuid>) {
    dev.store.highest.Keys <= used && dev.cache.Keys <= used
  }

  /** A device that refuses v1, or is about to announce it may be refused, is right about the server. */
  ghost predicate FormatKnown(dev: Device, rows: Rows) {
    && (dev.store.v2Only ==> LegacyIds(rows) == {})
    && (dev.toUpgrade.Some? ==> LegacyIds(rows) <= dev.toUpgrade.value)
  }

  ghost predicate Inv(w: World, k: Keys) {
    && RowsOpen(w.rows, k)
    && w.rows.Keys <= w.used
    && (w.marker ==> LegacyIds(w.rows) == {})
    && (forall d :: d in w.devices ==>
          && DeviceBehind(w.devices[d], w.rows, k)
          && KnowsOnlyUsed(w.devices[d], w.used)
          && FormatKnown(w.devices[d], w.rows))
  }

  /** Rows only move on: still open, at no lower revision and version, and never back to v1. */
  ghost predicate Advances(before: Rows, after: Rows, k: Keys) {
    && RowsOpen(before, k)
    && RowsOpen(after, k)
    && (forall id :: id in before && id in after ==> RowAdvances(before[id], after[id], id, k))
    && LegacyIds(after) <= LegacyIds(before)
  }

  ghost predicate RowAdvances(a: Row, b: Row, id: Uuid, k: Keys)
    requires Unseal(a.blob, Personally(id, a.itemType), k.enc, k.mac).Ok?
    requires Unseal(b.blob, Personally(id, b.itemType), k.enc, k.mac).Ok?
  {
    && a.itemType == b.itemType
    && a.version <= b.version
    && (a.version == b.version ==> a.blob == b.blob)
    && RevisionOf(a, id, k) <= RevisionOf(b, id, k)
  }

  lemma StaysBehind(dev: Device, before: Rows, after: Rows, used: set<Uuid>, k: Keys)
    requires Advances(before, after, k)
    requires before.Keys <= used
    requires forall id :: id in after && id !in before ==> id !in used
    requires DeviceBehind(dev, before, k) && KnowsOnlyUsed(dev, used) && FormatKnown(dev, before)
    ensures DeviceBehind(dev, after, k) && FormatKnown(dev, after)
  {
    hide Unseal;
    forall id | id in dev.store.highest && id in after
      ensures dev.store.highest[id] <= RevisionOf(after[id], id, k)
    {
      assert id in before;
      assert RowAdvances(before[id], after[id], id, k);
    }
    forall id | id in dev.cache && id in after
      ensures CacheBehind(dev.cache[id], after[id], id, k)
    {
      assert id in before;
      assert RowAdvances(before[id], after[id], id, k);
      assert CacheBehind(dev.cache[id], before[id], id, k);
    }
  }

  /** A change of rows alone keeps the invariant when the rows only move on. */
  lemma RowsStep(w: World, after: Rows, k: Keys)
    requires Inv(w, k)
    requires Advances(w.rows, after, k)
    requires after.Keys <= w.rows.Keys
    ensures Inv(w.(rows := after), k)
  {
    hide Unseal;
    forall d | d in w.devices
      ensures DeviceBehind(w.devices[d], after, k) && FormatKnown(w.devices[d], after)
    {
      StaysBehind(w.devices[d], w.rows, after, w.used, k);
    }
  }

  /** A change of one device alone keeps the invariant when that device stays behind the server. */
  lemma DeviceStep(w: World, d: nat, dev: Device, k: Keys)
    requires Inv(w, k)
    requires DeviceBehind(dev, w.rows, k) && KnowsOnlyUsed(dev, w.used) && FormatKnown(dev, w.rows)
    ensures Inv(w.(devices := w.devices[d := dev]), k)
  {
    hide Unseal;
  }

  lemma FetchKeepsInv(w: World, d: nat, id: Uuid, k: Keys)
    requires Inv(w, k) && d in w.devices
    ensures Inv(DoFetch(w, d, id, k), k)
  {
    hide Unseal;
    if id in w.rows {
      var row, dev := w.rows[id], w.devices[d];
      var r := Decrypt(row.blob, Personally(id, row.itemType), k.enc, k.mac, dev.store);
      var dev' := dev.(store := r.1, cache := dev.cache[id := Cached(row.blob, row.itemType, row.version)]);
      forall i | i in dev'.cache && i in w.rows
        ensures CacheBehind(dev'.cache[i], w.rows[i], i, k)
      {
        assert i != id ==> CacheBehind(dev.cache[i], w.rows[i], i, k);
      }
      DeviceStep(w, d, dev', k);
    }
  }

  lemma RereadKeepsInv(w: World, d: nat, id: Uuid, k: Keys)
    requires Inv(w, k) && d in w.devices
    ensures Inv(DoReread(w, d, id, k), k)
  {
    hide Unseal;
    var dev := w.devices[d];
    if id in dev.cache {
      var c := dev.cache[id];
      var store := Decrypt(c.blob, Personally(id, c.itemType), k.enc, k.mac, dev.store).1;
      assert id in w.rows ==> CacheBehind(c, w.rows[id], id, k);
      DeviceStep(w, d, dev.(store := store), k);
    }
  }

  /** An edit the server accepts replaced the blob it was made from, so it strictly raises the revision. */
  lemma AcceptedEditRaisesRevision(w: World, d: nat, id: Uuid, content: string, k: Keys)
    requires Inv(w, k) && d in w.devices
    requires DoEdit(w, d, id, content, k).1
    ensures var w' := DoEdit(w, d, id, content, k).0;
            && id in w.rows && id in w'.rows
            && w'.rows[id].itemType == w.rows[id].itemType
            && !IsLegacy(w'.rows[id].blob)
            && Unseal(w'.rows[id].blob, Personally(id, w'.rows[id].itemType), k.enc, k.mac)
               == Ok(DecryptedItem(Plaintext(w.rows[id].itemType, content), EditedRevision(w.devices[d], id, k), 2))
            && RevisionOf(w.rows[id], id, k) < RevisionOf(w'.rows[id], id, k)
  {
    var dev := w.devices[d];
    var c := dev.cache[id];
    assert CacheBehind(c, w.rows[id], id, k);
    EnvelopeRoundTrip(Plaintext(c.itemType, content), Personally(id, c.itemType), EditedRevision(dev, id, k), k.enc,
                      Personally(id, c.itemType), k.enc, k.mac);
    hide Unseal;
  }

  /** `dev` after it wrote `row` as item `id` and the server took it. */
  ghost predicate WroteRow(dev: Device, after: Device, id: Uuid, row: Row, k: Keys)
    requires Unseal(row.blob, Personally(id, row.itemType), k.enc, k.mac).Ok?
  {
    && after.store == dev.store.Recorded(id, RevisionOf(row, id, k))
    && after.cache == dev.cache[id := Cached(row.blob, row.itemType, row.version)]
    && (after.toUpgrade == dev.toUpgrade
        || (dev.toUpgrade.Some? && after.toUpgrade == Some(dev.toUpgrade.value - {id})))
  }

  lemma WriteAdvances(w: World, id: Uuid, row: Row, k: Keys)
    requires Inv(w, k)
    requires Unseal(row.blob, Personally(id, row.itemType), k.enc, k.mac).Ok? && !IsLegacy(row.blob)
    requires if id in w.rows then RowAdvances(w.rows[id], row, id, k) else id !in w.used
    ensures Advances(w.rows, w.rows[id := row], k)
    ensures id !in LegacyIds(w.rows[id := row])
    ensures forall d :: d in w.devices ==>
              DeviceBehind(w.devices[d], w.rows[id := row], k) && FormatKnown(w.devices[d], w.rows[id := row])
  {
    hide Unseal;
    var rows := w.rows[id := row];
    assert Advances(w.rows, rows, k);
    forall d | d in w.devices
      ensures DeviceBehind(w.devices[d], rows, k) && FormatKnown(w.devices[d], rows)
    {
      StaysBehind(w.devices[d], w.rows, rows, w.used, k);
    }
  }

  lemma WriterStaysBehind(dev: Device, after: Device, rows: Rows, id: Uuid, used: set<Uuid>, k: Keys)
    requires RowsOpen(rows, k) && id in rows && id !in LegacyIds(rows)
    requires DeviceBehind(dev, rows, k) && KnowsOnlyUsed(dev, used) && FormatKnown(dev, rows)
    requires WroteRow(dev, after, id, rows[id], k)
    ensures DeviceBehind(after, rows, k) && KnowsOnlyUsed(after, used + {id}) && FormatKnown(after, rows)
  {
    hide Unseal;
    forall i | i in after.cache && i in rows
      ensures CacheBehind(after.cache[i], rows[i], i, k)
    {
      assert i != id ==> CacheBehind(dev.cache[i], rows[i], i, k);
    }
  }

  lemma WriteKeepsInv(w: World, d: nat, id: Uuid, row: Row, after: Device, k: Keys)
    requires Inv(w, k) && d in w.devices
    requires Unseal(row.blob, Personally(id, row.itemType), k.enc, k.mac).Ok? && !IsLegacy(row.blob)
    requires if id in w.rows then RowAdvances(w.rows[id], row, id, k) else id !in w.used
    requires WroteRow(w.devices[d], after, id, row, k)
    ensures Inv(World(w.rows[id := row], w.devices[d := after], w.used + {id}, w.marker), k)
    ensures Inv(World(w.rows[id := row], w.devices, w.used + {id}, w.marker), k)
  {
    WriteAdvances(w, id, row, k);
    WriterStaysBehind(w.devices[d], after, w.rows[id := row], id, w.used, k);
    hide Unseal, DeviceBehind, RowAdvances;
  }

  /** An accepted edit writes one row, ahead of the old one, and its device knows it. */
  lemma EditWrites(w: World, d: nat, id: Uuid, content: string, k: Keys)
    requires Inv(w, k) && d in w.devices && DoEdit(w, d, id, content, k).1
    ensures var w' := DoEdit(w, d, id, content, k).0;
            && id in w.rows && id in w'.rows && d in w'.devices
            && Unseal(w'.rows[id].blob, Personally(id, w'.rows[id].itemType), k.enc, k.mac).Ok? && !IsLegacy(w'.rows[id].blob)
            && RowAdvances(w.rows[id], w'.rows[id], id, k)
            && WroteRow(w.devices[d], w'.devices[d], id, w'.rows[id], k)
            && w' == w.(rows := w.rows[id := w'.rows[id]], devices := w.devices[d := w'.devices[d]])
  {
    AcceptedEditRaisesRevision(w, d, id, content, k);
    EditShape(w, d, id, content, k);
    assert CacheBehind(w.devices[d].cache[id], w.rows[id], id, k);
    assert w.rows[id].itemType == w.devices[d].cache[id].itemType;
    hide DoEdit, Unseal, EditedBlob, EditedRevision, DeviceBehind, FormatKnown, Inv, CacheBehind;
  }

  lemma EditShape(w: World, d: nat, id: Uuid, content: string, k: Keys)
    requires d in w.devices && DoEdit(w, d, id, content, k).1
    ensures var dev, w' := w.devices[d], DoEdit(w, d, id, content, k).0;
            && id in dev.cache && id in w.rows && w.rows[id].version == dev.cache[id].version && id in w'.rows && d in w'.devices
            && w'.rows[id] == w.rows[id].(blob := w'.rows[id].blob, version := w.rows[id].version + 1)
            && Unseal(dev.cache[id].blob, Personally(id, dev.cache[id].itemType), k.enc, k.mac).Ok?
            && w'.devices[d].store == dev.store.Recorded(id, EditedRevision(dev, id, k))
            && w'.devices[d].cache == dev.cache[id := Cached(w'.rows[id].blob, dev.cache[id].itemType, w'.rows[id].version)]
            && w'.devices[d].toUpgrade == (if dev.toUpgrade.Some? then Some(dev.toUpgrade.value - {id}) else None)
            && w' == w.(rows := w.rows[id := w'.rows[id]], devices := w.devices[d := w'.devices[d]])
  {
    hide Unseal, EncryptVaultItem, EditedRevision;
  }

  lemma EditKeepsInv(w: World, d: nat, id: Uuid, content: string, k: Keys)
    requires Inv(w, k) && d in w.devices
    ensures Inv(DoEdit(w, d, id, content, k).0, k) && Inv(Unanswered(w, DoEdit(w, d, id, content, k).0), k)
  {
    var (w', ok) := DoEdit(w, d, id, content, k);
    if ok {
      EditWrites(w, d, id, content, k);
      assert w.used + {id} == w.used;
      hide DoEdit, Unseal, Inv, RowAdvances, WroteRow;
      WriteKeepsInv(w, d, id, w'.rows[id], w'.devices[d], k);
    }
  }

  lemma CreateKeepsInv(w: World, d: nat, id: Uuid, vault: Uuid, vaults: set<Uuid>, p: Plaintext, k: Keys)
    requires Inv(w, k) && d in w.devices
    ensures Inv(DoCreate(w, d, id, vault, vaults, p, k), k) && Inv(Unanswered(w, DoCreate(w, d, id, vault, vaults, p, k)), k)
  {
    var w' := DoCreate(w, d, id, vault, vaults, p, k);
    if w' != w {
      var b, store := Personally(id, p.itemType), w.devices[d].store;
      EnvelopeRoundTrip(p, b, NextRevision(store, id, 0), k.enc, b, k.enc, k.mac);
      hide Unseal, ItemAad;
      WriteKeepsInv(w, d, id, w'.rows[id], w'.devices[d], k);
    }
  }

  lemma RowEditsKeepInv(w: World, a: Action, k: Keys)
    requires Inv(w, k)
    requires a.MoveRow? || a.DeleteRow? || a.DeleteVault?
    ensures Inv(Next(w, a, k), k)
  {
    RowEditAdvances(w, a, k);
    hide Unseal, Inv, Advances, Move, SoftDelete, DropVault;
    RowsStep(w, Next(w, a, k).rows, k);
  }

  lemma RowEditAdvances(w: World, a: Action, k: Keys)
    requires RowsOpen(w.rows, k) && (a.MoveRow? || a.DeleteRow? || a.DeleteVault?)
    ensures Advances(w.rows, Next(w, a, k).rows, k) && Next(w, a, k).rows.Keys <= w.rows.Keys
  {
    hide Unseal;
  }

  lemma NextKeepsInv(w: World, a: Action, k: Keys)
    requires Inv(w, k)
    ensures Inv(Next(w, a, k), k)
  {
    hide Inv, DoFetch, DoReread, DoEdit, DoCreate, Unanswered, Unseal;
    match a
    case Fetch(d, id) => if d in w.devices { FetchKeepsInv(w, d, id, k); }
    case Reread(d, id) => if d in w.devices { RereadKeepsInv(w, d, id, k); }
    case Edit(d, id, content) => if d in w.devices { EditKeepsInv(w, d, id, content, k); }
    case LostEdit(d, id, content) => if d in w.devices { EditKeepsInv(w, d, id, content, k); }
    case CreateNew(d, id, vault, vaults, p) => if d in w.devices { CreateKeepsInv(w, d, id, vault, vaults, p, k); }
    case LostCreate(d, id, vault, vaults, p) => if d in w.devices { CreateKeepsInv(w, d, id, vault, vaults, p, k); }
    case ListForUpgrade(d) => FormatKeepsInv(w, a, k);
    case PublishMarker(d) => FormatKeepsInv(w, a, k);
    case FetchMarker(d) => FormatKeepsInv(w, a, k);
    case AddDevice(d) => FormatKeepsInv(w, a, k);
    case MoveRow(_, _, _) => RowEditsKeepInv(w, a, k);
    case DeleteRow(_) => RowEditsKeepInv(w, a, k);
    case DeleteVault(_) => RowEditsKeepInv(w, a, k);
  }

  /** Listing, marking and new devices touch one device and no row. */
  lemma FormatKeepsInv(w: World, a: Action, k: Keys)
    requires Inv(w, k) && (a.ListForUpgrade? || a.PublishMarker? || a.FetchMarker? || a.AddDevice?)
    ensures Inv(Next(w, a, k), k)
  {
    hide Unseal;
    match a
    case ListForUpgrade(d) =>
      if d in w.devices { DeviceStep(w, d, w.devices[d].(toUpgrade := Some(LegacyIds(w.rows))), k); }
    case PublishMarker(d) =>
      if d in w.devices && w.devices[d].toUpgrade == Some({}) {
        assert FormatKnown(w.devices[d], w.rows);
        DeviceStep(w, d, w.devices[d].(store := w.devices[d].store.(v2Only := true)), k);
      }
    case FetchMarker(d) =>
      if d in w.devices && w.marker {
        DeviceStep(w, d, w.devices[d].(store := w.devices[d].store.(v2Only := true)), k);
      }
    case AddDevice(d) =>
      if d !in w.devices { DeviceStep(w, d, Device(Revisions(map[], false), map[], None), k); }
  }

  function Run(w: World, actions: seq<Action>, k: Keys): World {
    if actions == [] then w else Next(Run(w, actions[..|actions| - 1], k), actions[|actions| - 1], k)
  }

  lemma {:induction false} RunKeepsInv(w: World, actions: seq<Action>, k: Keys)
    requires Inv(w, k)
    ensures Inv(Run(w, actions, k), k)
  {
    if actions != [] {
      RunKeepsInv(w, actions[..|actions| - 1], k);
      NextKeepsInv(Run(w, actions[..|actions| - 1], k), actions[|actions| - 1], k);
    }
  }

  /** An account before any device has a history: any mix of v1 and v2 items that open. */
  ghost predicate Start(w: World, k: Keys) {
    RowsOpen(w.rows, k) && w.rows.Keys <= w.used && w.devices == map[] && !w.marker
  }

  /** In every run no device ever refuses the server's current copy of an item. */
  lemma NoFalseAlarm(w: World, actions: seq<Action>, d: nat, id: Uuid, k: Keys)
    requires Start(w, k)
    requires var now := Run(w, actions, k); d in now.devices && id in now.rows
    ensures var now := Run(w, actions, k);
            Decrypt(now.rows[id].blob, Personally(id, now.rows[id].itemType), k.enc, k.mac, now.devices[d].store).0
            == Unseal(now.rows[id].blob, Personally(id, now.rows[id].itemType), k.enc, k.mac)
    ensures var now := Run(w, actions, k);
            Unseal(now.rows[id].blob, Personally(id, now.rows[id].itemType), k.enc, k.mac).Ok?
  {
    hide Unseal;
    assert Inv(w, k);
    RunKeepsInv(w, actions, k);
    var now := Run(w, actions, k);
    assert id !in LegacyIds(now.rows) || !now.devices[d].store.v2Only;
    assert DeviceBehind(now.devices[d], now.rows, k);
    SeenRevisionIsNatural(now.rows[id], id, k);
  }

  lemma SeenRevisionIsNatural(row: Row, id: Uuid, k: Keys)
    requires Unseal(row.blob, Personally(id, row.itemType), k.enc, k.mac).Ok?
    ensures RevisionOf(row, id, k) >= 0
  {
  }
}
