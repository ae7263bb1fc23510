/**
 * The server's vault_items rows: optimistic locking and the effects of each
 * write on version and blob (crates/nopass-api/src/db/vaults.rs).
 */
module VaultTable {
  import opened Wrappers
  import opened Bytes
  import opened ItemEnvelope

  datatype Row = Row(itemType: string, blob: Blob, version: nat, vault: Uuid, deleted: bool)

  type Rows = map<Uuid, Row>

  /** Insert, refused if the id exists or the vault does not. */
  function Create(rows: Rows, id: Uuid, vault: Uuid, vaults: set<Uuid>, itemType: string, blob: Blob): (r: (Rows, bool)) {
    if id in rows || vault !in vaults then (rows, false) else (rows[id := Row(itemType, blob, 1, vault, false)], true)
  }

  /** Compare-and-set on the version. */
  function Update(rows: Rows, id: Uuid, blob: Blob, expected: int): (r: (Rows, bool)) {
    if id in rows && rows[id].version == expected then
      (rows[id := rows[id].(blob := blob, version := rows[id].version + 1)], true)
    else (rows, false)
  }

  /** Move to a vault of the same user. */
  function Move(rows: Rows, id: Uuid, to: Uuid, vaults: set<Uuid>): (r: (Rows, bool)) {
    if id in rows && to in vaults then
      (rows[id := rows[id].(vault := to, version := rows[id].version + 1)], true)
    else (rows, false)
  }

  function SoftDelete(rows: Rows, id: Uuid): (r: (Rows, bool)) {
    if id in rows && !rows[id].deleted then (rows[id := rows[id].(deleted := true)], true) else (rows, false)
  }

  /** Deleting an emptied vault takes its tombstones with it. */
  function DropVault(rows: Rows, vault: Uuid): (r: Rows) {
    map id | id in rows && rows[id].vault != vault :: rows[id]
  }

  predicate VaultIsEmpty(rows: Rows, vault: Uuid) {
    forall id :: id in rows && rows[id].vault == vault ==> rows[id].deleted
  }

  /** One user's slice of the table, with the statements that change it. */
  class ItemTable {
    var rows: Rows
    var vaults: set<Uuid>

    constructor (rows: Rows, vaults: set<Uuid>)
      ensures this.rows == rows && this.vaults == vaults
    {
      this.rows, this.vaults := rows, vaults;
    }

    /** The client's id, or the one the database draws. */
    method CreateItem(id: Option<Uuid>, drawn: Uuid, vault: Uuid, itemType: string, blob: Blob) returns (created: Option<Uuid>)
      modifies this`rows
      ensures var key := if id.Some? then id.value else drawn;
              && (rows, created.Some?) == Create(old(rows), key, vault, vaults, itemType, blob)
              && (created.Some? ==> created.value == key)
    {
      var key := if id.Some? then id.value else drawn;
      if key in rows || vault !in vaults {
        return None;
      }
      rows := rows[key := Row(itemType, blob, 1, vault, false)];
      return Some(key);
    }

    method UpdateItem(id: Uuid, blob: Blob, expected: int) returns (ok: bool)
      modifies this`rows
      ensures (rows, ok) == Update(old(rows), id, blob, expected)
    {
      if id !in rows || rows[id].version != expected {
        return false;
      }
      rows := rows[id := rows[id].(blob := blob, version := rows[id].version + 1)];
      return true;
    }

    method MoveItem(id: Uuid, to: Uuid) returns (ok: bool)
      modifies this`rows
      ensures (rows, ok) == Move(old(rows), id, to, vaults)
    {
      if id !in rows || to !in vaults {
        return false;
      }
      rows := rows[id := rows[id].(vault := to, version := rows[id].version + 1)];
      return true;
    }

    method SoftDeleteItem(id: Uuid) returns (ok: bool)
      modifies this`rows
      ensures (rows, ok) == SoftDelete(old(rows), id)
    {
      if id !in rows || rows[id].deleted {
        return false;
      }
      rows := rows[id := rows[id].(deleted := true)];
      return true;
    }

    method DeleteVaultIfSafe(vault: Uuid) returns (ok: bool)
      modifies this
      ensures ok == (vault in old(vaults) && |old(vaults)| > 1 && VaultIsEmpty(old(rows), vault))
      ensures vaults == if ok then old(vaults) - {vault} else old(vaults)
      ensures rows == if ok then DropVault(old(rows), vault) else old(rows)
    {
      if vault !in vaults || |vaults| <= 1 || !VaultIsEmpty(rows, vault) {
        return false;
      }
      rows := map id | id in rows && rows[id].vault != vault :: rows[id];
      vaults := vaults - {vault};
      return true;
    }
  }
}
