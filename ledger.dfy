/** The per-store inventory ledger: a map from product key to on-hand quantity, its durable
    form under `inventario_<storeId>` in the browser's key-value storage, and the seeding that
    merges the stored values with the catalog. */
module Ledger {
  import opened Wrappers
  import opened Catalog

  type Inventory = map<string, int>

  /** What the key-value storage holds under each key, once parsed: `None` stands for text
      that is empty or does not parse as an inventory (both read back as "no data"). */
  type StoredItems = map<string, Option<Inventory>>

  /** `m[k] ?? 0`: a missing key counts as zero. */
  function Lookup(m: Inventory, k: string): int {
    if k in m then m[k] else 0
  }

  /** The storage key of a store's inventory, `inventario_${tiendaId}`. */
  function StorageKey(tiendaId: Id): string {
    "inventario_" + KeyOf(tiendaId)
  }

  /** The stored inventory of a store: empty for a falsy or missing store id, for a key with
      nothing stored, and for stored text that does not parse. */
  function LoadLocal(items: StoredItems, tiendaId: Option<Id>): (inv: Inventory)
    ensures !KnownStore(tiendaId) ==> inv == map[]
    ensures inv != map[] ==> StorageKey(tiendaId.value) in items && items[StorageKey(tiendaId.value)] == Some(inv)
    ensures KnownStore(tiendaId) && StorageKey(tiendaId.value) in items && items[StorageKey(tiendaId.value)].Some? ==>
      inv == items[StorageKey(tiendaId.value)].value
  {
    if !KnownStore(tiendaId) then map[]
    else
      var key := StorageKey(tiendaId.value);
      if key in items && items[key].Some? then items[key].value else map[]
  }

  /** The browser's local storage, reduced to the inventory entries. */
  class LocalStorage {
    var items: StoredItems

    constructor (initial: StoredItems)
      ensures items == initial
    {
      items := initial;
    }

    /** `localStorage.setItem(key, JSON.stringify(inv))`: replaces one entry, keeps the rest. */
    method SetItem(key: string, inv: Inventory)
      modifies this
      ensures items == old(items)[key := Some(inv)]
    {
      items := items[key := Some(inv)];
    }
  }

  /** The ledger the seeding produces: exactly the catalog keys, each with its stored value or 0. */
  function Seeded(catalog: seq<Product>, local: Inventory): Inventory {
    map k | k in CatalogKeys(catalog) :: Lookup(local, k)
  }

  /** The seeding `forEach` of both dashboards: `map[id] = localInv[id] ?? 0` for every product. */
  method Seed(catalog: seq<Product>, local: Inventory) returns (m: Inventory)
    ensures m.Keys == CatalogKeys(catalog)
    ensures forall k :: k in m ==> m[k] == (if k in local then local[k] else 0)
    ensures m == Seeded(catalog, local)
  {
    m := map[];
    for i := 0 to |catalog|
      invariant m.Keys == CatalogKeys(catalog[..i])
      invariant forall k :: k in m ==> m[k] == Lookup(local, k)
    {
      assert catalog[..i + 1] == catalog[..i] + [catalog[i]];
      var id := ProductKey(catalog[i]);
      m := m[id := Lookup(local, id)];
    }
    assert catalog[..|catalog|] == catalog;
  }

  /** Persist/load round trip: after the whole ledger of a known store is saved, seeding again
      with the same catalog gives back the saved values on the catalog keys (0 for a catalog
      key the saved map lacks), and so the very same map when its keys are the catalog's. */
  lemma SeedAfterSave(catalog: seq<Product>, items: StoredItems, tiendaId: Id, saved: Inventory)
    requires Truthy(tiendaId)
    ensures var again := Seeded(catalog, LoadLocal(items[StorageKey(tiendaId) := Some(saved)], Some(tiendaId)));
      && again.Keys == CatalogKeys(catalog)
      && (forall k :: k in again ==> again[k] == Lookup(saved, k))
      && (saved.Keys == CatalogKeys(catalog) ==> again == saved)
  {
    var local := LoadLocal(items[StorageKey(tiendaId) := Some(saved)], Some(tiendaId));
    assert local == saved;
  }
}
