/** The inventory editor: the ledger of the employee's store, edited one key at a time and
    saved back to the key-value storage on request. */
module ProductsScreen {
  import opened Wrappers
  import opened Catalog
  import opened Ledger

  /** `Math.max(0, Math.floor(n))` for a typed number: always a non-negative integer. */
  function TypedQuantity(n: real): (q: int)
    ensures q >= 0
    ensures n >= 0.0 ==> q as real <= n < q as real + 1.0
    ensures n < 0.0 ==> q == 0
  {
    if n.Floor >= 0 then n.Floor else 0
  }

  class ProductsDashboard {
    var inventoryMap: Inventory

    constructor ()
      ensures inventoryMap == map[]
    {
      inventoryMap := map[];
    }

    /** The mount effect once the catalog has arrived: exactly the catalog keys, each with the
        value stored for the session's store, or 0. A falsy store id, nothing stored or stored
        text that does not parse all count as an empty stored ledger. */
    method LoadInventory(catalog: seq<Product>, storage: LocalStorage, session: Option<Employee>)
      modifies this
      ensures inventoryMap.Keys == CatalogKeys(catalog)
      ensures inventoryMap == Seeded(catalog, LoadLocal(storage.items, StoreIdOf(session)))
    {
      var localInv := LoadLocal(storage.items, StoreIdOf(session));
      inventoryMap := Seed(catalog, localInv);
    }

    /** `changeInventory(key, value)`: key `key` holds `value`, every other key as before. */
    method ChangeInventory(key: Id, value: int)
      modifies this
      ensures KeyOf(key) in inventoryMap && inventoryMap[KeyOf(key)] == value
      ensures forall k :: k != KeyOf(key) ==> (k in inventoryMap <==> k in old(inventoryMap))
      ensures forall k :: k != KeyOf(key) && k in old(inventoryMap) ==> inventoryMap[k] == old(inventoryMap)[k]
    {
      inventoryMap := inventoryMap[KeyOf(key) := value];
    }

    /** `increment(key)`: the old value (0 when missing) plus one. */
    method Increment(key: Id)
      modifies this
      ensures inventoryMap == old(inventoryMap)[KeyOf(key) := Lookup(old(inventoryMap), KeyOf(key)) + 1]
    {
      ChangeInventory(key, Lookup(inventoryMap, KeyOf(key)) + 1);
    }

    /** `decrement(key)`: the old value (0 when missing) minus one, never below 0. */
    method Decrement(key: Id)
      modifies this
      ensures var was := Lookup(old(inventoryMap), KeyOf(key));
        inventoryMap == old(inventoryMap)[KeyOf(key) := if was >= 1 then was - 1 else 0]
      ensures inventoryMap[KeyOf(key)] >= 0
    {
      var was := Lookup(inventoryMap, KeyOf(key));
      ChangeInventory(key, if was - 1 >= 0 then was - 1 else 0);
    }

    /** `handleInventoryInput(key, val)` with `Number(val)` given: `None` (NaN) changes nothing;
        a number stores `max(0, floor(n))`. */
    method InventoryInput(key: Id, n: Option<real>)
      modifies this
      ensures n.None? ==> inventoryMap == old(inventoryMap)
      ensures n.Some? ==> inventoryMap == old(inventoryMap)[KeyOf(key) := TypedQuantity(n.value)]
      ensures n.Some? ==> inventoryMap[KeyOf(key)] >= 0
    {
      if n.None? {
        return;
      }
      ChangeInventory(key, TypedQuantity(n.value));
    }

    /** `handleSaveInventories`: with a known store the whole map replaces the entry
        `inventario_<storeId>`; without one nothing is written. The result says which. */
    method SaveInventories(storage: LocalStorage, session: Option<Employee>) returns (saved: bool)
      modifies storage
      ensures saved <==> KnownStore(StoreIdOf(session))
      ensures saved ==> storage.items == old(storage.items)[StorageKey(StoreIdOf(session).value) := Some(inventoryMap)]
      ensures !saved ==> storage.items == old(storage.items)
    {
      var tiendaId := StoreIdOf(session);
      saved := KnownStore(tiendaId);
      if saved {
        storage.SetItem(StorageKey(tiendaId.value), inventoryMap);
      }
    }
  }

  /** Increment then decrement restores a non-negative quantity and leaves every other key. */
  method IncrementThenDecrement(d: ProductsDashboard, key: Id)
    requires Lookup(d.inventoryMap, KeyOf(key)) >= 0
    modifies d
    ensures d.inventoryMap == old(d.inventoryMap)[KeyOf(key) := Lookup(old(d.inventoryMap), KeyOf(key))]
    ensures KeyOf(key) in old(d.inventoryMap) ==> d.inventoryMap == old(d.inventoryMap)
  {
    d.Increment(key);
    d.Decrement(key);
  }

  /** A decrement at 0 stays at 0. */
  method DecrementAtZero(d: ProductsDashboard, key: Id)
    requires Lookup(d.inventoryMap, KeyOf(key)) == 0
    modifies d
    ensures KeyOf(key) in d.inventoryMap && d.inventoryMap[KeyOf(key)] == 0
  {
    d.Decrement(key);
  }

  /** After a save, loading with the same catalog and session gives back the edited ledger
      whenever its keys are the catalog's (as they are after loading and editing catalog keys). */
  method SaveThenReload(d: ProductsDashboard, catalog: seq<Product>, storage: LocalStorage, session: Option<Employee>)
    requires d.inventoryMap.Keys == CatalogKeys(catalog)
    requires KnownStore(StoreIdOf(session))
    modifies d, storage
    ensures d.inventoryMap == old(d.inventoryMap)
  {
    ghost var edited := d.inventoryMap;
    ghost var before := storage.items;
    var saved := d.SaveInventories(storage, session);
    SeedAfterSave(catalog, before, StoreIdOf(session).value, edited);
    d.LoadInventory(catalog, storage, session);
  }
}
