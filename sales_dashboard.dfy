/** The sales dashboard: the in-memory inventory map and the cart of one sales session, and
    the sale that commits the cart against the stored ledger of the employee's store. */
module SalesScreen {
  import opened Wrappers
  import opened Catalog
  import opened Ledger
  import opened Cart

  /** The receipt of a sale: the sold lines and the total (the document layout is not modelled). */
  datatype Receipt = Receipt(lines: seq<CartItem>, total: real)

  class SalesDashboard {
    var inventoryMap: Inventory
    var cart: seq<CartItem>

    /** The cart invariant the add and remove handlers keep. */
    ghost predicate Valid()
      reads this
    {
      WellFormed(cart, inventoryMap)
    }

    /** The component's initial state: `useState({})` and `useState([])`. */
    constructor ()
      ensures inventoryMap == map[] && cart == []
      ensures Valid()
    {
      inventoryMap := map[];
      cart := [];
    }

    /** The mount effect once the catalog has arrived: the stored ledger of the session's store
        merged with the catalog, a missing value counting as 0; the cart is not touched. */
    method LoadInventory(catalog: seq<Product>, storage: LocalStorage, session: Option<Employee>)
      modifies this`inventoryMap
      ensures inventoryMap.Keys == CatalogKeys(catalog)
      ensures inventoryMap == Seeded(catalog, LoadLocal(storage.items, StoreIdOf(session)))
      ensures cart == old(cart)
      ensures old(cart) == [] ==> Valid()
    {
      var localInv := LoadLocal(storage.items, StoreIdOf(session));
      inventoryMap := Seed(catalog, localInv);
    }

    /** `handleAddToCart(p)`: no effect without stock; otherwise one more unit of a product
        already in the cart while below the stock, or a new line with quantity 1 at the end.
        The inventory map is only read. */
    method AddToCart(p: Product)
      requires Valid()
      modifies this`cart
      ensures cart == Add(old(cart), inventoryMap, p)
      ensures inventoryMap == old(inventoryMap)
      ensures Valid()
    {
      ghost var before := cart;
      var id := IdOf(p);
      var inv := Stock(inventoryMap, id);
      if inv <= 0 {
        AddKeeps(cart, inventoryMap, p);
        AddPreservesWellFormed(cart, inventoryMap, p);
        return;
      }
      var idx := FindIndex(cart, id);
      if idx >= 0 {
        if cart[idx].cantidad < inv {
          AddIncrements(cart, inventoryMap, p, idx);
          cart := cart[idx := cart[idx].(cantidad := cart[idx].cantidad + 1)];
        } else {
          AddKeeps(cart, inventoryMap, p);
        }
      } else {
        AddAppends(cart, inventoryMap, p);
        cart := cart + [NewLine(p)];
      }
      AddPreservesWellFormed(before, inventoryMap, p);
    }

    /** `handleRemoveFromCart(id)`: every line with that id goes, the others stay in order. */
    method RemoveFromCart(id: Id)
      requires Valid()
      modifies this`cart
      ensures cart == Remove(old(cart), id)
      ensures inventoryMap == old(inventoryMap)
      ensures Valid()
    {
      RemovePreservesWellFormed(cart, inventoryMap, id);
      cart := Remove(cart, id);
    }

    /** `handleRealizarVenta`: with a known store, the stored ledger of that store is read
        again and each line's quantity is taken off its key, clamped at 0; the result is stored
        under the same key and becomes the inventory map. Without a store nothing is stored and
        the map stays. A receipt with the cart's total is produced when the cart is not empty,
        and the cart is emptied in every case. */
    method CompleteSale(storage: LocalStorage, session: Option<Employee>) returns (receipt: Option<Receipt>)
      requires Valid()
      modifies this, storage
      ensures var tiendaId := StoreIdOf(session);
        if KnownStore(tiendaId) then
          var sold := Decremented(LoadLocal(old(storage.items), tiendaId), old(cart));
          && storage.items == old(storage.items)[StorageKey(tiendaId.value) := Some(sold)]
          && inventoryMap == sold
        else
          && storage.items == old(storage.items)
          && inventoryMap == old(inventoryMap)
      ensures receipt == if old(cart) == [] then None else Some(Receipt(old(cart), Total(old(cart))))
      ensures cart == [] && Valid()
    {
      var tiendaId := StoreIdOf(session);
      if KnownStore(tiendaId) {
        var localInv := LoadLocal(storage.items, tiendaId);
        localInv := ApplySale(localInv, cart);
        storage.SetItem(StorageKey(tiendaId.value), localInv);
        inventoryMap := localInv;
      }
      if |cart| > 0 {
        receipt := Some(Receipt(cart, Total(cart)));
      } else {
        receipt := None;
      }
      cart := [];
    }
  }

  /** The `cart.forEach` of `handleRealizarVenta`: for each line in turn, the stored quantity of
      its key (0 when missing) becomes `max(0, prev - cantidad)`. The result is the closed form
      `Decremented`; quantities are not negative, as the cart invariant guarantees. */
  method ApplySale(local: Inventory, lines: seq<CartItem>) returns (localInv: Inventory)
    requires NonNegative(lines)
    ensures localInv == Decremented(local, lines)
  {
    localInv := local;
    DecrementedEmpty(local);
    for i := 0 to |lines|
      invariant localInv == Decremented(local, lines[..i])
    {
      DecrementedPrefixStep(local, lines, i);
      var key := KeyOf(lines[i].productId);
      var prev := Lookup(localInv, key);
      localInv := localInv[key := Max(0, prev - lines[i].cantidad)];
    }
    assert lines[..|lines|] == lines;
  }

  /** A client of the class: from a freshly loaded dashboard, any clicks on "add" and "remove"
      keep the cart well formed, and the sale afterwards leaves an empty cart. */
  method SalesSession(d: SalesDashboard, catalog: seq<Product>, storage: LocalStorage,
                      session: Option<Employee>, events: seq<CartEvent>) returns (receipt: Option<Receipt>)
    requires d.cart == []
    modifies d, storage
    ensures d.cart == []
  {
    d.LoadInventory(catalog, storage, session);
    for i := 0 to |events|
      invariant d.Valid()
    {
      match events[i]
      case AddEvent(p) => d.AddToCart(p);
      case RemoveEvent(id) => d.RemoveFromCart(id);
    }
    receipt := d.CompleteSale(storage, session);
  }
}
