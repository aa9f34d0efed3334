/** The point-of-sale cart of the sales dashboard as values: the lines, how adding and removing
    a product changes them, the receipt total, and the decrement a completed sale applies to the
    stored ledger. Adding to the cart reserves nothing: the inventory is only read. */
module Cart {
  import opened Wrappers
  import opened Catalog
  import opened Ledger

  datatype CartItem = CartItem(productId: Id, nombreModelo: string, cantidad: int, precioVenta: Option<real>)

  /** The quantity on hand for a product id (`inventoryMap[id] ?? 0`). */
  function Stock(inv: Inventory, id: Id): int {
    Lookup(inv, KeyOf(id))
  }

  /** The cart invariant: one line per product id, and every quantity between 1 and the stock. */
  ghost predicate WellFormed(cart: seq<CartItem>, inv: Inventory) {
    && (forall i, j :: 0 <= i < |cart| && 0 <= j < |cart| && cart[i].productId == cart[j].productId ==> i == j)
    && (forall i :: 0 <= i < |cart| ==> 1 <= cart[i].cantidad <= Stock(inv, cart[i].productId))
  }

  /** `findIndex(item => item.productId === id)`: the first line with that id, or -1. */
  function FindIndex(cart: seq<CartItem>, id: Id): (r: int)
    ensures -1 <= r < |cart|
    ensures r == -1 <==> forall i :: 0 <= i < |cart| ==> cart[i].productId != id
    ensures r >= 0 ==> cart[r].productId == id && forall i :: 0 <= i < r ==> cart[i].productId != id
  {
    if cart == [] then -1
    else if cart[0].productId == id then 0
    else
      var r := FindIndex(cart[1..], id);
      if r == -1 then -1 else r + 1
  }

  /** The quantity of a product in the cart, 0 when it has no line. */
  function QuantityOf(cart: seq<CartItem>, id: Id): int {
    var k := FindIndex(cart, id);
    if k < 0 then 0 else cart[k].cantidad
  }

  /** The line `handleAddToCart` appends for a product not yet in the cart. */
  function NewLine(p: Product): CartItem {
    CartItem(IdOf(p), p.nombreModelo, 1, SalePrice(p))
  }

  /** The cart after `handleAddToCart(p)`: nothing changes when the stock is 0 or less; a product
      already in the cart gains exactly one unit while below the stock, at its own position;
      a new product is appended with quantity 1 behind the existing lines. */
  function Add(cart: seq<CartItem>, inv: Inventory, p: Product): (r: seq<CartItem>)
    ensures Stock(inv, IdOf(p)) <= 0 ==> r == cart
    ensures Stock(inv, IdOf(p)) > 0 && FindIndex(cart, IdOf(p)) < 0 ==> r == cart + [NewLine(p)]
    ensures var k := FindIndex(cart, IdOf(p));
      k >= 0 ==>
        && |r| == |cart| && r == cart[k := r[k]]
        && r[k] == cart[k].(cantidad := cart[k].cantidad + (if 0 < Stock(inv, IdOf(p)) && cart[k].cantidad < Stock(inv, IdOf(p)) then 1 else 0))
  {
    var id := IdOf(p);
    var inv := Stock(inv, id);
    if inv <= 0 then cart
    else
      var idx := FindIndex(cart, id);
      if idx >= 0 then
        if cart[idx].cantidad < inv then Bump(cart, idx)
        else cart
      else cart + [NewLine(p)]
  }

  /** The cart with line `k` one unit higher. */
  function Bump(cart: seq<CartItem>, k: int): seq<CartItem>
    requires 0 <= k < |cart|
  {
    cart[k := cart[k].(cantidad := cart[k].cantidad + 1)]
  }

  /** The branch of `Add` that raises an existing line by one unit. */
  lemma AddIncrements(cart: seq<CartItem>, inv: Inventory, p: Product, k: int)
    requires Stock(inv, IdOf(p)) > 0 && k == FindIndex(cart, IdOf(p)) && k >= 0
    requires cart[k].cantidad < Stock(inv, IdOf(p))
    ensures Add(cart, inv, p) == Bump(cart, k)
  {
  }

  /** The branch of `Add` that appends a new line. */
  lemma AddAppends(cart: seq<CartItem>, inv: Inventory, p: Product)
    requires Stock(inv, IdOf(p)) > 0 && FindIndex(cart, IdOf(p)) < 0
    ensures Add(cart, inv, p) == cart + [NewLine(p)]
  {
  }

  /** The branches of `Add` that leave the cart as it is. */
  lemma AddKeeps(cart: seq<CartItem>, inv: Inventory, p: Product)
    requires var k := FindIndex(cart, IdOf(p));
      Stock(inv, IdOf(p)) <= 0 || (k >= 0 && cart[k].cantidad >= Stock(inv, IdOf(p)))
    ensures Add(cart, inv, p) == cart
  {
  }

  /** `prev.filter(item => item.productId !== id)`. */
  function Remove(cart: seq<CartItem>, id: Id): (r: seq<CartItem>)
    ensures |r| <= |cart|
    ensures forall x :: x in r <==> x in cart && x.productId != id
  {
    if cart == [] then []
    else if cart[0].productId == id then Remove(cart[1..], id)
    else [cart[0]] + Remove(cart[1..], id)
  }

  /** The amount a line adds to the receipt total: `precioVenta ? precioVenta * cantidad : 0`. */
  function LineAmount(item: CartItem): real {
    if item.precioVenta.Some? && item.precioVenta.value != 0.0 then item.precioVenta.value * item.cantidad as real
    else 0.0
  }

  /** `cart.reduce((acc, item) => acc + LineAmount(item), 0)`, folded from the left. */
  function Total(cart: seq<CartItem>): (t: real)
    ensures |cart| == 1 ==> t == LineAmount(cart[0])
    ensures (forall i :: 0 <= i < |cart| ==> LineAmount(cart[i]) >= 0.0) ==> t >= 0.0
  {
    if cart == [] then 0.0 else Total(cart[..|cart| - 1]) + LineAmount(cart[|cart| - 1])
  }

  /** The keys of the stored ledger that the lines of a cart touch. */
  function CartKeys(cart: seq<CartItem>): set<string> {
    if cart == [] then {} else CartKeys(cart[..|cart| - 1]) + {KeyOf(cart[|cart| - 1].productId)}
  }

  /** The sum of the quantities of the lines stored under key `k`. */
  function QtyFor(cart: seq<CartItem>, k: string): int {
    if cart == [] then 0
    else QtyFor(cart[..|cart| - 1], k) + (if KeyOf(cart[|cart| - 1].productId) == k then cart[|cart| - 1].cantidad else 0)
  }

  function Max(a: int, b: int): int {
    if a >= b then a else b
  }

  /** The stored ledger after a sale, in closed form: each key a line touches holds
      `max(0, old - sold)`, a missing old value counting as 0; every other key is unchanged. */
  function Decremented(local: Inventory, cart: seq<CartItem>): Inventory {
    map k | k in local.Keys + CartKeys(cart) ::
      if k in CartKeys(cart) then Max(0, Lookup(local, k) - QtyFor(cart, k)) else local[k]
  }

  /** Lines whose quantities are not negative, as every well-formed cart's are. */
  ghost predicate NonNegative(cart: seq<CartItem>) {
    forall i :: 0 <= i < |cart| ==> cart[i].cantidad >= 0
  }

  // ----- the cart invariant over any sequence of adds and removes -----

  datatype CartEvent = AddEvent(p: Product) | RemoveEvent(id: Id)

  /** The cart after clicking "add" and "remove" in the given order, the inventory fixed. */
  function Replay(cart: seq<CartItem>, inv: Inventory, events: seq<CartEvent>): seq<CartItem>
    decreases |events|
  {
    if events == [] then cart
    else
      var next := match events[0]
        case AddEvent(p) => Add(cart, inv, p)
        case RemoveEvent(id) => Remove(cart, id);
      Replay(next, inv, events[1..])
  }

  // ----- lemmas -----

  /** Adding keeps one line per product and every quantity within 1 and the stock. */
  lemma AddPreservesWellFormed(cart: seq<CartItem>, inv: Inventory, p: Product)
    requires WellFormed(cart, inv)
    ensures WellFormed(Add(cart, inv, p), inv)
  {
    var r := Add(cart, inv, p);
    var k := FindIndex(cart, IdOf(p));
    if Stock(inv, IdOf(p)) > 0 && k < 0 {
      assert r == cart + [NewLine(p)];
      assert forall i :: 0 <= i < |cart| ==> r[i] == cart[i];
    } else if Stock(inv, IdOf(p)) > 0 {
      assert forall i :: 0 <= i < |r| ==> r[i].productId == cart[i].productId;
    }
  }

  /** A cart that keeps the ids of `a` in the same places and adds no line with `id` behind
      them finds `id` where `a` does. */
  lemma FindIndexExtended(a: seq<CartItem>, b: seq<CartItem>, id: Id)
    requires |a| <= |b|
    requires forall i :: 0 <= i < |a| ==> b[i].productId == a[i].productId
    requires forall i :: |a| <= i < |b| ==> b[i].productId != id
    ensures FindIndex(b, id) == FindIndex(a, id)
  {
    var ka := FindIndex(a, id);
    if ka >= 0 {
      assert b[ka].productId == id;
    }
  }

  /** Searching a cart with one line appended finds the old line first, else the new one. */
  lemma FindIndexAppend(cart: seq<CartItem>, x: CartItem, id: Id)
    ensures FindIndex(cart + [x], id) ==
      if FindIndex(cart, id) >= 0 then FindIndex(cart, id) else if x.productId == id then |cart| else -1
  {
    var c := cart + [x];
    assert forall i :: 0 <= i < |cart| ==> c[i] == cart[i];
    assert c[|cart|] == x;
  }

  /** With the cart well formed, adding raises the product's quantity by exactly one while it is
      below the stock and leaves it otherwise (in particular a product with stock 0 or less is
      never in the cart). */
  lemma AddQuantity(cart: seq<CartItem>, inv: Inventory, p: Product)
    requires WellFormed(cart, inv)
    ensures var q := QuantityOf(cart, IdOf(p));
      QuantityOf(Add(cart, inv, p), IdOf(p)) == if q < Stock(inv, IdOf(p)) then q + 1 else q
  {
    var id := IdOf(p);
    var k := FindIndex(cart, id);
    if Stock(inv, id) > 0 {
      if k < 0 {
        FindIndexAppend(cart, NewLine(p), id);
      } else {
        FindIndexExtended(cart, Add(cart, inv, p), id);
      }
    } else if k >= 0 {
      assert 1 <= cart[k].cantidad <= Stock(inv, cart[k].productId);
    }
  }

  /** Adding a product leaves the quantity of every other product as it was. */
  lemma AddKeepsOthers(cart: seq<CartItem>, inv: Inventory, p: Product, other: Id)
    requires other != IdOf(p)
    ensures QuantityOf(Add(cart, inv, p), other) == QuantityOf(cart, other)
  {
    var id := IdOf(p);
    if Stock(inv, id) > 0 {
      if FindIndex(cart, id) < 0 {
        FindIndexAppend(cart, NewLine(p), other);
      } else {
        FindIndexExtended(cart, Add(cart, inv, p), other);
      }
    }
  }

  /** Removing keeps every other line, in its original order: it distributes over concatenation. */
  lemma {:induction false} RemoveConcat(a: seq<CartItem>, b: seq<CartItem>, id: Id)
    ensures Remove(a + b, id) == Remove(a, id) + Remove(b, id)
  {
    if a == [] {
      assert a + b == b;
    } else {
      assert (a + b)[1..] == a[1..] + b;
      RemoveConcat(a[1..], b, id);
    }
  }

  /** Removing an id that has no line is a no-op. */
  lemma {:induction false} RemoveAbsent(cart: seq<CartItem>, id: Id)
    requires FindIndex(cart, id) == -1
    ensures Remove(cart, id) == cart
  {
    if cart != [] {
      assert cart == [cart[0]] + cart[1..];
      RemoveAbsent(cart[1..], id);
    }
  }

  /** The tail of a well-formed cart is well formed and has no line for the head's product. */
  lemma WellFormedTail(cart: seq<CartItem>, inv: Inventory)
    requires cart != [] && WellFormed(cart, inv)
    ensures WellFormed(cart[1..], inv)
    ensures forall x :: x in cart[1..] ==> x.productId != cart[0].productId
  {
    var t := cart[1..];
    forall i, j | 0 <= i < |t| && 0 <= j < |t| && t[i].productId == t[j].productId
      ensures i == j
    {
      assert cart[i + 1].productId == cart[j + 1].productId;
    }
    forall x | x in t ensures x.productId != cart[0].productId {
      var j :| 0 <= j < |t| && t[j] == x;
      assert cart[j + 1] == x;
    }
  }

  /** A line in bounds put in front of a well-formed cart without its product is well formed. */
  lemma WellFormedCons(x: CartItem, r: seq<CartItem>, inv: Inventory)
    requires WellFormed(r, inv) && 1 <= x.cantidad <= Stock(inv, x.productId)
    requires forall y :: y in r ==> y.productId != x.productId
    ensures WellFormed([x] + r, inv)
  {
    var s := [x] + r;
    forall i, j | 0 <= i < |s| && 0 <= j < |s| && s[i].productId == s[j].productId
      ensures i == j
    {
      if i > 0 && j > 0 {
        assert s[i] == r[i - 1] && s[j] == r[j - 1];
      }
    }
    forall i | 0 <= i < |s| ensures 1 <= s[i].cantidad <= Stock(inv, s[i].productId) {
      if i > 0 { assert s[i] == r[i - 1]; }
    }
  }

  /** Removing keeps one line per product and every quantity within its bounds. */
  lemma {:induction false} RemovePreservesWellFormed(cart: seq<CartItem>, inv: Inventory, id: Id)
    requires WellFormed(cart, inv)
    ensures WellFormed(Remove(cart, id), inv)
  {
    if cart != [] {
      WellFormedTail(cart, inv);
      RemovePreservesWellFormed(cart[1..], inv, id);
      if cart[0].productId != id {
        WellFormedCons(cart[0], Remove(cart[1..], id), inv);
      }
    }
  }

  /** Starting from any well-formed cart (the empty one included), every sequence of adds and
      removes keeps one line per product and every quantity between 1 and the stock. */
  lemma {:induction false} ReplayPreservesWellFormed(cart: seq<CartItem>, inv: Inventory, events: seq<CartEvent>)
    requires WellFormed(cart, inv)
    ensures WellFormed(Replay(cart, inv, events), inv)
    decreases |events|
  {
    if events != [] {
      match events[0]
      case AddEvent(p) =>
        AddPreservesWellFormed(cart, inv, p);
        ReplayPreservesWellFormed(Add(cart, inv, p), inv, events[1..]);
      case RemoveEvent(id) =>
        RemovePreservesWellFormed(cart, inv, id);
        ReplayPreservesWellFormed(Remove(cart, id), inv, events[1..]);
    }
  }

  /** The total of two carts laid end to end is the sum of their totals. */
  lemma {:induction false} TotalConcat(a: seq<CartItem>, b: seq<CartItem>)
    ensures Total(a + b) == Total(a) + Total(b)
    decreases |b|
  {
    if b == [] {
      assert a + b == a;
    } else {
      var b' := b[..|b| - 1];
      assert (a + b)[..|a + b| - 1] == a + b';
      TotalConcat(a, b');
    }
  }

  /** Lines without a truthy price add nothing: a cart of such lines totals 0. */
  lemma {:induction false} TotalOfPricelessIsZero(cart: seq<CartItem>)
    requires forall i :: 0 <= i < |cart| ==> cart[i].precioVenta.None? || cart[i].precioVenta.value == 0.0
    ensures Total(cart) == 0.0
  {
    if cart != [] {
      TotalOfPricelessIsZero(cart[..|cart| - 1]);
    }
  }

  lemma {:induction false} QtyForAppend(c: seq<CartItem>, x: CartItem, k: string)
    ensures QtyFor(c + [x], k) == QtyFor(c, k) + (if KeyOf(x.productId) == k then x.cantidad else 0)
  {
    assert (c + [x])[..|c + [x]| - 1] == c;
  }

  lemma {:induction false} QtyForUntouched(c: seq<CartItem>, k: string)
    requires k !in CartKeys(c)
    ensures QtyFor(c, k) == 0
  {
    if c != [] {
      QtyForUntouched(c[..|c| - 1], k);
    }
  }

  /** The key of every line is among the cart's keys. */
  lemma {:induction false} LineKeyInCartKeys(c: seq<CartItem>, i: int)
    requires 0 <= i < |c|
    ensures KeyOf(c[i].productId) in CartKeys(c)
  {
    var c' := c[..|c| - 1];
    if i < |c| - 1 {
      LineKeyInCartKeys(c', i);
      assert c'[i] == c[i];
    }
  }

  /** A key no line carries is not among the cart's keys. */
  lemma {:induction false} KeyNotInCartKeys(c: seq<CartItem>, k: string)
    requires forall j :: 0 <= j < |c| ==> KeyOf(c[j].productId) != k
    ensures k !in CartKeys(c)
  {
    if c != [] {
      var c' := c[..|c| - 1];
      assert forall j :: 0 <= j < |c'| ==> c'[j] == c[j];
      KeyNotInCartKeys(c', k);
    }
  }

  lemma {:induction false} QtyForNonNegative(c: seq<CartItem>, k: string)
    requires NonNegative(c)
    ensures QtyFor(c, k) >= 0
  {
    if c != [] {
      QtyForNonNegative(c[..|c| - 1], k);
    }
  }

  /** Membership and value of one key in the closed form. */
  lemma DecrementedAt(local: Inventory, c: seq<CartItem>, j: string)
    ensures j in Decremented(local, c) <==> j in local || j in CartKeys(c)
    ensures Lookup(Decremented(local, c), j)
      == if j in CartKeys(c) then Max(0, Lookup(local, j) - QtyFor(c, j)) else Lookup(local, j)
  {
  }

  lemma CartKeysAppend(c: seq<CartItem>, x: CartItem)
    ensures CartKeys(c + [x]) == CartKeys(c) + {KeyOf(x.productId)}
  {
    assert (c + [x])[..|c + [x]| - 1] == c;
  }

  lemma DecrementedStepAtKey(local: Inventory, c: seq<CartItem>, x: CartItem)
    requires NonNegative(c) && x.cantidad >= 0
    ensures var k := KeyOf(x.productId);
      && k in Decremented(local, c + [x])
      && Decremented(local, c + [x])[k] == Max(0, Lookup(Decremented(local, c), k) - x.cantidad)
  {
    var k := KeyOf(x.productId);
    var l, q, n := Lookup(local, k), QtyFor(c, k), x.cantidad;
    var d1 := Decremented(local, c + [x]);
    CartKeysAppend(c, x);
    QtyForAppend(c, x, k);
    DecrementedAt(local, c + [x], k);
    assert k in d1 && d1[k] == Max(0, l - (q + n));
    DecrementedAt(local, c, k);
    if k in CartKeys(c) {
      QtyForNonNegative(c, k);
      assert Lookup(Decremented(local, c), k) == Max(0, l - q);
    } else {
      QtyForUntouched(c, k);
      assert Lookup(Decremented(local, c), k) == l;
    }
  }

  lemma DecrementedStepAtOther(local: Inventory, c: seq<CartItem>, x: CartItem, j: string)
    requires j != KeyOf(x.productId)
    ensures j in Decremented(local, c + [x]) <==> j in Decremented(local, c)
    ensures Lookup(Decremented(local, c + [x]), j) == Lookup(Decremented(local, c), j)
  {
    CartKeysAppend(c, x);
    DecrementedAt(local, c + [x], j);
    DecrementedAt(local, c, j);
    QtyForAppend(c, x, j);
  }

  /** The loop step of the sale: applying one more line with `max(0, prev - cantidad)` to the
      ledger decremented by the earlier lines gives the closed form for the longer cart. */
  lemma DecrementedStep(local: Inventory, c: seq<CartItem>, x: CartItem)
    requires NonNegative(c) && x.cantidad >= 0
    ensures var d := Decremented(local, c); var k := KeyOf(x.productId);
      Decremented(local, c + [x]) == d[k := Max(0, Lookup(d, k) - x.cantidad)]
  {
    var d := Decremented(local, c);
    var k := KeyOf(x.productId);
    var lhs := Decremented(local, c + [x]);
    var rhs := d[k := Max(0, Lookup(d, k) - x.cantidad)];
    DecrementedStepAtKey(local, c, x);
    forall j | j != k ensures (j in lhs <==> j in rhs) && Lookup(lhs, j) == Lookup(rhs, j) {
      DecrementedStepAtOther(local, c, x, j);
    }
    assert lhs.Keys == rhs.Keys;
    assert forall j :: j in lhs ==> lhs[j] == Lookup(lhs, j) == Lookup(rhs, j) == rhs[j];
  }

  /** The loop step of the sale over a prefix of the lines: the next line's update takes the
      closed form for `lines[..i]` to the closed form for `lines[..i + 1]`. */
  lemma DecrementedPrefixStep(local: Inventory, lines: seq<CartItem>, i: int)
    requires 0 <= i < |lines| && NonNegative(lines)
    ensures var d := Decremented(local, lines[..i]); var k := KeyOf(lines[i].productId);
      Decremented(local, lines[..i + 1]) == d[k := Max(0, Lookup(d, k) - lines[i].cantidad)]
  {
    var c := lines[..i];
    assert lines[..i + 1] == c + [lines[i]];
    assert NonNegative(c) by {
      forall j | 0 <= j < |c| ensures c[j].cantidad >= 0 {
        assert c[j] == lines[j];
      }
    }
    DecrementedStep(local, c, lines[i]);
  }

  /** A sale of an empty cart leaves the stored ledger as it is. */
  lemma DecrementedEmpty(local: Inventory)
    ensures Decremented(local, []) == local
  {
    assert CartKeys([]) == {};
  }

  /** For a line whose key no other line of the cart shares, the stored quantity becomes
      `max(0, old - cantidad)`; a key no line touches keeps its stored value. */
  lemma {:induction false} DecrementedLine(local: Inventory, cart: seq<CartItem>, i: int)
    requires 0 <= i < |cart|
    requires forall j :: 0 <= j < |cart| && j != i ==> KeyOf(cart[j].productId) != KeyOf(cart[i].productId)
    ensures var k := KeyOf(cart[i].productId);
      k in Decremented(local, cart) && Decremented(local, cart)[k] == Max(0, Lookup(local, k) - cart[i].cantidad)
  {
    var k := KeyOf(cart[i].productId);
    LineKeyInCartKeys(cart, i);
    QtyForSingle(cart, i, k);
  }

  lemma {:induction false} QtyForSingle(cart: seq<CartItem>, i: int, k: string)
    requires 0 <= i < |cart| && KeyOf(cart[i].productId) == k
    requires forall j :: 0 <= j < |cart| && j != i ==> KeyOf(cart[j].productId) != k
    ensures QtyFor(cart, k) == cart[i].cantidad
  {
    var c' := cart[..|cart| - 1];
    if i == |cart| - 1 {
      assert forall j :: 0 <= j < |c'| ==> c'[j] == cart[j];
      KeyNotInCartKeys(c', k);
      QtyForUntouched(c', k);
    } else {
      QtyForSingle(c', i, k);
    }
  }
}
