/** The catalog records the dashboards receive, the logged-in employee record, and how both
    are turned into the identifiers and keys the inventory uses. */
module Catalog {
  import opened Wrappers

  /** A product or store identifier: the source types it `number | string`. */
  datatype Id = Num(n: int) | Str(s: string)

  function DigitChar(d: nat): char
    requires d < 10
  {
    "0123456789"[d]
  }

  /** The value of a text of decimal digits, read from left to right. */
  function DecimalValue(s: string): int {
    if s == [] then 0 else DecimalValue(s[..|s| - 1]) * 10 + (s[|s| - 1] as int - '0' as int)
  }

  /** Reads an object key written by `KeyOf` for a number: an optional minus sign, then digits. */
  function IntValue(s: string): int {
    if s != [] && s[0] == '-' then -DecimalValue(s[1..]) else DecimalValue(s)
  }

  /** Decimal rendering of a natural number, without leading zeros. */
  function Decimal(n: nat): (r: string)
    ensures |r| >= 1
    ensures forall i :: 0 <= i < |r| ==> '0' <= r[i] <= '9'
    ensures n >= 10 ==> r[0] != '0'
  {
    if n < 10 then [DigitChar(n)] else Decimal(n / 10) + [DigitChar(n % 10)]
  }

  /** The decimal text of `n` reads back as `n`. */
  lemma {:induction false} DecimalReadsBack(n: nat)
    ensures DecimalValue(Decimal(n)) == n
  {
    var r := Decimal(n);
    if n < 10 {
      assert r == [DigitChar(n)];
      assert r[..0] == [];
    } else {
      var hi, d := Decimal(n / 10), DigitChar(n % 10);
      DecimalReadsBack(n / 10);
      assert r == hi + [d];
      assert r[..|r| - 1] == hi;
      assert r[|r| - 1] == d;
      assert d as int - '0' as int == n % 10;
    }
  }

  /** The property name a value gets when used as an object key: a text is itself and a number
      becomes its decimal text, with a minus sign exactly when it is negative. The text reads
      back as the number (`KeyReadsBack`), so distinct numbers get distinct keys, while the
      distinct ids `Num(5)` and `Str("5")` share one key. */
  function KeyOf(id: Id): (k: string)
    ensures id.Str? ==> k == id.s
    ensures id.Num? ==> k != [] && (k[0] == '-' <==> id.n < 0)
  {
    match id
    case Str(s) => s
    case Num(n) => if n < 0 then "-" + Decimal(-n) else Decimal(n)
  }

  /** A leading minus sign negates the value of the digits after it. */
  lemma SignedValue(d: string)
    requires d != [] && d[0] != '-'
    ensures IntValue(d) == DecimalValue(d)
    ensures IntValue("-" + d) == -DecimalValue(d)
  {
    assert ("-" + d)[1..] == d;
  }

  /** The key of a numeric id reads back as the number. */
  lemma KeyReadsBack(n: int)
    ensures IntValue(KeyOf(Num(n))) == n
  {
    var m := if n < 0 then -n else n;
    var d := Decimal(m);
    assert d[0] != '-';
    SignedValue(d);
    DecimalReadsBack(m);
    if n < 0 {
      assert KeyOf(Num(n)) == "-" + d;
    } else {
      assert KeyOf(Num(n)) == d;
    }
  }

  /** Two different numeric ids never share an object key. */
  lemma NumericKeysDistinct(a: int, b: int)
    requires KeyOf(Num(a)) == KeyOf(Num(b))
    ensures a == b
  {
    KeyReadsBack(a);
    KeyReadsBack(b);
  }

  /** A numeric id and its decimal text collide as object keys. */
  lemma NumberAndTextShareKey(n: nat)
    ensures KeyOf(Num(n)) == KeyOf(Str(Decimal(n)))
  {
  }

  /** JavaScript truthiness of an identifier: `0` and `''` are falsy. */
  predicate Truthy(id: Id) {
    match id
    case Num(n) => n != 0
    case Str(s) => s != ""
  }

  datatype Sku = Sku(
    codigoBarras: Option<string>,
    talla: Option<string>,
    color: Option<string>,
    precioVenta: Option<real>)

  /** `skus?: SKU | SKU[]`: absent, a single record, or an array of them. */
  datatype Skus = NoSkus | Single(sku: Sku) | Several(list: seq<Sku>)

  datatype Product = Product(
    id: Option<Id>,
    nombreModelo: string,
    marca: string,
    categoria: string,
    skus: Skus)

  /** `p.id ?? p.nombreModelo`: only a missing id falls back to the model name (an id of 0 or
      of `''` is kept). */
  function IdOf(p: Product): (id: Id)
    ensures p.id.Some? ==> id == p.id.value
    ensures p.id.None? ==> id == Str(p.nombreModelo)
  {
    p.id.GetOr(Str(p.nombreModelo))
  }

  /** The inventory key of a catalog product. */
  function ProductKey(p: Product): string {
    KeyOf(IdOf(p))
  }

  /** `Array.isArray(p.skus) ? p.skus[0]?.precioVenta : p.skus?.precioVenta`. */
  function SalePrice(p: Product): (price: Option<real>)
    ensures p.skus.NoSkus? ==> price.None?
    ensures p.skus.Single? ==> price == p.skus.sku.precioVenta
    ensures p.skus.Several? ==> price == if p.skus.list == [] then None else p.skus.list[0].precioVenta
  {
    match p.skus
    case NoSkus => None
    case Single(s) => s.precioVenta
    case Several(list) => if list == [] then None else list[0].precioVenta
  }

  /** The set of inventory keys of a catalog: `id ?? nombreModelo` of each product. */
  function CatalogKeys(catalog: seq<Product>): set<string> {
    set p | p in catalog :: ProductKey(p)
  }

  /** The persisted employee record (`empleado`), reduced to the fields that locate the store. */
  datatype Employee = Employee(tienda: Option<Id>, sucursalId: Option<Id>)

  /** `parsed.tienda ?? parsed.sucursalId ?? null`, with a missing or unparseable record giving null. */
  function StoreIdOf(session: Option<Employee>): (t: Option<Id>)
    ensures t.Some? <==> session.Some? && (session.value.tienda.Some? || session.value.sucursalId.Some?)
    ensures session.Some? && session.value.tienda.Some? ==> t == session.value.tienda
    ensures session.Some? && session.value.tienda.None? ==> t == session.value.sucursalId
  {
    match session
    case None => None
    case Some(e) => if e.tienda.Some? then e.tienda else e.sucursalId
  }

  /** `if (tiendaId)`: a store id that is present and truthy. */
  predicate KnownStore(tiendaId: Option<Id>) {
    tiendaId.Some? && Truthy(tiendaId.value)
  }
}
