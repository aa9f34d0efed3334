/** The sales/inventory "paradox" bubble chart: each store becomes a bubble classified as
    overstock, lost sale or star, and the chart shows one dataset per class. */
module ParadoxChart {
  import opened Wrappers

  datatype StoreSales = StoreSales(tienda: string, ventas: real, inventario: real)

  /** The three labels a bubble can carry. */
  datatype Group = Overstock | LostSale | Star

  const OverstockInventory: real := 6000000.0
  const OverstockSales: real := 2000000.0
  const LostSaleSales: real := 3000000.0

  /** A bubble: `x = ventas`, `y = inventario`, the store name and its group (the radius and
      the colours are not modelled). */
  datatype Bubble = Bubble(x: real, y: real, tienda: string, group: Group)

  /** The classification rule: overstock when inventory is above 6,000,000 and sales below
      2,000,000; otherwise lost sale when sales are above 3,000,000 and inventory below 6,000,000;
      otherwise star. */
  function Classify(d: StoreSales): (g: Group)
    ensures g == Overstock <==> d.inventario > OverstockInventory && d.ventas < OverstockSales
    ensures g == LostSale <==> d.ventas > LostSaleSales && d.inventario < OverstockInventory
    ensures g == Star <==>
      !(d.inventario > OverstockInventory && d.ventas < OverstockSales) &&
      !(d.ventas > LostSaleSales && d.inventario < OverstockInventory)
  {
    if d.inventario > OverstockInventory && d.ventas < OverstockSales then Overstock
    else if d.ventas > LostSaleSales && d.inventario < OverstockInventory then LostSale
    else Star
  }

  /** The bubble of one store: sales on the x axis, inventory on the y axis, the store's name for
      the tooltip, and its group (the dataset label). */
  function ToBubble(d: StoreSales): (b: Bubble)
    ensures b.x == d.ventas && b.y == d.inventario && b.tienda == d.tienda
    ensures b.group == Classify(d)
  {
    Bubble(d.ventas, d.inventario, d.tienda, Classify(d))
  }

  /** `propData.map(...)`: one bubble per store, in input order. */
  function Bubbles(data: seq<StoreSales>): (bs: seq<Bubble>)
    ensures |bs| == |data|
    ensures forall i :: 0 <= i < |data| ==>
      bs[i].x == data[i].ventas && bs[i].y == data[i].inventario &&
      bs[i].tienda == data[i].tienda && bs[i].group == Classify(data[i])
  {
    if data == [] then [] else [ToBubble(data[0])] + Bubbles(data[1..])
  }

  /** `chartBubbles.filter(b => b.label === ...)` for one group. */
  function Filter(bs: seq<Bubble>, g: Group): (r: seq<Bubble>)
    ensures |r| <= |bs|
    ensures forall b :: b in r <==> b in bs && b.group == g
  {
    if bs == [] then [] else (if bs[0].group == g then [bs[0]] else []) + Filter(bs[1..], g)
  }

  /** What the component renders: the "no data" message, or the three datasets. */
  datatype ChartView = NoData | Datasets(overstock: seq<Bubble>, lostSale: seq<Bubble>, star: seq<Bubble>)

  function Render(data: Option<seq<StoreSales>>): (v: ChartView)
    ensures v.NoData? <==> data.None? || data.value == []
  {
    if data.None? || data.value == [] then NoData
    else
      var bs := Bubbles(data.value);
      Datasets(Filter(bs, Overstock), Filter(bs, LostSale), Filter(bs, Star))
  }

  /** A store with inventory exactly 6,000,000 is always a star. */
  lemma BoundaryIsStar(d: StoreSales)
    requires d.inventario == OverstockInventory
    ensures Classify(d) == Star
  {
  }

  /** Each filter keeps bubbles in input order: it distributes over concatenation. */
  lemma {:induction false} FilterConcat(a: seq<Bubble>, b: seq<Bubble>, g: Group)
    ensures Filter(a + b, g) == Filter(a, g) + Filter(b, g)
  {
    if a == [] {
      assert a + b == b;
    } else {
      assert (a + b)[1..] == a[1..] + b;
      FilterConcat(a[1..], b, g);
    }
  }

  /** The three filters partition the bubbles: as multisets the datasets add up to the input,
      so every bubble is in exactly one of them. */
  lemma {:induction false} FiltersCover(bs: seq<Bubble>)
    ensures multiset(Filter(bs, Overstock)) + multiset(Filter(bs, LostSale)) + multiset(Filter(bs, Star)) == multiset(bs)
  {
    if bs != [] {
      var t := bs[1..];
      FiltersCover(t);
      FilterHead(bs, Overstock);
      FilterHead(bs, LostSale);
      FilterHead(bs, Star);
      MultisetCons(bs);
      AddOneToPartition(bs[0], multiset(t),
        multiset(Filter(t, Overstock)), multiset(Filter(t, LostSale)), multiset(Filter(t, Star)),
        multiset(Filter(bs, Overstock)), multiset(Filter(bs, LostSale)), multiset(Filter(bs, Star)));
    }
  }

  /** A bubble added to the part of its own group keeps a three-way partition a partition. */
  lemma AddOneToPartition(b: Bubble, rest: multiset<Bubble>, o: multiset<Bubble>, l: multiset<Bubble>, s: multiset<Bubble>,
                          o': multiset<Bubble>, l': multiset<Bubble>, s': multiset<Bubble>)
    requires o + l + s == rest
    requires o' == (if b.group == Overstock then multiset{b} else multiset{}) + o
    requires l' == (if b.group == LostSale then multiset{b} else multiset{}) + l
    requires s' == (if b.group == Star then multiset{b} else multiset{}) + s
    ensures o' + l' + s' == multiset{b} + rest
  {
  }

  lemma MultisetCons(bs: seq<Bubble>)
    requires bs != []
    ensures multiset(bs) == multiset{bs[0]} + multiset(bs[1..])
  {
    assert bs == [bs[0]] + bs[1..];
  }

  /** The first bubble goes to its own group's dataset, in front of the rest's. */
  lemma FilterHead(bs: seq<Bubble>, g: Group)
    requires bs != []
    ensures multiset(Filter(bs, g)) ==
      (if bs[0].group == g then multiset{bs[0]} else multiset{}) + multiset(Filter(bs[1..], g))
  {
  }

  /** The partition by group, and so the sizes of the three datasets sum to the number of bubbles. */
  lemma FiltersPartition(bs: seq<Bubble>)
    ensures multiset(Filter(bs, Overstock)) + multiset(Filter(bs, LostSale)) + multiset(Filter(bs, Star)) == multiset(bs)
    ensures |Filter(bs, Overstock)| + |Filter(bs, LostSale)| + |Filter(bs, Star)| == |bs|
  {
    var o, l, s := Filter(bs, Overstock), Filter(bs, LostSale), Filter(bs, Star);
    FiltersCover(bs);
    assert |multiset(o) + multiset(l) + multiset(s)| == |multiset(o)| + |multiset(l)| + |multiset(s)|;
  }

  /** The rendered datasets partition the input stores: their sizes sum to the number of stores
      and a store's bubble lies in the dataset of its own group and in no other. */
  lemma RenderPartitions(data: seq<StoreSales>, i: int)
    requires data != [] && 0 <= i < |data|
    ensures var v := Render(Some(data));
      && v.Datasets?
      && |v.overstock| + |v.lostSale| + |v.star| == |data|
      && (ToBubble(data[i]) in v.overstock <==> Classify(data[i]) == Overstock)
      && (ToBubble(data[i]) in v.lostSale <==> Classify(data[i]) == LostSale)
      && (ToBubble(data[i]) in v.star <==> Classify(data[i]) == Star)
  {
    var bs := Bubbles(data);
    FiltersPartition(bs);
    assert bs[i] == ToBubble(data[i]);
  }
}
