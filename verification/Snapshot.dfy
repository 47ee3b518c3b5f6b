/** The order book snapshot of `GET /orderbook`: remaining quantity per price level,
    aggregated from the heaps in slice order and then sorted. */
module Snapshot {
  import opened Orders
  import opened OrderHeaps
  import opened ListBook
  import opened StubBook
  import BookInvariants
  import PriceTime
  import Chains
  import Clock

  datatype Level = Level(price: real, qty: int)

  /** Everything that rests at one price, wherever it stands in the list. */
  function QtyAt(l: seq<Entry>, p: real): int {
    if l == [] then 0 else (if l[0].price == p then l[0].remaining else 0) + QtyAt(l[1..], p)
  }

  function Prices(l: seq<Entry>): set<real> { set e | e in l :: e.price }

  predicate BetterPrice(side: Side, p: real, q: real) { if side.Buy? then p > q else p < q }

  ghost predicate LevelsSorted(side: Side, ls: seq<Level>) {
    forall i, j :: 0 <= i < j < |ls| ==> BetterPrice(side, ls[i].price, ls[j].price)
  }

  /** The levels are strictly sorted, one per price, each the whole quantity at its price. */
  ghost predicate Describes(side: Side, ls: seq<Level>, l: seq<Entry>) {
    && LevelsSorted(side, ls)
    && (forall i :: 0 <= i < |ls| ==> ls[i].qty == QtyAt(l, ls[i].price))
    && (set x | x in ls :: x.price) == Prices(l)
  }

  lemma {:induction false} QtyElsewhere(l: seq<Entry>, p: real)
    requires p !in Prices(l)
    ensures QtyAt(l, p) == 0
  {
    if l != [] {
      assert l[0].price in Prices(l);
      assert Prices(l[1..]) <= Prices(l);
      QtyElsewhere(l[1..], p);
    }
  }

  /** The snapshot of a side is determined by the orders it describes. */
  lemma DescribesUnique(side: Side, a: seq<Level>, b: seq<Level>, l: seq<Entry>)
    requires Describes(side, a, l) && Describes(side, b, l)
    ensures a == b
  {
    forall x
      ensures x in a <==> x in b
    {
      LevelOf(side, a, l, x);
      LevelOf(side, b, l, x);
    }
    Chains.ChainUnique((x: Level, y: Level) => BetterPrice(side, x.price, y.price), a, b);
  }

  lemma LevelOf(side: Side, ls: seq<Level>, l: seq<Entry>, x: Level)
    requires Describes(side, ls, l)
    ensures x in ls <==> x.price in Prices(l) && x.qty == QtyAt(l, x.price)
  {
  }

  lemma {:induction false} QtyPositive(l: seq<Entry>, p: real)
    requires PriceTime.Live(l)
    ensures QtyAt(l, p) >= 0 && (p in Prices(l) ==> QtyAt(l, p) > 0)
  {
    if l != [] {
      QtyPositive(l[1..], p);
      assert Prices(l) == {l[0].price} + Prices(l[1..]);
    }
  }

  /** The first level is at the price of the head of the sorted side. */
  lemma FirstLevel(side: Side, ls: seq<Level>, l: seq<Entry>)
    requires Describes(side, ls, l) && Sorted(side, l)
    ensures ls == [] <==> l == []
    ensures l != [] ==> ls[0].price == l[0].price
  {
    if ls != [] {
      LevelOf(side, ls, l, ls[0]);
      var e :| e in l && e.price == ls[0].price;
      var j :| 0 <= j < |l| && l[j] == e;
      assert j > 0 ==> EntryAhead(side, l[0], l[j]);
    }
    if l != [] {
      assert l[0] in l && l[0].price in Prices(l);
      var x := Level(l[0].price, QtyAt(l, l[0].price));
      LevelOf(side, ls, l, x);
      var i :| 0 <= i < |ls| && ls[i] == x;
      assert i > 0 ==> BetterPrice(side, ls[0].price, ls[i].price);
    }
  }

  lemma {:induction false} LevelCount(side: Side, ls: seq<Level>)
    requires LevelsSorted(side, ls)
    ensures |ls| == |set x | x in ls :: x.price|
  {
    if ls != [] {
      LevelCount(side, ls[1..]);
      var rest := set x | x in ls[1..] :: x.price;
      assert (set x | x in ls :: x.price) == {ls[0].price} + rest;
      forall i | 0 <= i < |ls| - 1
        ensures ls[1..][i].price != ls[0].price
      {
        assert BetterPrice(side, ls[0].price, ls[i + 1].price);
      }
    }
  }

  /** A snapshot side has as many levels as there are distinct resting prices. */
  lemma LevelsCountPrices(side: Side, ls: seq<Level>, l: seq<Entry>)
    requires Describes(side, ls, l)
    ensures |ls| == |Prices(l)|
  {
    LevelCount(side, ls);
  }

  // ---------- The levels add up ----------

  function LevelTotal(ls: seq<Level>): int {
    if ls == [] then 0 else ls[0].qty + LevelTotal(ls[1..])
  }

  function QtyIn(l: seq<Entry>, prices: set<real>): int {
    if l == [] then 0 else (if l[0].price in prices then l[0].remaining else 0) + QtyIn(l[1..], prices)
  }

  lemma {:induction false} OnePriceMore(l: seq<Entry>, p: real, prices: set<real>)
    requires p !in prices
    ensures QtyIn(l, {p} + prices) == QtyAt(l, p) + QtyIn(l, prices)
  {
    if l != [] {
      OnePriceMore(l[1..], p, prices);
    }
  }

  lemma {:induction false} AllPrices(l: seq<Entry>, prices: set<real>)
    requires Prices(l) <= prices
    ensures QtyIn(l, prices) == PriceTime.Volume(l)
  {
    if l != [] {
      assert l[0].price in Prices(l) && Prices(l[1..]) <= Prices(l);
      AllPrices(l[1..], prices);
    }
  }

  lemma {:induction false} NoPrices(l: seq<Entry>)
    ensures QtyIn(l, {}) == 0
  {
    if l != [] {
      NoPrices(l[1..]);
    }
  }

  lemma {:induction false} LevelsAddUp(side: Side, ls: seq<Level>, l: seq<Entry>)
    requires LevelsSorted(side, ls) && forall i :: 0 <= i < |ls| ==> ls[i].qty == QtyAt(l, ls[i].price)
    ensures LevelTotal(ls) == QtyIn(l, set x | x in ls :: x.price)
  {
    if ls == [] {
      NoPrices(l);
      assert (set x | x in ls :: x.price) == {};
    } else {
      var p, rest := ls[0].price, set x | x in ls[1..] :: x.price;
      LevelsAddUp(side, ls[1..], l);
      assert (set x | x in ls :: x.price) == {p} + rest;
      forall i | 0 <= i < |ls| - 1
        ensures ls[1..][i].price != p
      {
        assert BetterPrice(side, ls[0].price, ls[i + 1].price);
      }
      OnePriceMore(l, p, rest);
    }
  }

  /** Over all levels of a side, the snapshot shows all that remains to trade on it. */
  lemma SnapshotShowsAll(side: Side, ls: seq<Level>, l: seq<Entry>)
    requires Describes(side, ls, l)
    ensures LevelTotal(ls) == PriceTime.Volume(l)
  {
    LevelsAddUp(side, ls, l);
    AllPrices(l, Prices(l));
  }

  // ---------- Sums do not depend on the order of the slice ----------

  ghost predicate NoDup(l: seq<Entry>) {
    forall i, j :: 0 <= i < j < |l| ==> l[i] != l[j]
  }

  lemma {:induction false} QtyConcat(a: seq<Entry>, b: seq<Entry>, p: real)
    ensures QtyAt(a + b, p) == QtyAt(a, p) + QtyAt(b, p)
  {
    if a == [] {
      assert a + b == b;
    } else {
      QtyConcat(a[1..], b, p);
      assert (a + b)[1..] == a[1..] + b;
    }
  }

  lemma QtyWithout(l: seq<Entry>, j: nat, p: real)
    requires j < |l|
    ensures QtyAt(l, p) == QtyAt(l[..j] + l[j + 1..], p) + (if l[j].price == p then l[j].remaining else 0)
  {
    assert l == l[..j] + l[j..];
    QtyConcat(l[..j], l[j..], p);
    assert l[j..][1..] == l[j + 1..];
    QtyConcat(l[..j], l[j + 1..], p);
  }

  lemma {:induction false} SameMembersSameQty(a: seq<Entry>, b: seq<Entry>, p: real)
    requires NoDup(a) && NoDup(b)
    requires forall x :: x in a <==> x in b
    ensures QtyAt(a, p) == QtyAt(b, p)
    decreases |a|
  {
    assert |b| > 0 ==> b[0] in b;
    if a != [] {
      var x := a[0];
      assert x in b;
      var j :| 0 <= j < |b| && b[j] == x;
      var b' := b[..j] + b[j + 1..];
      RemovedOne(a, b, j);
      hide NoDup;
      SameMembersSameQty(a[1..], b', p);
      QtyWithout(b, j, p);
    }
  }

  lemma RemovedOne(a: seq<Entry>, b: seq<Entry>, j: nat)
    requires NoDup(a) && NoDup(b) && a != [] && j < |b| && b[j] == a[0]
    requires forall x :: x in a <==> x in b
    ensures var b' := b[..j] + b[j + 1..];
            NoDup(a[1..]) && NoDup(b') && forall x :: x in a[1..] <==> x in b'
  {
    var b' := b[..j] + b[j + 1..];
    assert forall i :: 0 <= i < |b'| ==> b'[i] == if i < j then b[i] else b[i + 1];
    forall x
      ensures x in a[1..] <==> x in b'
    {
      if x in a[1..] {
        var i :| 0 <= i < |a| - 1 && a[1..][i] == x;
        assert a[i + 1] == x && x in b;
        var k :| 0 <= k < |b| && b[k] == x;
        assert b'[if k < j then k else k - 1] == x;
      }
      if x in b' {
        var i :| 0 <= i < |b'| && b'[i] == x;
        assert x in b && x in a;
        var k :| 0 <= k < |a| && a[k] == x;
        assert a[1..][k - 1] == x;
      }
    }
  }

  /** The heap slice as values. */
  ghost function Slice(h: seq<Order>): (l: seq<Entry>)
    reads h
    ensures |l| == |h| && forall i :: 0 <= i < |h| ==> l[i] == h[i].View()
  {
    seq(|h|, i requires 0 <= i < |h| reads h => h[i].View())
  }

  lemma SliceIsSide(ob: Orderbook, b: Book, side: Side)
    requires ob.Represents(b)
    ensures var l := Slice(ob.Heap(side).h);
            NoDup(l) && NoDup(b.On(side)) && forall x :: x in l <==> x in b.On(side)
  {
    var h := ob.Heap(side).h;
    var l := Slice(h);
    forall i, j | 0 <= i < j < |l|
      ensures l[i] != l[j]
    {
      assert h[i] in Elements(h) && h[j] in Elements(h);
      assert h[i].index == i && h[j].index == j;
    }
    forall i, j | 0 <= i < j < |b.On(side)|
      ensures b.On(side)[i] != b.On(side)[j]
    {
      assert EntryAhead(side, b.On(side)[i], b.On(side)[j]);
    }
    forall x | x in l
      ensures x in b.On(side)
    {
      var i :| 0 <= i < |l| && l[i] == x;
      assert h[i] in Elements(h);
      assert ob.Views()[x.id] == x;
    }
    forall x | x in b.On(side)
      ensures x in l
    {
      var o := ob.orders[x.id];
      assert o in Elements(h) && o.View() == x;
      var i :| 0 <= i < |h| && h[i] == o;
      assert l[i] == x;
    }
  }

  // ---------- The handler ----------

  ghost predicate Summed(m: map<real, int>, l: seq<Entry>) {
    m.Keys == Prices(l) && forall p :: p in m ==> m[p] == QtyAt(l, p)
  }

  lemma SummedNothing()
    ensures Summed(map[], [])
  {
  }

  lemma SummedMore(m: map<real, int>, l: seq<Entry>, i: nat)
    requires i < |l| && Summed(m, l[..i])
    ensures var p := l[i].price;
            Summed(m[p := (if p in m then m[p] else 0) + l[i].remaining], l[..i + 1])
  {
    hide QtyAt;
    forall p: real {
      OneMore(l, i, p);
    }
    hide Prices;
  }

  lemma SummedSame(m: map<real, int>, a: seq<Entry>, b: seq<Entry>)
    requires Summed(m, a) && NoDup(a) && NoDup(b) && forall x :: x in a <==> x in b
    ensures Summed(m, b)
  {
    hide QtyAt;
    forall p: real {
      SameMembersSameQty(a, b, p);
    }
    hide NoDup;
  }

  /** Sums the remaining quantity per price over one heap slice. */
  method Aggregate(ob: Orderbook, side: Side, ghost b: Book) returns (m: map<real, int>)
    requires ob.Represents(b)
    ensures Summed(m, b.On(side))
  {
    hide Summed, Orderbook.Represents, NoDup;
    var h := ob.Heap(side).h;
    ghost var l := Slice(h);
    m := map[];
    SummedNothing();
    assert l[..0] == [];
    for i := 0 to |h|
      invariant Summed(m, l[..i])
    {
      SummedMore(m, l, i);
      var p, q := h[i].price, h[i].remaining;
      m := m[p := (if p in m then m[p] else 0) + q];
    }
    assert l[..|h|] == l;
    SliceIsSide(ob, b, side);
    SummedSame(m, l, b.On(side));
  }

  lemma OneMore(l: seq<Entry>, i: nat, p: real)
    requires i < |l|
    ensures QtyAt(l[..i + 1], p) == QtyAt(l[..i], p) + (if l[i].price == p then l[i].remaining else 0)
    ensures Prices(l[..i + 1]) == Prices(l[..i]) + {l[i].price}
    ensures p !in Prices(l[..i]) ==> QtyAt(l[..i], p) == 0
  {
    assert l[..i + 1] == l[..i] + [l[i]];
    QtyConcat(l[..i], [l[i]], p);
    if p !in Prices(l[..i]) {
      QtyElsewhere(l[..i], p);
    }
  }

  function InsertLevel(side: Side, ls: seq<Level>, x: Level): seq<Level> {
    if ls == [] || BetterPrice(side, x.price, ls[0].price) then [x] + ls
    else [ls[0]] + InsertLevel(side, ls[1..], x)
  }

  lemma {:induction false} InsertLevelKeeps(side: Side, ls: seq<Level>, x: Level)
    requires LevelsSorted(side, ls) && forall y :: y in ls ==> y.price != x.price
    ensures LevelsSorted(side, InsertLevel(side, ls, x))
    ensures forall y :: y in InsertLevel(side, ls, x) <==> y == x || y in ls
  {
    if ls != [] {
      assert ls == [ls[0]] + ls[1..] && ls[0] in ls;
      if !BetterPrice(side, x.price, ls[0].price) {
        InsertLevelKeeps(side, ls[1..], x);
        var r := InsertLevel(side, ls[1..], x);
        forall j | 0 <= j < |r|
          ensures BetterPrice(side, ls[0].price, r[j].price)
        {
          assert r[j] in r;
        }
      }
    }
  }

  /** Sorts levels of distinct prices, best first. */
  method SortLevels(side: Side, ls: seq<Level>) returns (r: seq<Level>)
    requires forall i, j :: 0 <= i < j < |ls| ==> ls[i].price != ls[j].price
    ensures LevelsSorted(side, r) && forall y :: y in r <==> y in ls
  {
    r := [];
    for i := 0 to |ls|
      invariant LevelsSorted(side, r) && forall y :: y in r <==> y in ls[..i]
    {
      assert forall y :: y in r ==> y.price != ls[i].price;
      InsertLevelKeeps(side, r, ls[i]);
      r := InsertLevel(side, r, ls[i]);
      assert ls[..i + 1] == ls[..i] + [ls[i]];
    }
    assert ls[..|ls|] == ls;
  }

  /** One side of the snapshot: the map's levels in whatever order it yields them, sorted. */
  method SideSnapshot(ob: Orderbook, side: Side, ghost b: Book) returns (ls: seq<Level>)
    requires ob.Represents(b)
    ensures Describes(side, ls, b.On(side))
  {
    hide Orderbook.Represents, QtyAt;
    var m := Aggregate(ob, side, b);
    var todo, found: seq<Level> := m.Keys, [];
    while todo != {}
      invariant todo <= m.Keys
      invariant forall i, j :: 0 <= i < j < |found| ==> found[i].price != found[j].price
      invariant forall x :: x in found <==> x.price in m && x.price !in todo && x.qty == m[x.price]
    {
      var p :| p in todo;
      todo := todo - {p};
      assert forall i :: 0 <= i < |found| ==> found[i] in found;
      found := found + [Level(p, m[p])];
    }
    ls := SortLevels(side, found);
    forall p | p in m
      ensures p in (set x | x in ls :: x.price)
    {
      assert Level(p, m[p]) in ls;
    }
    assert forall i :: 0 <= i < |ls| ==> ls[i] in ls;
  }

  /** `GET /orderbook`: both sides, each exactly described by the resting orders. */
  method Take(ob: Orderbook, ghost b: Book) returns (bids: seq<Level>, asks: seq<Level>)
    requires ob.Represents(b)
    ensures Describes(Buy, bids, b.bids) && Describes(Sell, asks, b.asks)
  {
    hide Orderbook.Represents, Describes;
    bids := SideSnapshot(ob, Buy, b);
    asks := SideSnapshot(ob, Sell, b);
  }

  /** After every run the snapshot has positive quantities, its first levels are at the
      best prices, and the first bid is strictly below the first ask. */
  lemma SnapshotOfRun(wall: Clock.Wall, cmds: seq<Command>, bids: seq<Level>, asks: seq<Level>)
    requires var b := Run(wall, cmds).book; Describes(Buy, bids, b.bids) && Describes(Sell, asks, b.asks)
    ensures forall i :: 0 <= i < |bids| ==> bids[i].qty > 0
    ensures forall i :: 0 <= i < |asks| ==> asks[i].qty > 0
    ensures bids != [] && asks != [] ==> bids[0].price < asks[0].price
  {
    BookInvariants.EveryRunIsSound(wall, cmds);
    var b := Run(wall, cmds).book;
    hide Run;
    FirstLevel(Buy, bids, b.bids);
    FirstLevel(Sell, asks, b.asks);
    AllPositive(Buy, bids, b.bids);
    AllPositive(Sell, asks, b.asks);
  }

  lemma AllPositive(side: Side, ls: seq<Level>, l: seq<Entry>)
    requires Describes(side, ls, l) && PriceTime.Live(l)
    ensures forall i :: 0 <= i < |ls| ==> ls[i].qty > 0
  {
    forall i | 0 <= i < |ls|
      ensures ls[i].qty > 0
    {
      QtyPositive(l, ls[i].price);
      assert ls[i] in ls && ls[i].price in (set x | x in ls :: x.price);
    }
  }
}
