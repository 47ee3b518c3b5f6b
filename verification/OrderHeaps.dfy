/** The indexed binary heap of order objects: `bidHeap`/`askHeap` under the sift-up,
    sift-down, Push, Pop, Fix and Remove of Go's `container/heap`. */
module OrderHeaps {
  import opened Orders

  function Parent(j: nat): (i: nat)
    ensures j > 0 ==> i < j
  {
    if j == 0 then 0 else (j - 1) / 2
  }

  /** Slot j is not ahead of slot i. */
  predicate Behind(side: Side, h: seq<Order>, j: nat, i: nat)
    requires i < |h| && j < |h|
  {
    !OrderAhead(side, h[j], h[i])
  }

  /** The first n slots form a heap. */
  predicate Heaped(side: Side, h: seq<Order>, n: nat)
    requires n <= |h|
  {
    forall j :: 0 < j < n ==> Behind(side, h, j, Parent(j))
  }

  /** The first n slots form a heap but for slot i, whose neighbours above and below
      are already in order with each other. */
  predicate HeapedAround(side: Side, h: seq<Order>, n: nat, i: nat)
    requires n <= |h|
  {
    && (forall j :: 0 < j < n && j != i && Parent(j) != i ==> Behind(side, h, j, Parent(j)))
    && (i < n ==> forall j :: 0 < j < n && Parent(j) == i && i > 0 ==> Behind(side, h, j, Parent(i)))
  }

  /** Only the edge from slot i up to its parent may be out of order. */
  predicate HeapedBelow(side: Side, h: seq<Order>, n: nat, i: nat)
    requires n <= |h|
  {
    && HeapedAround(side, h, n, i)
    && forall j :: 0 < j < n && Parent(j) == i ==> Behind(side, h, j, i)
  }

  function Swapped(h: seq<Order>, i: nat, j: nat): (r: seq<Order>)
    requires i < |h| && j < |h|
    ensures |r| == |h|
  {
    h[i := h[j]][j := h[i]]
  }

  function Elements(h: seq<Order>): set<Order> {
    set o | o in h
  }

  lemma SwapKeepsElements(h: seq<Order>, i: nat, j: nat)
    requires i < |h| && j < |h|
    ensures Elements(Swapped(h, i, j)) == Elements(h)
  {
    var r := Swapped(h, i, j);
    forall o | o in h
      ensures o in r
    {
      var k :| 0 <= k < |h| && h[k] == o;
      assert r[if k == i then j else if k == j then i else k] == o;
    }
    forall o | o in r
      ensures o in h
    {
      var k :| 0 <= k < |r| && r[k] == o;
      assert h[if k == i then j else if k == j then i else k] == o;
    }
  }

  /** Moving slot j above its parent passes the disorder to the parent's slot. */
  lemma SiftUpStep(side: Side, h: seq<Order>, n: nat, j: nat)
    requires 0 < j < n <= |h|
    requires HeapedBelow(side, h, n, j)
    requires !Behind(side, h, j, Parent(j))
    ensures HeapedBelow(side, Swapped(h, Parent(j), j), n, Parent(j))
  {
    var p := Parent(j);
    var r := Swapped(h, p, j);
    forall k | 0 < k < n && k != p
      ensures Behind(side, r, k, Parent(k))
      ensures Parent(k) == p && p > 0 ==> Behind(side, r, k, Parent(p))
    {
      if k != j {
        assert Parent(k) != j ==> Behind(side, h, k, Parent(k));
      }
      if p > 0 {
        assert Behind(side, h, p, Parent(p));
      }
    }
  }

  /** Moving the better child c of slot i up passes the disorder down to c. */
  lemma SiftDownStep(side: Side, h: seq<Order>, n: nat, i: nat, c: nat)
    requires i < c < n <= |h| && Parent(c) == i
    requires HeapedAround(side, h, n, i)
    requires forall k :: 0 < k < n && Parent(k) == i ==> Behind(side, h, k, c)
    requires !Behind(side, h, c, i)
    ensures var r := Swapped(h, i, c);
            HeapedAround(side, r, n, c) && Behind(side, r, c, i) && (i > 0 ==> Behind(side, r, i, Parent(i)))
  {
  }

  /** The child that sift-down compares with slot i. */
  function BestChild(side: Side, h: seq<Order>, n: nat, i: nat): (c: nat)
    requires 2 * i + 1 < n <= |h|
    ensures i < c < n && Parent(c) == i
  {
    if 2 * i + 2 < n && !Behind(side, h, 2 * i + 2, 2 * i + 1) then 2 * i + 2 else 2 * i + 1
  }

  lemma BestChildIsBest(side: Side, h: seq<Order>, n: nat, i: nat)
    requires 2 * i + 1 < n <= |h|
    ensures forall k :: 0 < k < n && Parent(k) == i ==> Behind(side, h, k, BestChild(side, h, n, i))
  {
  }

  lemma SiftDownDone(side: Side, h: seq<Order>, n: nat, i: nat)
    requires i < n <= |h| && HeapedAround(side, h, n, i)
    requires 2 * i + 1 < n ==> Behind(side, h, BestChild(side, h, n, i), i)
    ensures HeapedBelow(side, h, n, i)
    ensures (i > 0 ==> Behind(side, h, i, Parent(i))) ==> Heaped(side, h, n)
  {
  }

  /** The root of a heap has the best price in it and, at that price, the earliest entry. */
  lemma {:induction false} RootIsBest(side: Side, h: seq<Order>, j: nat)
    requires j < |h| && Heaped(side, h, |h|)
    ensures Behind(side, h, j, 0)
    ensures if side.Buy? then h[0].price >= h[j].price else h[0].price <= h[j].price
    ensures h[0].price == h[j].price ==> h[0].enteredAt <= h[j].enteredAt
    decreases j
  {
    if j > 0 {
      RootIsBest(side, h, Parent(j));
      assert Behind(side, h, j, Parent(j));
    }
  }

  class OrderHeap {
    const side: Side
    var h: seq<Order>

    /** Every order in the heap stores its own position. */
    ghost predicate Indexed()
      reads `h, h`index
    {
      forall i :: 0 <= i < |h| ==> h[i].index == i
    }

    ghost predicate Valid()
      reads `h, h`index
    {
      Indexed() && Heaped(side, h, |h|)
    }

    constructor (side: Side)
      ensures this.side == side && h == [] && Valid()
    {
      this.side := side;
      h := [];
    }

    method Swap(i: nat, j: nat)
      requires Indexed() && i < |h| && j < |h|
      modifies `h, Elements(h)`index
      ensures h == Swapped(old(h), i, j)
      ensures Indexed() && Elements(h) == old(Elements(h))
    {
      SwapKeepsElements(h, i, j);
      h := Swapped(h, i, j);
      h[i].index := i;
      h[j].index := j;
    }

    method Up(j0: nat, ghost n: nat)
      requires Indexed() && j0 < n <= |h| && HeapedBelow(side, h, n, j0)
      modifies `h, Elements(h)`index
      ensures Indexed() && Elements(h) == old(Elements(h))
      ensures |h| == old(|h|) && h[n..] == old(h[n..]) && Heaped(side, h, n)
    {
      var j: nat := j0;
      while true
        invariant j < n <= |h| == old(|h|)
        invariant Indexed() && Elements(h) == old(Elements(h)) && h[n..] == old(h[n..])
        invariant HeapedBelow(side, h, n, j)
        decreases j
      {
        var i := Parent(j);
        if i == j || Behind(side, h, j, i) {
          break;
        }
        SiftUpStep(side, h, n, j);
        Swap(i, j);
        j := i;
      }
    }

    method Down(i0: nat, n: nat) returns (moved: bool)
      requires Indexed() && i0 < n <= |h| && HeapedAround(side, h, n, i0)
      modifies `h, Elements(h)`index
      ensures Indexed() && Elements(h) == old(Elements(h))
      ensures |h| == old(|h|) && h[n..] == old(h[n..])
      ensures moved ==> Heaped(side, h, n)
      ensures !moved ==> h == old(h) && HeapedBelow(side, h, n, i0)
    {
      var i: nat := i0;
      while true
        invariant i0 <= i < n <= |h| == old(|h|)
        invariant Indexed() && Elements(h) == old(Elements(h)) && h[n..] == old(h[n..])
        invariant HeapedAround(side, h, n, i)
        invariant i == i0 ==> h == old(h)
        invariant i > i0 ==> Behind(side, h, i, Parent(i))
        decreases n - i
      {
        if 2 * i + 1 >= n {
          SiftDownDone(side, h, n, i);
          break;
        }
        var c := BestChild(side, h, n, i);
        BestChildIsBest(side, h, n, i);
        if Behind(side, h, c, i) {
          SiftDownDone(side, h, n, i);
          break;
        }
        SiftDownStep(side, h, n, i, c);
        Swap(i, c);
        i := c;
      }
      moved := i > i0;
    }

    method Push(x: Order)
      requires Valid() && x !in h
      modifies `h, Elements(h)`index, x`index
      ensures Valid() && Elements(h) == old(Elements(h)) + {x}
    {
      x.index := |h|;
      h := h + [x];
      Up(|h| - 1, |h|);
    }

    /** `Pop` of the slice: detach the last slot. */
    method DropLast() returns (x: Order)
      requires Indexed() && h != [] && Heaped(side, h, |h| - 1)
      modifies `h, Elements(h)`index
      ensures x == old(h[|h| - 1]) && h == old(h[..|h| - 1]) && x.index == -1
      ensures Valid() && Elements(h) == old(Elements(h)) - {x}
    {
      var n := |h|;
      x := h[n - 1];
      x.index := -1;
      h := h[..n - 1];
      assert forall o :: o in old(h) <==> o in h || o == x;
    }

    method Pop() returns (x: Order)
      requires Valid() && h != []
      modifies `h, Elements(h)`index
      ensures x == old(h[0]) && x.index == -1
      ensures Valid() && Elements(h) == old(Elements(h)) - {x}
    {
      var n := |h| - 1;
      Swap(0, n);
      if n > 0 {
        var moved := Down(0, n);
      }
      assert h[n] == h[n..][0];
      x := DropLast();
    }

    method Fix(i: nat)
      requires Indexed() && i < |h| && HeapedAround(side, h, |h|, i)
      modifies `h, Elements(h)`index
      ensures Valid() && Elements(h) == old(Elements(h))
    {
      var moved := Down(i, |h|);
      if !moved {
        Up(i, |h|);
      }
    }

    method Remove(i: nat) returns (x: Order)
      requires Valid() && i < |h|
      modifies `h, Elements(h)`index
      ensures x == old(h[i]) && x.index == -1
      ensures Valid() && Elements(h) == old(Elements(h)) - {x}
    {
      var n := |h| - 1;
      if n != i {
        RemovalLeavesHole(side, h, i);
        Swap(i, n);
        var moved := Down(i, n);
        if !moved {
          Up(i, n);
        }
        assert h[n] == h[n..][0];
      }
      x := DropLast();
    }
  }

  /** Overwriting slot i with the last one leaves a heap but for slot i. */
  lemma RemovalLeavesHole(side: Side, h: seq<Order>, i: nat)
    requires i < |h| - 1 && Heaped(side, h, |h|)
    ensures HeapedAround(side, Swapped(h, i, |h| - 1), |h| - 1, i)
  {
  }
}
