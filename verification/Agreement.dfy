/** When a table of resting orders, keyed by id, agrees with the sorted-list book. */
module Agreement {
  import opened Orders
  import opened ListBook

  type Table = map<string, Entry>

  ghost predicate Keyed(t: Table) {
    forall id :: id in t ==> t[id].id == id && t[id].remaining > 0
  }

  /** The sorted list holds exactly the table's entries of one side. */
  ghost predicate SideAgrees(t: Table, side: Side, l: seq<Entry>) {
    && Sorted(side, l)
    && (forall e :: e in l ==> e.side == side && e.id in t && t[e.id] == e)
    && (forall id :: id in t && t[id].side == side ==> t[id] in l)
  }

  /** The table holds exactly the entries of the two sorted lists, none of them exhausted. */
  ghost predicate Agrees(t: Table, b: Book) {
    Keyed(t) && SideAgrees(t, Buy, b.bids) && SideAgrees(t, Sell, b.asks)
  }

  lemma AgreesOn(t: Table, b: Book, side: Side)
    requires Agrees(t, b)
    ensures Keyed(t) && SideAgrees(t, side, b.On(side)) && SideAgrees(t, side.Opposite(), b.On(side.Opposite()))
  {
  }

  lemma AgreesWith(t: Table, b: Book, side: Side, l: seq<Entry>)
    requires Keyed(t) && SideAgrees(t, side, l) && SideAgrees(t, side.Opposite(), b.On(side.Opposite()))
    ensures Agrees(t, b.With(side, l))
  {
  }

  lemma SideShrink(t: Table, side: Side, l: seq<Entry>, qty: int)
    requires SideAgrees(t, side, l) && l != [] && Keyed(t)
    ensures SideAgrees(t[l[0].id := l[0].(remaining := l[0].remaining - qty)], side, ShrinkHead(l, qty))
  {
  }

  /** Changes confined to the other side leave this one as it was. */
  lemma SideUntouched(t: Table, t': Table, side: Side, l: seq<Entry>, id: string)
    requires SideAgrees(t, side, l)
    requires id in t ==> t[id].side != side
    requires t' == t - {id} || (id in t' && t'[id].side != side && t' == t[id := t'[id]])
    ensures SideAgrees(t', side, l)
  {
  }

  lemma AgreesPop(t: Table, b: Book, side: Side)
    requires Agrees(t, b) && b.On(side) != []
    ensures Agrees(t - {b.On(side)[0].id}, b.With(side, b.On(side)[1..]))
  {
  }

  lemma AgreesShrink(t: Table, b: Book, side: Side, qty: int)
    requires Agrees(t, b) && b.On(side) != [] && qty < b.On(side)[0].remaining
    ensures var head := b.On(side)[0];
            Agrees(t[head.id := head.(remaining := head.remaining - qty)], b.With(side, ShrinkHead(b.On(side), qty)))
  {
    var l := b.On(side);
    var t' := t[l[0].id := l[0].(remaining := l[0].remaining - qty)];
    AgreesOn(t, b, side);
    assert l[0] in l;
    SideShrink(t, side, l, qty);
    SideUntouched(t, t', side.Opposite(), b.On(side.Opposite()), l[0].id);
    hide Sorted;
    assert Keyed(t');
    AgreesWith(t', b, side, ShrinkHead(l, qty));
  }

  lemma SideInsert(t: Table, l: seq<Entry>, e: Entry)
    requires SideAgrees(t, e.side, l) && e.id !in t
    requires forall x :: x in l ==> x.enteredAt != e.enteredAt
    ensures SideAgrees(t[e.id := e], e.side, Insert(e.side, l, e))
  {
    InsertMembers(e.side, l, e);
    InsertSorted(e.side, l, e);
    hide Sorted;
  }

  lemma AgreesInsert(t: Table, b: Book, e: Entry)
    requires Agrees(t, b) && e.id !in t && e.remaining > 0
    requires forall x :: x in b.On(e.side) ==> x.enteredAt != e.enteredAt
    ensures Agrees(t[e.id := e], b.With(e.side, Insert(e.side, b.On(e.side), e)))
  {
    AgreesOn(t, b, e.side);
    SideInsert(t, b.On(e.side), e);
    SideUntouched(t, t[e.id := e], e.side.Opposite(), b.On(e.side.Opposite()), e.id);
    hide SideAgrees;
    AgreesWith(t[e.id := e], b, e.side, Insert(e.side, b.On(e.side), e));
  }

  lemma SideDrop(t: Table, side: Side, l: seq<Entry>, ids: set<string>)
    requires SideAgrees(t, side, l) && Keyed(t)
    ensures SideAgrees(t - ids, side, Drop(l, ids))
  {
    DropMembers(l, ids);
    DropSorted(side, l, ids);
    hide Sorted;
  }

  lemma AgreesWithout(t: Table, b: Book, ids: set<string>)
    requires Agrees(t, b)
    ensures Agrees(t - ids, b.Without(ids))
  {
    SideDrop(t, Buy, b.bids, ids);
    SideDrop(t, Sell, b.asks, ids);
    hide SideAgrees;
  }

  /** A table stands for one book only. */
  lemma AgreesUnique(t: Table, b: Book, c: Book)
    requires Agrees(t, b) && Agrees(t, c)
    ensures b == c
  {
    SortedUnique(Buy, b.bids, c.bids);
    SortedUnique(Sell, b.asks, c.asks);
  }
}
