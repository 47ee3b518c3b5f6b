/** The order book of the stub engine: two indexed heaps of shared order objects and an
    id map, kept in step with the sorted-list book that they stand for. */
module StubBook {
  import opened Orders
  import opened OrderHeaps
  import opened Options
  import opened ListBook
  import opened Agreement
  import Clock

  /** The id map holds exactly the orders in the heaps, each on its own side. */
  ghost predicate Linked(bids: set<Order>, asks: set<Order>, orders: map<string, Order>) {
    && (forall o :: o in bids ==> o.side == Buy && o.id in orders && orders[o.id] == o)
    && (forall o :: o in asks ==> o.side == Sell && o.id in orders && orders[o.id] == o)
    && (forall id :: id in orders ==>
          && orders[id].id == id && orders[id].typ == Limit
          && orders[id] in (if orders[id].side.Buy? then bids else asks))
  }

  /** Detaching one order from its heap and from the map keeps them linked. */
  lemma Unlink(bids: set<Order>, asks: set<Order>, orders: map<string, Order>, o: Order)
    requires Linked(bids, asks, orders) && o.id in orders && orders[o.id] == o
    ensures Linked(bids - {o}, asks - {o}, orders - {o.id})
    ensures o.side == Buy ==> asks - {o} == asks
    ensures o.side == Sell ==> bids - {o} == bids
    ensures o in (if o.side.Buy? then bids else asks)
  {
  }

  lemma Link(bids: set<Order>, asks: set<Order>, orders: map<string, Order>, o: Order)
    requires Linked(bids, asks, orders) && o.id !in orders && o.typ == Limit
    ensures o.side == Buy ==> Linked(bids + {o}, asks, orders[o.id := o])
    ensures o.side == Sell ==> Linked(bids, asks + {o}, orders[o.id := o])
  {
  }

  /** What the mapped order objects currently say. */
  function ViewsOf(orders: map<string, Order>): (t: Table)
    reads orders.Values`remaining
    ensures t.Keys == orders.Keys
  {
    map id | id in orders :: orders[id].View()
  }

  lemma ViewsWithout(orders: map<string, Order>, id: string)
    ensures ViewsOf(orders - {id}) == ViewsOf(orders) - {id}
  {
  }

  lemma ViewsWith(orders: map<string, Order>, o: Order)
    ensures ViewsOf(orders[o.id := o]) == ViewsOf(orders)[o.id := o.View()]
  {
  }

  function TakerOf(o: Order): Taker {
    Taker(o.id, o.side, o.typ, o.price)
  }

  twostate lemma ViewsUnchanged(orders: map<string, Order>)
    requires forall id :: id in orders ==> orders[id].remaining == old(orders[id].remaining)
    ensures ViewsOf(orders) == old(ViewsOf(orders))
  {
  }

  class Orderbook {
    const bids: OrderHeap
    const asks: OrderHeap
    var orders: map<string, Order>
    ghost var seen: set<Order> // every order that was ever matched or rested

    function Heap(side: Side): OrderHeap { if side.Buy? then bids else asks }

    ghost function Footprint(): set<object>
      reads this, bids, asks
    {
      {this, bids, asks} + Elements(bids.h) + Elements(asks.h)
    }

    /** Both heaps are in heap order with correct indices, and share no order. */
    ghost predicate Heaps()
      reads bids`h, asks`h, bids.h`index, asks.h`index
    {
      && bids.side == Buy && asks.side == Sell && bids != asks
      && bids.Valid() && asks.Valid()
      && Elements(bids.h) !! Elements(asks.h)
    }

    ghost predicate Valid()
      reads `orders, bids`h, asks`h, bids.h`index, asks.h`index
    {
      Heaps() && Linked(Elements(bids.h), Elements(asks.h), orders)
    }

    ghost function Resting(): set<Order>
      reads bids`h, asks`h
    {
      Elements(bids.h) + Elements(asks.h)
    }

    /** An order that never rested or has left the book has index -1. */
    ghost predicate Tracked()
      reads `seen, seen`index, bids`h, asks`h
    {
      Resting() <= seen && forall o :: o in seen && o !in Resting() ==> o.index == -1
    }

    twostate lemma StillTracked()
      requires old(Tracked()) && seen == old(seen) && Resting() <= old(Resting())
      requires forall o :: o in seen && o !in old(Resting()) ==> o.index == old(o.index)
      requires forall o :: o in old(Resting()) && o !in Resting() ==> o.index == -1
      ensures Tracked()
    {
    }

    function Views(): (t: Table)
      reads `orders, orders.Values`remaining
    {
      ViewsOf(orders)
    }

    /** The heaps stand for the sorted-list book b. */
    ghost predicate Represents(b: Book)
      reads `orders, `seen, seen`index, bids`h, asks`h, bids.h`index, asks.h`index, orders.Values`remaining
    {
      Valid() && Tracked() && Agrees(Views(), b)
    }

    constructor ()
      ensures Represents(Book([], [])) && fresh(Footprint()) && seen == {}
    {
      bids := new OrderHeap(Buy);
      asks := new OrderHeap(Sell);
      orders, seen := map[], {};
    }

    lemma RootIsMapped(side: Side)
      requires Valid() && Heap(side).h != []
      ensures var root := Heap(side).h[0];
              && root in Elements(Heap(side).h) && root.side == side
              && root.id in orders && orders[root.id] == root
    {
    }

    /** The heap's root is the head of the sorted list. */
    lemma RootIsHead(side: Side, b: Book)
      requires Represents(b)
      ensures Heap(side).h == [] <==> b.On(side) == []
      ensures Heap(side).h != [] ==> Heap(side).h[0].View() == b.On(side)[0]
      ensures Heap(side).h != [] ==>
                var root := Heap(side).h[0];
                root in Elements(Heap(side).h) && root.id in orders && orders[root.id] == root
    {
      var h, l := Heap(side).h, b.On(side);
      assert |l| > 0 ==> l[0] in l && orders[l[0].id] in Elements(h);
      if h != [] {
        var root := h[0];
        assert root in Elements(h) && Views()[root.id] in l;
        var i :| 0 <= i < |l| && l[i] == root.View();
        var best := orders[l[0].id];
        var j :| 0 <= j < |h| && h[j] == best;
        RootIsBest(side, h, j);
        assert i > 0 ==> EntryAhead(side, l[0], l[i]);
      }
    }

    /** The order's remaining quantity is written in place; the heaps do not depend on it. */
    method Reduce(o: Order, qty: int)
      requires Valid() && o.id in orders && orders[o.id] == o
      modifies o`remaining
      ensures Valid() && o.remaining == old(o.remaining) - qty
      ensures Views() == old(Views())[o.id := old(o.View()).(remaining := old(o.remaining) - qty)]
    {
      o.remaining := o.remaining - qty;
    }

    /** Re-establishes the heap after its root has been written. */
    method FixRoot(side: Side)
      requires Heaps() && Heap(side).h != []
      modifies Heap(side)`h, Elements(Heap(side).h)`index
      ensures Heaps() && Elements(Heap(side).h) == old(Elements(Heap(side).h))
    {
      Heap(side).Fix(0);
    }

    method PopRoot(side: Side) returns (o: Order)
      requires Heaps() && Heap(side).h != []
      modifies Heap(side)`h, Elements(Heap(side).h)`index
      ensures Heaps() && Elements(Heap(side).h) == old(Elements(Heap(side).h)) - {o}
      ensures o == old(Heap(side).h[0]) && o.index == -1
    {
      o := Heap(side).Pop();
    }

    method RemoveAt(side: Side, i: nat) returns (o: Order)
      requires Heaps() && i < |Heap(side).h|
      modifies Heap(side)`h, Elements(Heap(side).h)`index
      ensures Heaps() && Elements(Heap(side).h) == old(Elements(Heap(side).h)) - {o}
      ensures o == old(Heap(side).h[i]) && o.index == -1
    {
      o := Heap(side).Remove(i);
    }

    method PushTo(side: Side, o: Order)
      requires Heaps() && o !in Elements(bids.h) && o !in Elements(asks.h)
      modifies Heap(side)`h, Elements(Heap(side).h)`index, o`index
      ensures Heaps() && Elements(Heap(side).h) == old(Elements(Heap(side).h)) + {o}
    {
      Heap(side).Push(o);
    }

    method FixBest(side: Side)
      requires Valid() && Heap(side).h != []
      modifies Heap(side)`h, Elements(Heap(side).h)`index
      ensures Valid() && Views() == old(Views())
      ensures Elements(Heap(side).h) == old(Elements(Heap(side).h))
    {
      hide Heaps, Linked, ViewsOf;
      FixRoot(side);
      ViewsUnchanged(orders);
    }

    /** The best resting order is traded away and leaves the book. */
    method ExhaustBest(side: Side)
      requires Valid() && Heap(side).h != []
      modifies `orders, Heap(side)`h, Elements(Heap(side).h)`index
      ensures Valid() && Views() == old(Views()) - {old(Heap(side).h[0].id)}
      ensures orders == old(orders) - {old(Heap(side).h[0].id)}
      ensures Elements(Heap(side).h) == old(Elements(Heap(side).h)) - {old(Heap(side).h[0])}
      ensures old(Heap(side).h[0]).index == -1
    {
      hide Heaps, Linked, ViewsOf;
      RootIsMapped(side);
      var best := Heap(side).h[0];
      Unlink(Elements(bids.h), Elements(asks.h), orders, best);
      ViewsWithout(orders, best.id);
      orders := orders - {best.id};
      best := PopRoot(side);
      ViewsUnchanged(orders);
    }

    /** A trade that leaves something of the best resting order. */
    method TradePart(side: Side, qty: int, ghost b: Book)
      requires Represents(b) && Heap(side).h != [] && b.On(side) != []
      requires 0 < qty < Heap(side).h[0].remaining
      modifies Heap(side)`h, Elements(Heap(side).h)
      ensures Elements(Heap(side).h) == old(Elements(Heap(side).h))
      ensures Represents(b.With(side, ShrinkHead(b.On(side), qty)))
    {
      hide Agrees, Linked, Heaps, ViewsOf, ShrinkHead, Tracked;
      RootIsHead(side, b);
      AgreesShrink(Views(), b, side, qty);
      var best := Heap(side).h[0];
      Reduce(best, qty);
      FixBest(side);
      StillTracked();
    }

    /** A trade that exhausts the best resting order. */
    method TradeAll(side: Side, ghost b: Book)
      requires Represents(b) && Heap(side).h != [] && b.On(side) != []
      modifies `orders, Heap(side)`h, Elements(Heap(side).h)
      ensures Elements(Heap(side).h) == old(Elements(Heap(side).h)) - {old(Heap(side).h[0])}
      ensures orders == old(orders) - {old(Heap(side).h[0].id)}
      ensures Represents(b.With(side, b.On(side)[1..])) && old(Heap(side).h[0]).index == -1
    {
      hide Agrees, Linked, Heaps, ViewsOf, Tracked;
      RootIsHead(side, b);
      AgreesPop(Views(), b, side);
      ghost var t := Views();
      var best := Heap(side).h[0];
      Reduce(best, best.remaining);
      ExhaustBest(side);
      StillTracked();
      assert Views() == t - {best.id};
    }

    /** The incoming order gives up qty; nothing on the book changes. */
    method Take(order: Order, qty: int, ghost b: Book)
      requires Represents(b) && order.id !in orders
      modifies order`remaining
      ensures Represents(b) && order.remaining == old(order.remaining) - qty
    {
      hide Agrees, Linked, ViewsOf, Heaps, Tracked;
      NotInHeaps(order);
      order.remaining := order.remaining - qty;
      ViewsUnchanged(orders);
    }

    /** One trade under a given stamp, with the book it leaves. */
    method Strike(order: Order, ts: int, ghost b: Book) returns (fill: Message, ghost hit: Hit, ghost b': Book)
      requires Represents(b) && order.id !in orders && order.remaining > 0
      requires Heap(order.side.Opposite()).h != [] && b.On(order.side.Opposite()) != []
      modifies `orders, Heap(order.side.Opposite())`h, Elements(Heap(order.side.Opposite()).h), order`remaining
      ensures var opp := order.side.Opposite();
              && Elements(Heap(opp).h) <= old(Elements(Heap(opp).h)) && orders.Keys <= old(orders.Keys)
              && Represents(b') && b' == b.With(opp, AfterTrade(old(order.remaining), b.On(opp)))
      ensures var head := b.On(order.side.Opposite())[0];
              var qty := Min(old(order.remaining), head.remaining);
              && 0 < qty && order.remaining == old(order.remaining) - qty
              && hit == Hit(head, qty, order.remaining, ts) && fill == FillMessage(order.id, hit)
    {
      hide Agrees, Linked, ViewsOf, Heaps, ShrinkHead, Tracked;
      var opp := order.side.Opposite();
      RootIsHead(opp, b);
      RootHasSome(opp, b);
      NotInHeaps(order);
      var best := Heap(opp).h[0];
      var qty := Min(order.remaining, best.remaining);
      Take(order, qty, b);
      fill := Fill(order.id, qty, best.price, order.remaining, ts);
      hit := Hit(b.On(opp)[0], qty, order.remaining, ts);
      if qty == best.remaining {
        b' := b.With(opp, b.On(opp)[1..]);
        TradeAll(opp, b);
      } else {
        b' := b.With(opp, ShrinkHead(b.On(opp), qty));
        TradePart(opp, qty, b);
      }
    }

    /** The body of the matching loop: one trade, stamped, is one step of the list match. */
    method Trade(order: Order, clock: Clock.Sequential, ghost b: Book)
      returns (fill: Message, ghost hit: Hit, ghost b': Book)
      requires Represents(b) && order.id !in orders && order.remaining > 0
      requires Heap(order.side.Opposite()).h != []
      requires Crosses(TakerOf(order), Heap(order.side.Opposite()).h[0].price)
      modifies `orders, Heap(order.side.Opposite())`h, Elements(Heap(order.side.Opposite()).h), order`remaining, clock
      ensures var opp := order.side.Opposite();
              && Elements(Heap(opp).h) <= old(Elements(Heap(opp).h)) && orders.Keys <= old(orders.Keys)
              && Represents(b') && b' == b.With(opp, b'.On(opp)) && fill == FillMessage(order.id, hit)
              && ListBook.Match(clock.wall, TakerOf(order), old(order.remaining), b.On(opp), old(clock.state))
              == ListBook.Match(clock.wall, TakerOf(order), order.remaining, b'.On(opp), clock.state).After([hit])
      ensures order.remaining < old(order.remaining)
    {
      hide Represents, ListBook.Match, ShrinkHead;
      var opp := order.side.Opposite();
      RootIsHead(opp, b);
      MatchStep(clock.wall, TakerOf(order), order.remaining, b.On(opp), clock.state);
      var ts := clock.Now();
      fill, hit, b' := Strike(order, ts, b);
    }

    lemma Lookups(id: string, b: Book)
      requires Represents(b)
      ensures b.Lookup(id) == if id in orders then Some(orders[id].View()) else None
    {
    }

    lemma NotInHeaps(order: Order)
      requires Valid() && order.id !in orders
      ensures order !in orders.Values && order !in Elements(bids.h) && order !in Elements(asks.h)
    {
    }

    lemma RootHasSome(side: Side, b: Book)
      requires Represents(b) && Heap(side).h != []
      ensures Heap(side).h[0].remaining > 0 && Heap(side).h[0].id in orders
    {
      RootIsMapped(side);
      hide Sorted;
      assert Views()[Heap(side).h[0].id].remaining > 0;
    }

    /** An incoming order is followed from its match on. */
    ghost method Admit(order: Order, b: Book)
      requires Represents(b) && order.index == -1
      modifies `seen
      ensures Represents(b) && seen == old(seen) + {order}
    {
      hide Heaps, Agrees, Linked, ViewsOf;
      seen := seen + {order};
    }

    /** `match`: trade the incoming order against the opposite heap, best first. */
    method Match(order: Order, clock: Clock.Sequential, ghost b: Book) returns (fills: seq<Message>)
      requires Represents(b) && order.id !in orders && order.index == -1
      modifies `orders, `seen, Heap(order.side.Opposite())`h, Elements(Heap(order.side.Opposite()).h)
      modifies order`remaining, clock
      ensures seen == old(seen) + {order}
      ensures var opp := order.side.Opposite();
              var m := ListBook.Match(clock.wall, TakerOf(order), old(order.remaining), b.On(opp), old(clock.state));
              && Elements(Heap(opp).h) <= old(Elements(Heap(opp).h)) && orders.Keys <= old(orders.Keys)
              && Represents(b.With(opp, m.side))
              && order.remaining == m.left && clock.state == m.clock
              && fills == FillMessages(order.id, m.hits)
    {
      hide Agrees, Linked, ViewsOf, Heaps, ListBook.Match, Tracked;
      Admit(order, b);
      var opp := order.side.Opposite();
      ghost var cur, hits: seq<Hit> := b, [];
      ghost var m := ListBook.Match(clock.wall, TakerOf(order), order.remaining, b.On(opp), clock.state);
      fills := [];
      while order.remaining > 0 && Heap(opp).h != []
        invariant Represents(cur) && cur == b.With(opp, cur.On(opp))
        invariant Elements(Heap(opp).h) <= old(Elements(Heap(opp).h)) && orders.Keys <= old(orders.Keys)
        invariant seen == old(seen) + {order} && fills == FillMessages(order.id, hits)
        invariant m == ListBook.Match(clock.wall, TakerOf(order), order.remaining, cur.On(opp), clock.state).After(hits)
        decreases order.remaining
      {
        if !Crosses(TakerOf(order), Heap(opp).h[0].price) {
          break;
        }
        ghost var hit, b';
        var fill: Message;
        fill, hit, b' := Trade(order, clock, cur);
        fills := fills + [fill];
        AfterAfter(ListBook.Match(clock.wall, TakerOf(order), order.remaining, b'.On(opp), clock.state), hits, [hit]);
        cur, hits := b', hits + [hit];
      }
      RootIsHead(opp, cur);
      MatchStops(clock.wall, TakerOf(order), order.remaining, cur.On(opp), clock.state);
    }

    /** `rest`: put what is left of a limit order on its own side. */
    method Rest(order: Order, ghost b: Book)
      requires Represents(b) && order.id !in orders && order.typ == Limit && order.remaining > 0 && order in seen
      requires forall x :: x in b.On(order.side) ==> x.enteredAt != order.enteredAt
      modifies `orders, Heap(order.side)`h, Elements(Heap(order.side).h)`index, order`index
      ensures Represents(b.With(order.side, Insert(order.side, b.On(order.side), order.View())))
      ensures Elements(Heap(order.side).h) == old(Elements(Heap(order.side).h)) + {order}
    {
      hide Agrees, Linked, ViewsOf, Heaps;
      NotInHeaps(order);
      Link(Elements(bids.h), Elements(asks.h), orders, order);
      AgreesInsert(Views(), b, order.View());
      ViewsWith(orders, order);
      orders := orders[order.id := order];
      PushTo(order.side, order);
      ViewsUnchanged(orders);
    }

    /** A mapped order's stored index is its position on its own side's heap. */
    lemma MappedIndex(id: string)
      requires Valid() && id in orders
      ensures var o := orders[id];
              o.id == id && 0 <= o.index < |Heap(o.side).h| && Heap(o.side).h[o.index] == o
    {
    }

    /** `remove`: by id, through the index the order stores. */
    method Remove(id: string, ghost b: Book)
      requires Represents(b)
      modifies `orders, bids`h, asks`h, Elements(bids.h)`index, Elements(asks.h)`index
      ensures Represents(b.Without({id})) && orders == old(orders) - {id}
      ensures id in old(orders) ==> old(orders[id]).index == -1
      ensures Elements(bids.h) <= old(Elements(bids.h)) && Elements(asks.h) <= old(Elements(asks.h))
    {
      hide Agrees, Linked, ViewsOf, Heaps;
      AgreesWithout(Views(), b, {id});
      ViewsWithout(orders, id);
      if id !in orders {
        assert orders == orders - {id};
        return;
      }
      MappedIndex(id);
      var order := orders[id];
      Unlink(Elements(bids.h), Elements(asks.h), orders, order);
      orders := orders - {id};
      if 0 <= order.index < |Heap(order.side).h| {
        order := RemoveAt(order.side, order.index);
      }
      ViewsUnchanged(orders);
    }

    /** `cancelSession`: collect the session's orders in any map order, then remove each. */
    method CancelSession(session: string, ghost b: Book)
      requires Represents(b)
      modifies `orders, bids`h, asks`h, Elements(bids.h)`index, Elements(asks.h)`index
      ensures Represents(b.Without(b.IdsOf(session)))
      ensures Elements(bids.h) <= old(Elements(bids.h)) && Elements(asks.h) <= old(Elements(asks.h))
    {
      hide Agrees, ViewsOf, Heaps, Linked;
      var toRemove := SessionOrders(session);
      MappedSession(session, b);
      ghost var gone: set<string> := {};
      assert b.Without(gone) == b by {
        DropNothing(b.bids);
        DropNothing(b.asks);
      }
      for k := 0 to |toRemove|
        invariant gone == OrderIds(toRemove[..k])
        invariant Represents(b.Without(gone))
        invariant Elements(bids.h) <= old(Elements(bids.h)) && Elements(asks.h) <= old(Elements(asks.h))
      {
        Remove(toRemove[k].id, b.Without(gone));
        DropDrop(b.bids, gone, {toRemove[k].id});
        DropDrop(b.asks, gone, {toRemove[k].id});
        assert toRemove[..k + 1] == toRemove[..k] + [toRemove[k]];
        gone := gone + {toRemove[k].id};
      }
      assert toRemove[..|toRemove|] == toRemove;
    }

    /** The orders of one session, in whatever order the map yields them. */
    method SessionOrders(session: string) returns (found: seq<Order>)
      requires Valid()
      ensures OrderIds(found) == set id | id in orders && orders[id].session == session
    {
      found := [];
      var todo := orders.Keys;
      while todo != {}
        invariant todo <= orders.Keys
        invariant OrderIds(found) == set id | id in orders && id !in todo && orders[id].session == session
      {
        var id :| id in todo;
        todo := todo - {id};
        if orders[id].session == session {
          assert OrderIds(found + [orders[id]]) == OrderIds(found) + {orders[id].id};
          found := found + [orders[id]];
        }
      }
    }

    lemma MappedSession(session: string, b: Book)
      requires Represents(b)
      ensures b.IdsOf(session) == set id | id in orders && orders[id].session == session
    {
    }
  }

  function OrderIds(os: seq<Order>): set<string> {
    set o | o in os :: o.id
  }
}
