/** The indexed-heap server with its requests interleaved call by call: the order objects,
    heaps and map are changed by whichever handler holds the book's lock, one round of the
    matching loop at a time, while other handlers take stamps and send replies. */
module SharedServer {
  import opened Orders
  import opened ListBook
  import opened StubBook
  import opened BookInvariants
  import opened Interleaving
  import Clock

  class Shared {
    const book: Orderbook
    var last: nat
    var holder: Order?            // the order whose handler holds the lock
    var collected: seq<Message>   // its messages to send after unlocking
    var tasks: map<string, Task>
    var out: seq<(string, Message)>

    ghost function Footprint(): set<object>
      reads this, book, book.bids, book.asks
    {
      {this} + book.Footprint() + (if holder == null then {} else {holder})
    }

    /** The holder is the order of the section h, as far as its match has come. */
    ghost predicate Holds(h: Section)
      reads this, holder, book`seen
    {
      && holder != null && holder in book.seen && holder.id == h.r.id && holder.side == h.Side()
      && holder.typ == TypeOf(h.r) && collected == h.Collected()
      && holder.View() == Entry(h.r.id, h.Side(), h.r.price, h.r.quantity, h.left, h.entered, h.session)
    }

    ghost predicate Represents(s: State)
      reads this, holder, book`orders, book`seen, book.seen`index, book.bids`h, book.asks`h
      reads book.bids.h`index, book.asks.h`index, book.orders.Values`remaining
    {
      && book.Represents(s.book) && last == s.last && tasks == s.tasks && out == s.out && Sound(s)
      && (holder == null <==> s.lock.None?) && (s.lock.Some? ==> Holds(s.lock.value))
    }

    constructor ()
      ensures Represents(Interleaving.START) && fresh(Footprint())
    {
      hide Orderbook.Represents;
      StartSound();
      book := new Orderbook();
      last, holder, collected, tasks, out := 0, null, [], map[], [];
    }

    method Open(addr: string, reading: int, ghost s: State)
      requires Represents(s)
      modifies `last, `tasks
      ensures Represents(Next(s, Action.Open(addr, reading)))
    {
      hide Orderbook.Represents, Sound, SessionId;
      OpenSound(s, addr, reading);
      last := Clock.After(reading, last);
      tasks := tasks[SessionId(addr, last) := Reading];
    }

    method Stamp(x: string, reading: int, ghost s: State)
      requires Represents(s)
      modifies `last, `tasks
      ensures Represents(Next(s, Action.Stamp(x, reading)))
    {
      hide Orderbook.Represents, Sound;
      NextSound(s, Action.Stamp(x, reading));
      if x in tasks && tasks[x].Stamping? {
        last := Clock.After(reading, last);
        tasks := tasks[x := Sending([WithStamp(tasks[x].reply, last)])];
      }
    }

    method Send(x: string, ghost s: State)
      requires Represents(s)
      modifies `tasks, `out
      ensures Represents(Next(s, Action.Send(x)))
    {
      hide Orderbook.Represents, Sound;
      NextSound(s, Action.Send(x));
      if x in tasks && tasks[x].Sending? {
        if tasks[x].replies == [] {
          tasks := tasks[x := Reading];
        } else {
          out := out + [(x, tasks[x].replies[0])];
          tasks := tasks[x := Sending(tasks[x].replies[1..])];
        }
      }
    }

    /** An order request that finds the lock free and its id unused. */
    method Enter(x: string, r: Request, reading: int, ghost s: State)
      requires Represents(s) && x in tasks && tasks[x].Reading? && r.kind == "order"
      requires holder == null && Validate(r).None? && r.id !in book.orders
      modifies this, book`seen
      ensures Represents(OrderNext(s, x, r, reading))
      ensures fresh(Footprint() - old(Footprint()))
    {
      hide Orderbook.Represents, Sound, Validate, Find;
      book.Lookups(r.id, s.book);
      EnterSound(s, x, r, reading);
      last := Clock.After(reading, last);
      var order := new Order(r.id, SideOf(r), TypeOf(r), r.price, r.quantity, last, x);
      book.Admit(order, s.book);
      assert FillMessages(r.id, []) == [];
      holder, collected, tasks := order, [Ack(r.id, last)], tasks[x := Locked];
    }

    method Ask(x: string, r: Request, reading: int, ghost s: State)
      requires Represents(s)
      modifies Footprint()
      ensures Represents(Next(s, Action.Ask(x, r, reading)))
      ensures fresh(Footprint() - old(Footprint()))
    {
      hide Orderbook.Represents, Sound, Validate, Find, Drop, Section.Collected;
      NextSound(s, Action.Ask(x, r, reading));
      book.Lookups(r.id, s.book);
      if x !in tasks || !tasks[x].Reading? {
        return;
      }
      if r.kind == "order" {
        var bad := Validate(r);
        if bad.Some? {
          tasks := tasks[x := Stamping(Reject(r.id, bad.value, 0))];
        } else if holder == null {
          if r.id in book.orders {
            tasks := tasks[x := Stamping(Reject(r.id, DuplicateOrderId, 0))];
          } else {
            Enter(x, r, reading, s);
          }
        }
      } else if r.kind == "cancel" {
        if holder == null {
          if r.id !in book.orders {
            tasks := tasks[x := Stamping(Reject(r.id, UnknownOrder, 0))];
          } else if book.orders[r.id].session != x {
            tasks := tasks[x := Stamping(Reject(r.id, Unauthorized, 0))];
          } else {
            book.Remove(r.id, s.book);
            tasks := tasks[x := Stamping(CancelAck(r.id, 0))];
          }
        }
      } else {
        tasks := tasks[x := Stamping(Reject(r.id, UnknownType, 0))];
      }
    }

    lemma HolderFree(s: State)
      requires Represents(s) && s.lock.Some?
      ensures holder.id !in book.orders
      ensures forall y :: y in s.book.On(holder.side) ==> y.enteredAt != holder.enteredAt
    {
      hide BookOk, Issued, Follows, Validate, StampsOk, Orderbook.Represents, Find;
      book.Lookups(holder.id, s.book);
      LookupMembers(s.book, holder.id);
    }

    /** The heap's root decides whether the matching loop goes on. */
    lemma RootDecides(s: State)
      requires Represents(s) && s.lock.Some?
      ensures var opp := holder.side.Opposite();
              CanTrade(s.book, s.lock.value) <==>
              holder.remaining > 0 && book.Heap(opp).h != [] && Crosses(TakerOf(holder), book.Heap(opp).h[0].price)
    {
      hide Sound, Orderbook.Represents, Crosses;
      book.RootIsHead(holder.side.Opposite(), s.book);
    }

    method Trade(reading: int, ghost s: State)
      requires Represents(s)
      modifies Footprint()
      ensures Represents(Next(s, Action.Trade(reading)))
      ensures fresh(Footprint() - old(Footprint()))
    {
      hide Orderbook.Represents, Sound, Crosses, AfterTrade, CanTrade;
      NextSound(s, Action.Trade(reading));
      if holder == null {
        return;
      }
      RootDecides(s);
      HolderFree(s);
      book.RootIsHead(holder.side.Opposite(), s.book);
      var opp := holder.side.Opposite();
      if holder.remaining > 0 && book.Heap(opp).h != [] && Crosses(TakerOf(holder), book.Heap(opp).h[0].price) {
        ghost var hit, b';
        var fill: Message;
        last := Clock.After(reading, last);
        fill, hit, b' := book.Strike(holder, last, s.book);
        ghost var h := s.lock.value;
        assert FillMessages(h.r.id, h.hits + [hit]) == FillMessages(h.r.id, h.hits) + [fill];
        collected := collected + [fill];
      }
    }

    method Finish(reading: int, ghost s: State)
      requires Represents(s)
      modifies Footprint()
      ensures Represents(Next(s, Action.Finish(reading)))
      ensures fresh(Footprint() - old(Footprint()))
    {
      hide Orderbook.Represents, Sound, Crosses, CanTrade, Insert, Section.Collected;
      NextSound(s, Action.Finish(reading));
      if holder == null {
        return;
      }
      RootDecides(s);
      HolderFree(s);
      var opp := holder.side.Opposite();
      if holder.remaining > 0 && book.Heap(opp).h != [] && Crosses(TakerOf(holder), book.Heap(opp).h[0].price) {
        return;
      }
      if holder.typ == Market && holder.remaining > 0 {
        last := Clock.After(reading, last);
        collected := collected + [Reject(holder.id, NoLiquidity, last)];
      } else if holder.remaining > 0 {
        book.Rest(holder, s.book);
      }
      tasks := tasks[holder.session := Sending(collected)];
      holder := null;
    }

    method Close(x: string, ghost s: State)
      requires Represents(s)
      modifies Footprint()
      ensures Represents(Next(s, Action.Close(x)))
      ensures fresh(Footprint() - old(Footprint()))
    {
      hide Orderbook.Represents, Sound;
      NextSound(s, Action.Close(x));
      if x in tasks && tasks[x].Reading? && holder == null {
        book.CancelSession(x, s.book);
        tasks := tasks - {x};
      }
    }

    method Step(a: Action, ghost s: State)
      requires Represents(s)
      modifies Footprint()
      ensures Represents(Next(s, a))
      ensures fresh(Footprint() - old(Footprint()))
    {
      hide Represents, Next;
      match a
      case Open(addr, reading) => Open(addr, reading, s);
      case Ask(x, r, reading) => Ask(x, r, reading, s);
      case Trade(reading) => Trade(reading, s);
      case Finish(reading) => Finish(reading, s);
      case Stamp(x, reading) => Stamp(x, reading, s);
      case Send(x) => Send(x, s);
      case Close(x) => Close(x, s);
    }
  }

  /** Refinement under concurrency: over every interleaving of any number of sessions the
      indexed-heap server stays in step with the sorted-list book, in the middle of a match
      as well, and has sent the same messages with the same stamps. */
  method Serve(actions: seq<Action>) returns (server: Shared)
    ensures server.Represents(Interleaving.Run(actions))
  {
    hide Shared.Represents, Next;
    server := new Shared();
    ghost var s := Interleaving.START;
    for i := 0 to |actions|
      invariant fresh(server.Footprint())
      invariant s == Interleaving.Run(actions[..i]) && server.Represents(s)
    {
      server.Step(actions[i], s);
      assert actions[..i + 1][..i] == actions[..i];
      s := Next(s, actions[i]);
    }
    assert actions[..|actions|] == actions;
  }

  lemma StartSound()
    ensures Sound(Interleaving.START)
  {
  }
}
