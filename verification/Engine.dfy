/** The server of the stub engine: sessions, handlers and clock around the heap book, and
    the theorem that it refines the sorted-list engine over every run. */
module Engine {
  import opened Orders
  import opened OrderHeaps
  import opened ListBook
  import opened StubBook
  import opened Agreement
  import opened BookInvariants
  import opened Snapshot
  import opened PriceTime
  import opened EngineRuns
  import Clock

  lemma EmptyOk()
    ensures SysOk(EMPTY) && Followed({}, EMPTY.log, EMPTY.clock.last)
  {
  }

  /** One order object for every accepted order, told apart by entry time, and no other. */
  ghost predicate Followed(seen: set<Order>, log: seq<Record>, last: int) {
    && (forall o :: o in seen ==> o.enteredAt <= last && Accepted(o.enteredAt, o.quantity) in log)
    && (forall o, p :: o in seen && p in seen && o.enteredAt == p.enteredAt ==> o == p)
    && (forall r :: r in log && r.Accepted? ==> exists o :: o in seen && o.enteredAt == r.key && o.quantity == r.qty)
  }

  lemma FollowedOn(seen: set<Order>, log: seq<Record>, more: seq<Record>, last: int, later: int)
    requires Followed(seen, log, last) && last <= later && forall r :: r in more ==> !r.Accepted?
    ensures Followed(seen, log + more, later)
  {
  }

  lemma FollowedWith(seen: set<Order>, log: seq<Record>, last: int, o: Order)
    requires Followed(seen, log, last) && last < o.enteredAt
    ensures Followed(seen + {o}, log + [Accepted(o.enteredAt, o.quantity)], o.enteredAt)
  {
    var more := log + [Accepted(o.enteredAt, o.quantity)];
    assert more[|log|] == Accepted(o.enteredAt, o.quantity);
    forall r | r in more && r.Accepted?
      ensures exists p :: p in seen + {o} && p.enteredAt == r.key && p.quantity == r.qty
    {
      if r in log {
        var p :| p in seen && p.enteredAt == r.key && p.quantity == r.qty;
        assert p in seen + {o};
      } else {
        assert o in seen + {o};
      }
    }
  }

  lemma AcceptFollowed(wall: Clock.Wall, s: System, session: string, r: Request, seen: set<Order>, o: Order)
    requires Followed(seen, s.log, s.clock.last)
    requires o.enteredAt == Clock.Tick(wall, s.clock).last && o.quantity == r.quantity
    ensures var a := ListBook.Accept(wall, s, session, r); Followed(seen + {o}, a.log, a.clock.last)
  {
    hide ListBook.Match, Followed, Insert;
    var t, c := Taker(r.id, SideOf(r), TypeOf(r), r.price), Clock.Tick(wall, s.clock);
    var m := ListBook.Match(wall, t, r.quantity, s.book.On(SideOf(r).Opposite()), c);
    MatchStamped(wall, t, r.quantity, s.book.On(SideOf(r).Opposite()), c);
    FollowedWith(seen, s.log, s.clock.last, o);
    var log := s.log + [Accepted(c.last, r.quantity)];
    FollowedOn(seen + {o}, log, Trades(c.last, m.hits), c.last, m.clock.last);
    FollowedOn(seen + {o}, log + Trades(c.last, m.hits), [Unfilled(c.last, m.left)], m.clock.last,
               Clock.Tick(wall, m.clock).last);
  }

  lemma CancellationsFollowed(seen: set<Order>, s: System, ids: set<string>, later: int)
    requires Followed(seen, s.log, s.clock.last) && s.clock.last <= later
    ensures Followed(seen, s.log + s.book.Cancellations(ids), later) && Followed(seen, s.log, later)
  {
    hide Followed;
    NoAcceptance(s.book.bids, ids);
    NoAcceptance(s.book.asks, ids);
    FollowedOn(seen, s.log, s.book.Cancellations(ids), s.clock.last, later);
    FollowedOn(seen, s.log, [], s.clock.last, later);
    assert s.log + [] == s.log;
  }

  class Server {
    const book: Orderbook
    const clock: Clock.Sequential
    var sessions: set<string>
    var out: seq<(string, Message)>

    /** The server's observable state is that of the sorted-list engine s. */
    ghost predicate Represents(s: System)
      reads this, clock, book`orders, book`seen, book.seen`index, book.bids`h, book.asks`h
      reads book.bids.h`index, book.asks.h`index, book.orders.Values`remaining
    {
      && book.Represents(s.book) && clock.state == s.clock && sessions == s.sessions && out == s.out
      && SysOk(s) && Followed(book.seen, s.log, s.clock.last)
    }

    ghost function Footprint(): set<object>
      reads this, book, book.bids, book.asks
    {
      {this, clock} + book.Footprint()
    }

    constructor (wall: Clock.Wall)
      ensures Represents(EMPTY) && clock.wall == wall && fresh(Footprint())
    {
      hide Followed, Orderbook.Represents, SysOk;
      EmptyOk();
      book := new Orderbook();
      clock := new Clock.Sequential(wall);
      sessions, out := {}, [];
    }

    method Refuse(session: string, id: string, reason: Reason, ghost s: System)
      requires Represents(s)
      modifies this, clock
      ensures Represents(ListBook.Refuse(clock.wall, s, session, id, reason))
    {
      hide Followed, Orderbook.Represents, SysOk;
      RefuseKeeps(clock.wall, s, session, id, reason);
      CancellationsFollowed(book.seen, s, {}, Clock.Tick(clock.wall, s.clock).last);
      var ts := clock.Now();
      out := out + [(session, Reject(id, reason, ts))];
    }

    /** Stamps a new order object and matches it. */
    method Enter(session: string, r: Request, ghost s: System)
      returns (order: Order, fills: seq<Message>, ghost m: Outcome)
      requires Represents(s) && r.id !in book.orders
      modifies clock, book.Footprint()
      ensures m == ListBook.Match(clock.wall, TakerOf(order), r.quantity, s.book.On(order.side.Opposite()),
                                  Clock.Tick(clock.wall, s.clock))
      ensures fresh(order) && order.id == r.id && order.side == SideOf(r) && order.typ == TypeOf(r)
      ensures order.View() == Entry(r.id, SideOf(r), r.price, r.quantity, m.left,
                                    Clock.Tick(clock.wall, s.clock).last, session)
      ensures TakerOf(order) == Taker(r.id, SideOf(r), TypeOf(r), r.price)
      ensures fills == FillMessages(r.id, m.hits) && clock.state == m.clock
      ensures book.Represents(s.book.With(order.side.Opposite(), m.side)) && r.id !in book.orders
      ensures book.seen == old(book.seen) + {order}
      ensures book.Footprint() <= old(book.Footprint())
    {
      hide Followed, Orderbook.Represents, SysOk, ListBook.Match;
      var entered := clock.Now();
      order := new Order(r.id, SideOf(r), TypeOf(r), r.price, r.quantity, entered, session);
      fills := book.Match(order, clock, s.book);
      m := ListBook.Match(clock.wall, TakerOf(order), r.quantity, s.book.On(order.side.Opposite()),
                          Clock.Tick(clock.wall, s.clock));
    }

    /** The locked section of `handleOrder` for a valid order with a free id. */
    method Accept(session: string, r: Request, ghost s: System)
      requires Represents(s) && session in s.sessions
      requires Validate(r).None? && r.id !in book.orders
      modifies Footprint()
      ensures Represents(ListBook.Accept(clock.wall, s, session, r))
      ensures fresh(Footprint() - old(Footprint())) && old(book.seen) <= book.seen
    {
      hide Followed, Orderbook.Represents, SysOk, ListBook.Match, Insert, Validate, Find, ListBook.Accept;
      book.Lookups(r.id, s.book);
      AcceptKeeps(clock.wall, s, session, r);
      ghost var seen := book.seen;
      OwnSideEarlier(s, SideOf(r), Clock.Tick(clock.wall, s.clock).last);
      ghost var m;
      var order: Order, fills: seq<Message>;
      order, fills, m := Enter(session, r, s);
      var toSend := [Ack(r.id, order.enteredAt)] + fills;
      AcceptValue(clock.wall, s, session, r, m);
      AcceptFollowed(clock.wall, s, session, r, seen, order);
      if order.typ == Market && order.remaining > 0 {
        var ts := clock.Now();
        assert out + Addressed(session, toSend + [Reject(r.id, NoLiquidity, ts)])
            == out + Addressed(session, toSend) + [(session, Reject(r.id, NoLiquidity, ts))];
        toSend := toSend + [Reject(r.id, NoLiquidity, ts)];
      } else if order.remaining > 0 {
        book.Rest(order, s.book.With(order.side.Opposite(), m.side));
      }
      out := out + Addressed(session, toSend);
    }

    lemma Observed(s: System)
      requires Represents(s)
      ensures out == s.out && sessions == s.sessions
      ensures book.Represents(s.book) && Agrees(book.Views(), s.book)
    {
    }

    /** Where every order object is: on its own side's heap at the index it stores, under its
        own id in the map, of limit type, live and owned by an open session; or nowhere,
        with index -1. Neither heap nor the map holds anything else, and there is exactly
        one object for each order accepted. */
    lemma EveryOrderAccounted(s: System)
      requires Represents(s)
      ensures forall o :: o in book.seen ==>
                var h := book.Heap(o.side).h;
                if o.index == -1 then o !in book.bids.h && o !in book.asks.h && o !in book.orders.Values
                else
                  && 0 <= o.index < |h| && h[o.index] == o && o.id in book.orders && book.orders[o.id] == o
                  && o.typ == Limit && 0 < o.remaining <= o.quantity && o.session in sessions
      ensures forall o :: o in book.bids.h || o in book.asks.h <==> o in book.orders.Values
      ensures forall o :: o in book.orders.Values ==> o in book.seen
      ensures Followed(book.seen, s.log, s.clock.last)
    {
      hide SysOk, Agrees, Sorted, Heaped;
      forall id | id in book.orders
        ensures book.orders[id].remaining > 0 && book.orders[id].remaining <= book.orders[id].quantity
        ensures book.orders[id].session in sessions
      {
        RestingOk(id, s);
      }
    }

    lemma RestingOk(id: string, s: System)
      requires Represents(s) && id in book.orders
      ensures 0 < book.orders[id].remaining <= book.orders[id].quantity && book.orders[id].session in sessions
    {
      hide Heaped, Sorted, Distinct, Uncrossed, OutOk, Issued;
      assert book.Views()[id] in s.book.On(book.orders[id].side);
    }

    lemma OwnSideEarlier(s: System, side: Side, now: int)
      requires SysOk(s) && s.clock.last < now
      ensures forall x :: x in s.book.On(side) ==> x.enteredAt != now
    {
    }

    method HandleOrder(session: string, r: Request, ghost s: System)
      requires Represents(s) && session in s.sessions
      modifies Footprint()
      ensures Represents(ListBook.HandleOrder(clock.wall, s, session, r))
      ensures fresh(Footprint() - old(Footprint())) && old(book.seen) <= book.seen
    {
      hide Followed, Orderbook.Represents, SysOk, ListBook.Accept, ListBook.Refuse;
      book.Lookups(r.id, s.book);
      var bad := Validate(r);
      if bad.Some? {
        Refuse(session, r.id, bad.value, s);
      } else if r.id in book.orders {
        Refuse(session, r.id, DuplicateOrderId, s);
      } else {
        Accept(session, r, s);
      }
    }

    method HandleCancel(session: string, id: string, ghost s: System)
      requires Represents(s)
      modifies Footprint()
      ensures Represents(ListBook.HandleCancel(clock.wall, s, session, id))
      ensures fresh(Footprint() - old(Footprint())) && old(book.seen) <= book.seen
    {
      hide Followed, Orderbook.Represents, SysOk, ListBook.Refuse;
      book.Lookups(id, s.book);
      CancelKeeps(clock.wall, s, session, id);
      CancellationsFollowed(book.seen, s, {id}, Clock.Tick(clock.wall, s.clock).last);
      if id !in book.orders {
        Refuse(session, id, UnknownOrder, s);
      } else if book.orders[id].session != session {
        Refuse(session, id, Unauthorized, s);
      } else {
        book.Remove(id, s.book);
        var ts := clock.Now();
        out := out + [(session, CancelAck(id, ts))];
      }
    }

    method HandleDisconnect(session: string, ghost s: System)
      requires Represents(s)
      modifies Footprint()
      ensures Represents(ListBook.HandleDisconnect(s, session))
      ensures fresh(Footprint() - old(Footprint())) && old(book.seen) <= book.seen
    {
      hide Followed, Orderbook.Represents, SysOk;
      DisconnectKeeps(s, session);
      CancellationsFollowed(book.seen, s, s.book.IdsOf(session), s.clock.last);
      book.CancelSession(session, s.book);
      sessions := sessions - {session};
    }

    method HandleConnect(addr: string, ghost s: System)
      requires Represents(s)
      modifies this, clock
      ensures Represents(ListBook.HandleConnect(clock.wall, s, addr))
    {
      hide Followed, Orderbook.Represents, SysOk, SessionId;
      ConnectKeeps(clock.wall, s, addr);
      CancellationsFollowed(book.seen, s, {}, Clock.Tick(clock.wall, s.clock).last);
      var ts := clock.Now();
      sessions := sessions + {SessionId(addr, ts)};
    }

    method Step(cmd: Command, ghost s: System)
      requires Represents(s)
      modifies Footprint()
      ensures Represents(ListBook.Step(clock.wall, s, cmd))
      ensures fresh(Footprint() - old(Footprint())) && old(book.seen) <= book.seen
    {
      hide Followed, Orderbook.Represents, SysOk, ListBook.Refuse, ListBook.HandleOrder, ListBook.HandleCancel;
      match cmd
      case Connect(addr) => HandleConnect(addr, s);
      case Deliver(session, r) =>
        if session in sessions {
          if r.kind == "order" {
            HandleOrder(session, r, s);
          } else if r.kind == "cancel" {
            HandleCancel(session, r.id, s);
          } else {
            Refuse(session, r.id, UnknownType, s);
          }
        }
      case Disconnect(session) =>
        if session in sessions {
          HandleDisconnect(session, s);
        }
    }
  }

  /** The server after any run. Its heaps are in order, its indices and its id map are
      right, and it stands for the sorted-list engine after the same run. */
  method Serve(wall: Clock.Wall, cmds: seq<Command>) returns (server: Server)
    ensures server.Represents(Run(wall, cmds))
  {
    hide Server.Represents;
    server := new Server(wall);
    ghost var s := EMPTY;
    for i := 0 to |cmds|
      invariant fresh(server.Footprint()) && server.clock.wall == wall
      invariant s == Run(wall, cmds[..i]) && server.Represents(s)
    {
      server.Step(cmds[i], s);
      assert cmds[..i + 1][..i] == cmds[..i];
      s := ListBook.Step(wall, s, cmds[i]);
    }
    assert cmds[..|cmds|] == cmds;
  }

  /** Refinement: over every wall clock and every sequence of connects, orders, cancels and
      disconnects, the indexed-heap server sends exactly the messages of the sorted-list
      engine, in the same order with the same stamps, keeps the same sessions open, holds
      exactly its orders, and serves the snapshot that describes them. */
  method Simulate(wall: Clock.Wall, cmds: seq<Command>)
    returns (sent: seq<(string, Message)>, open: set<string>, held: Table, bids: seq<Level>, asks: seq<Level>)
    ensures var s := Run(wall, cmds);
            && sent == s.out && open == s.sessions
            && Agrees(held, s.book) && (forall b :: Agrees(held, b) ==> b == s.book)
            && Describes(Buy, bids, s.book.bids) && Describes(Sell, asks, s.book.asks)
  {
    hide Server.Represents, Describes, Agrees, Orderbook.Represents, Run;
    var server := Serve(wall, cmds);
    ghost var s := Run(wall, cmds);
    server.Observed(s);
    sent, open, held := server.out, server.sessions, server.book.Views();
    forall b | Agrees(held, b)
      ensures b == s.book
    {
      AgreesUnique(held, b, s.book);
    }
    bids, asks := Snapshot.Take(server.book, s.book);
  }
}
