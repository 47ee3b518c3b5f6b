/** The reference engine: each side of the book is a plain list in price-time order.
    The indexed-heap engine is proved to emit the same messages and hold the same orders. */
module ListBook {
  import opened Options
  import opened Orders
  import Chains
  import Clock
  import Decimal

  // ---------- Wire messages ----------

  datatype Reason =
    | InvalidOrder | InvalidQuantity | InvalidPrice | DuplicateOrderId
    | NoLiquidity | UnknownOrder | Unauthorized | UnknownType

  datatype Message =
    | Ack(id: string, ts: int)
    | Fill(id: string, qty: int, price: real, remaining: int, ts: int)
    | CancelAck(id: string, ts: int)
    | Reject(id: string, reason: Reason, ts: int)

  datatype Request = Request(kind: string, id: string, side: string, typ: string, price: real, quantity: int)

  predicate IdChar(c: char) {
    'A' <= c <= 'Z' || 'a' <= c <= 'z' || '0' <= c <= '9' || c == '/' || c == '-'
  }

  predicate ValidId(id: string) {
    0 < |id| <= 64 && forall i :: 0 <= i < |id| ==> IdChar(id[i])
  }

  /** The field checks of `handleOrder`, in its order. */
  function Validate(r: Request): Option<Reason> {
    if !ValidId(r.id) || (r.side != "buy" && r.side != "sell") || (r.typ != "limit" && r.typ != "market") then
      Some(InvalidOrder)
    else if r.quantity <= 0 then Some(InvalidQuantity)
    else if r.typ == "limit" && r.price <= 0.0 then Some(InvalidPrice)
    else None
  }

  function SideOf(r: Request): Side { if r.side == "buy" then Buy else Sell }

  function TypeOf(r: Request): OrderType { if r.typ == "limit" then Limit else Market }

  // ---------- Sorted sides ----------

  ghost predicate Sorted(side: Side, l: seq<Entry>) {
    forall i, j :: 0 <= i < j < |l| ==> EntryAhead(side, l[i], l[j])
  }

  function Insert(side: Side, l: seq<Entry>, e: Entry): seq<Entry> {
    if l == [] || EntryAhead(side, e, l[0]) then [e] + l else [l[0]] + Insert(side, l[1..], e)
  }

  function Drop(l: seq<Entry>, ids: set<string>): seq<Entry> {
    if l == [] then [] else (if l[0].id in ids then [] else [l[0]]) + Drop(l[1..], ids)
  }

  function Find(l: seq<Entry>, id: string): (r: Option<Entry>)
    ensures r.Some? ==> r.value in l && r.value.id == id
    ensures r.None? ==> forall e :: e in l ==> e.id != id
  {
    if l == [] then None else if l[0].id == id then Some(l[0]) else Find(l[1..], id)
  }

  lemma {:induction false} InsertMembers(side: Side, l: seq<Entry>, e: Entry)
    ensures forall x :: x in Insert(side, l, e) <==> x == e || x in l
  {
    if l != [] && !EntryAhead(side, e, l[0]) {
      InsertMembers(side, l[1..], e);
      assert l == [l[0]] + l[1..];
    }
  }

  lemma {:induction false} InsertSorted(side: Side, l: seq<Entry>, e: Entry)
    requires Sorted(side, l)
    requires forall x :: x in l ==> x.enteredAt != e.enteredAt
    ensures Sorted(side, Insert(side, l, e))
  {
    if l != [] && !EntryAhead(side, e, l[0]) {
      InsertSorted(side, l[1..], e);
      InsertMembers(side, l[1..], e);
      var r := Insert(side, l[1..], e);
      forall j | 0 <= j < |r|
        ensures EntryAhead(side, l[0], r[j])
      {
        assert r[j] in r;
        assert r[j] == e || r[j] in l[1..];
      }
    }
  }

  lemma {:induction false} DropMembers(l: seq<Entry>, ids: set<string>)
    ensures forall x :: x in Drop(l, ids) <==> x in l && x.id !in ids
  {
    if l != [] {
      DropMembers(l[1..], ids);
      assert l == [l[0]] + l[1..];
    }
  }

  lemma {:induction false} DropSorted(side: Side, l: seq<Entry>, ids: set<string>)
    requires Sorted(side, l)
    ensures Sorted(side, Drop(l, ids))
  {
    if l != [] {
      DropSorted(side, l[1..], ids);
      DropMembers(l[1..], ids);
      var r := Drop(l[1..], ids);
      forall j | 0 <= j < |r|
        ensures EntryAhead(side, l[0], r[j])
      {
        assert r[j] in r;
      }
    }
  }

  lemma {:induction false} DropNothing(l: seq<Entry>)
    ensures Drop(l, {}) == l
  {
    if l != [] {
      DropNothing(l[1..]);
    }
  }

  lemma {:induction false} DropDrop(l: seq<Entry>, a: set<string>, b: set<string>)
    ensures Drop(Drop(l, a), b) == Drop(l, a + b)
  {
    if l != [] {
      DropDrop(l[1..], a, b);
      if l[0].id in a {
        assert Drop(l, a) == Drop(l[1..], a);
      } else {
        assert Drop(l, a)[1..] == Drop(l[1..], a);
      }
    }
  }

  /** A sorted side is determined by its members. */
  lemma SortedUnique(side: Side, a: seq<Entry>, b: seq<Entry>)
    requires Sorted(side, a) && Sorted(side, b)
    requires forall x :: x in a <==> x in b
    ensures a == b
  {
    Chains.ChainUnique((x, y) => EntryAhead(side, x, y), a, b);
  }

  lemma TailMember(side: Side, l: seq<Entry>, x: Entry)
    requires Sorted(side, l) && l != []
    ensures x in l[1..] <==> x in l && x != l[0]
  {
  }

  // ---------- Matching ----------

  /** The fixed part of an incoming order. */
  datatype Taker = Taker(id: string, side: Side, typ: OrderType, price: real)

  predicate Crosses(t: Taker, price: real) {
    t.typ.Market? || (if t.side.Buy? then t.price >= price else t.price <= price)
  }

  function Min(a: int, b: int): int { if a < b then a else b }

  /** One trade: the resting order as it stood, the traded quantity, what the incoming
      order still needs, and the stamp of the fill message. */
  datatype Hit = Hit(maker: Entry, qty: int, left: int, ts: int)

  datatype Outcome = Outcome(hits: seq<Hit>, side: seq<Entry>, left: int, clock: Clock.State) {
    function After(earlier: seq<Hit>): Outcome { this.(hits := earlier + hits) }
  }

  /** The head of a side after losing qty to a partial fill. */
  function ShrinkHead(l: seq<Entry>, qty: int): (r: seq<Entry>)
    requires l != []
    ensures |r| == |l| && r[1..] == l[1..]
  {
    [l[0].(remaining := l[0].remaining - qty)] + l[1..]
  }

  /** The opposite side once its head has traded with an order that still needs left. */
  function AfterTrade(left: int, opp: seq<Entry>): seq<Entry>
    requires opp != []
  {
    var qty := Min(left, opp[0].remaining);
    if qty == opp[0].remaining then opp[1..] else ShrinkHead(opp, qty)
  }

  function Match(wall: Clock.Wall, t: Taker, left: int, opp: seq<Entry>, c: Clock.State): Outcome
    decreases |opp|
  {
    if left <= 0 || opp == [] || !Crosses(t, opp[0].price) then Outcome([], opp, left, c)
    else
      var qty := Min(left, opp[0].remaining);
      var c' := Clock.Tick(wall, c);
      var hit := Hit(opp[0], qty, left - qty, c'.last);
      if qty == opp[0].remaining then Match(wall, t, left - qty, opp[1..], c').After([hit])
      else Outcome([hit], ShrinkHead(opp, qty), left - qty, c')
  }

  /** The first trade of a match, and the match that is left after it. */
  lemma MatchStep(wall: Clock.Wall, t: Taker, left: int, opp: seq<Entry>, c: Clock.State)
    requires left > 0 && opp != [] && Crosses(t, opp[0].price)
    ensures var qty := Min(left, opp[0].remaining);
            var c' := Clock.Tick(wall, c);
            var rest := if qty == opp[0].remaining then opp[1..] else ShrinkHead(opp, qty);
            var hit := Hit(opp[0], qty, left - qty, c'.last);
            Match(wall, t, left, opp, c) == Match(wall, t, left - qty, rest, c').After([hit])
  {
  }

  lemma MatchStops(wall: Clock.Wall, t: Taker, left: int, opp: seq<Entry>, c: Clock.State)
    requires left <= 0 || opp == [] || !Crosses(t, opp[0].price)
    ensures Match(wall, t, left, opp, c) == Outcome([], opp, left, c)
  {
  }

  lemma AfterAfter(r: Outcome, first: seq<Hit>, second: seq<Hit>)
    ensures r.After(second).After(first) == r.After(first + second)
  {
  }

  function FillMessage(id: string, h: Hit): Message {
    Fill(id, h.qty, h.maker.price, h.left, h.ts)
  }

  function FillMessages(id: string, hits: seq<Hit>): (r: seq<Message>)
    ensures |r| == |hits| && forall i :: 0 <= i < |r| ==> r[i] == FillMessage(id, hits[i])
  {
    seq(|hits|, i requires 0 <= i < |hits| => FillMessage(id, hits[i]))
  }

  // ---------- The book and its sessions ----------

  datatype Book = Book(bids: seq<Entry>, asks: seq<Entry>) {
    function On(side: Side): seq<Entry> { if side.Buy? then bids else asks }

    function With(side: Side, l: seq<Entry>): Book { if side.Buy? then this.(bids := l) else this.(asks := l) }

    function Lookup(id: string): Option<Entry> {
      var r := Find(bids, id);
      if r.Some? then r else Find(asks, id)
    }

    function Without(ids: set<string>): Book { Book(Drop(bids, ids), Drop(asks, ids)) }

    function Cancellations(ids: set<string>): seq<Record> { Removals(bids, ids) + Removals(asks, ids) }

    function IdsOf(session: string): set<string> {
      set e | e in bids + asks && e.session == session :: e.id
    }
  }

  function Removals(l: seq<Entry>, ids: set<string>): seq<Record> {
    if l == [] then []
    else (if l[0].id in ids then [Cancelled(l[0].enteredAt, l[0].remaining)] else []) + Removals(l[1..], ids)
  }

  /** What happened to the quantity of accepted orders, keyed by entry time. */
  datatype Record =
    | Accepted(key: int, qty: int)
    | Traded(taker: int, maker: int, qty: int)
    | Cancelled(key: int, qty: int)
    | Unfilled(key: int, qty: int)

  datatype System = System(
    book: Book, clock: Clock.State, sessions: set<string>, out: seq<(string, Message)>, log: seq<Record>)

  const EMPTY := System(Book([], []), Clock.START, {}, [], [])

  datatype Command =
    | Connect(addr: string)
    | Deliver(session: string, request: Request)
    | Disconnect(session: string)

  function Addressed(session: string, ms: seq<Message>): (r: seq<(string, Message)>)
    ensures |r| == |ms| && forall i :: 0 <= i < |r| ==> r[i] == (session, ms[i])
  {
    seq(|ms|, i requires 0 <= i < |ms| => (session, ms[i]))
  }

  function Trades(taker: int, hits: seq<Hit>): (r: seq<Record>)
    ensures |r| == |hits|
    ensures forall i :: 0 <= i < |r| ==> r[i] == Traded(taker, hits[i].maker.enteredAt, hits[i].qty)
  {
    seq(|hits|, i requires 0 <= i < |hits| => Traded(taker, hits[i].maker.enteredAt, hits[i].qty))
  }

  function SessionId(addr: string, ts: nat): string {
    addr + "/" + Decimal.Render(ts)
  }

  function Refuse(wall: Clock.Wall, s: System, session: string, id: string, reason: Reason): System {
    var c := Clock.Tick(wall, s.clock);
    s.(clock := c, out := s.out + [(session, Reject(id, reason, c.last))])
  }

  /** The locked part of `handleOrder` for a valid order whose id is free. */
  function Accept(wall: Clock.Wall, s: System, session: string, r: Request): System {
    var side, typ := SideOf(r), TypeOf(r);
    var c := Clock.Tick(wall, s.clock);
    var m := Match(wall, Taker(r.id, side, typ, r.price), r.quantity, s.book.On(side.Opposite()), c);
    var matched := s.book.With(side.Opposite(), m.side);
    var out := s.out + Addressed(session, [Ack(r.id, c.last)] + FillMessages(r.id, m.hits));
    var log := s.log + [Accepted(c.last, r.quantity)] + Trades(c.last, m.hits);
    if m.left > 0 && typ.Market? then
      var d := Clock.Tick(wall, m.clock);
      System(matched, d, s.sessions, out + [(session, Reject(r.id, NoLiquidity, d.last))],
             log + [Unfilled(c.last, m.left)])
    else if m.left > 0 then
      var e := Entry(r.id, side, r.price, r.quantity, m.left, c.last, session);
      System(matched.With(side, Insert(side, matched.On(side), e)), m.clock, s.sessions, out, log)
    else
      System(matched, m.clock, s.sessions, out, log)
  }

  function HandleOrder(wall: Clock.Wall, s: System, session: string, r: Request): System {
    var bad := Validate(r);
    if bad.Some? then Refuse(wall, s, session, r.id, bad.value)
    else if s.book.Lookup(r.id).Some? then Refuse(wall, s, session, r.id, DuplicateOrderId)
    else Accept(wall, s, session, r)
  }

  function HandleCancel(wall: Clock.Wall, s: System, session: string, id: string): System {
    var found := s.book.Lookup(id);
    if found.None? then Refuse(wall, s, session, id, UnknownOrder)
    else if found.value.session != session then Refuse(wall, s, session, id, Unauthorized)
    else
      var c := Clock.Tick(wall, s.clock);
      s.(book := s.book.Without({id}), clock := c, out := s.out + [(session, CancelAck(id, c.last))],
         log := s.log + s.book.Cancellations({id}))
  }

  function HandleDisconnect(s: System, session: string): System {
    var ids := s.book.IdsOf(session);
    s.(book := s.book.Without(ids), sessions := s.sessions - {session},
       log := s.log + s.book.Cancellations(ids))
  }

  function HandleConnect(wall: Clock.Wall, s: System, addr: string): System {
    var c := Clock.Tick(wall, s.clock);
    s.(clock := c, sessions := s.sessions + {SessionId(addr, c.last)})
  }

  /** One step of the server. Only an open session's connection is read or torn down. */
  function Step(wall: Clock.Wall, s: System, cmd: Command): System {
    match cmd
    case Connect(addr) => HandleConnect(wall, s, addr)
    case Deliver(session, r) =>
      if session !in s.sessions then s
      else if r.kind == "order" then HandleOrder(wall, s, session, r)
      else if r.kind == "cancel" then HandleCancel(wall, s, session, r.id)
      else Refuse(wall, s, session, r.id, UnknownType)
    case Disconnect(session) =>
      if session !in s.sessions then s else HandleDisconnect(s, session)
  }

  function Run(wall: Clock.Wall, cmds: seq<Command>): System {
    if cmds == [] then EMPTY else Step(wall, Run(wall, cmds[..|cmds| - 1]), cmds[|cmds| - 1])
  }
}
