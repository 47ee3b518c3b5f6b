/** A connection of the correctness bot to the engine: what the bot reads and queries in each
    step of a sequence, and what single order and cancel steps lead to. The engine is the
    sorted-list engine that the indexed-heap server refines. */
module BotSession {
  import opened Options
  import opened Orders
  import B = CorrectnessBot
  import opened ListBook
  import Snapshot
  import Clock

  // ---------- The engine as the bot sees it ----------

  function ReplyOf(m: Message): B.Reply {
    match m
    case Ack(_, _) => B.Ack
    case Fill(_, qty, price, _, _) => B.Fill(price, qty)
    case CancelAck(_, _) => B.CancelAck
    case Reject(_, _, _) => B.Reject
  }

  /** What the engine said between two states. */
  function Said(s: System, t: System): (r: seq<B.Reply>)
    ensures s.out <= t.out ==> |r| == |t.out| - |s.out|
    ensures s.out <= t.out ==> forall i :: 0 <= i < |r| ==> r[i] == ReplyOf(t.out[|s.out| + i].1)
  {
    if |s.out| <= |t.out|
    then seq(|t.out| - |s.out|, i requires 0 <= i < |t.out| - |s.out| => ReplyOf(t.out[|s.out| + i].1)) else []
  }

  function Gots(replies: seq<B.Reply>): seq<B.Reading> {
    seq(|replies|, j requires 0 <= j < |replies| => B.Got(replies[j]))
  }

  /** The replies that the read loop of a step leaves on the connection; None when it never
      hears enough and its last read runs into the deadline, which closes the connection. */
  function Unheard(step: B.Step, replies: seq<B.Reply>, seen: B.Seen): Option<seq<B.Reply>> {
    if replies == [] then None
    else
      var now := B.Note(seen, replies[0]);
      if B.Enough(step, now) then Some(replies[1..]) else Unheard(step, replies[1..], now)
  }

  function Levels(b: Book): (int, int) { (|Snapshot.Prices(b.bids)|, |Snapshot.Prices(b.asks)|) }

  /** Between two steps: the engine, the replies not read yet (None once the connection is
      closed), and the ids given to tags. */
  datatype Link = Link(engine: System, unread: Option<seq<B.Reply>>, ids: map<string, string>)

  /** One sequence played on one session. If the connection is closed early, the engine is
      prompt when it tears the session down before the bot's next query. */
  datatype Script = Script(
    wall: Clock.Wall, start: System, session: string, steps: seq<B.Step>, prompt: bool) {

    function At(i: nat): Link
      requires i <= |steps|
      decreases i, 0
    {
      if i == 0 then Link(start, Some([]), map[])
      else if At(i - 1).unread.None? then At(i - 1)
      else
        var step, before, after := steps[i - 1], At(i - 1), Answered(i - 1);
        var unread := Unheard(step, Arrived(i - 1), B.NOTHING);
        Link(if unread.None? && prompt then Step(wall, after, Disconnect(session)) else after, unread,
             if step.kind.PlaceOrder? then before.ids[step.tag := B.StepOrderId(i - 1, step.tag)] else before.ids)
    }

    function Request(i: nat): Request
      requires i < |steps|
      decreases i, 1
    {
      var step, ids := steps[i], At(i).ids;
      if step.kind.PlaceOrder? then
        ListBook.Request("order", B.StepOrderId(i, step.tag), step.side, step.typ, step.price, step.quantity)
      else
        ListBook.Request("cancel", if step.cancelTag in ids then ids[step.cancelTag] else "", "", "", 0.0, 0)
    }

    /** The engine once it has handled the request of step i. */
    function Answered(i: nat): System
      requires i < |steps|
      decreases i, 2
    {
      Step(wall, At(i).engine, Deliver(session, Request(i)))
    }

    /** Everything waiting to be read in step i. */
    function Arrived(i: nat): seq<B.Reply>
      requires i < |steps| && At(i).unread.Some?
      decreases i, 3
    {
      At(i).unread.value + Said(At(i).engine, Answered(i))
    }

    /** What the bot reads and queries in step i; a write to a closed connection fails. */
    function IO(): nat -> B.StepIO {
      (i: nat) =>
        if i >= |steps| || At(i).unread.None? then B.StepIO(false, [], None)
        else B.StepIO(true, Gots(Arrived(i)), Some(Levels(At(i + 1).engine.book)))
    }

    function Book(i: nat): Book
      requires i <= |steps|
    {
      At(i).engine.book
    }

    predicate Open(i: nat)
      requires i <= |steps|
    {
      session in At(i).engine.sessions && At(i).unread.Some?
    }
  }

  /** The level counts are those of any snapshot the server may serve then. */
  lemma ServedCounts(x: Script, i: nat, bids: seq<Snapshot.Level>, asks: seq<Snapshot.Level>)
    requires i < |x.steps| && x.At(i).unread.Some?
    requires Snapshot.Describes(Buy, bids, x.Book(i + 1).bids) && Snapshot.Describes(Sell, asks, x.Book(i + 1).asks)
    ensures x.IO()(i).query == Some((|bids|, |asks|))
  {
    hide Step, Script.At, Script.Arrived, Snapshot.Describes, Snapshot.Prices, Gots;
    Snapshot.LevelsCountPrices(Buy, bids, x.Book(i + 1).bids);
    Snapshot.LevelsCountPrices(Sell, asks, x.Book(i + 1).asks);
  }

  // ---------- One request ----------

  function Fills(hits: seq<Hit>): (r: seq<B.Reply>)
    ensures |r| == |hits| && forall i :: 0 <= i < |r| ==> r[i] == B.Fill(hits[i].maker.price, hits[i].qty)
  {
    seq(|hits|, i requires 0 <= i < |hits| => B.Fill(hits[i].maker.price, hits[i].qty))
  }

  function MatchOf(wall: Clock.Wall, s: System, r: Request): Outcome {
    Match(wall, Taker(r.id, SideOf(r), TypeOf(r), r.price), r.quantity, s.book.On(SideOf(r).Opposite()),
          Clock.Tick(wall, s.clock))
  }

  function EntryFor(wall: Clock.Wall, s: System, session: string, r: Request): Entry {
    Entry(r.id, SideOf(r), r.price, r.quantity, MatchOf(wall, s, r).left, Clock.Tick(wall, s.clock).last, session)
  }

  /** The book that an order with a free id leaves. */
  function BookAfter(wall: Clock.Wall, s: System, session: string, r: Request): Book {
    var side, m := SideOf(r), MatchOf(wall, s, r);
    var matched := s.book.With(side.Opposite(), m.side);
    if m.left > 0 && TypeOf(r).Limit?
    then matched.With(side, Insert(side, s.book.On(side), EntryFor(wall, s, session, r))) else matched
  }

  /** What an order with a free id is told. */
  function AnswerTo(m: Outcome, r: Request): seq<B.Reply> {
    [B.Ack] + Fills(m.hits) + (if m.left > 0 && TypeOf(r).Market? then [B.Reject] else [])
  }

  lemma OrderRequest(wall: Clock.Wall, s: System, session: string, r: Request)
    requires session in s.sessions && r.kind == "order" && Validate(r).None?
    ensures var t := Step(wall, s, Deliver(session, r));
            && t.sessions == s.sessions
            && (s.book.Lookup(r.id).None? ==>
                  Said(s, t) == AnswerTo(MatchOf(wall, s, r), r) && t.book == BookAfter(wall, s, session, r))
            && (s.book.Lookup(r.id).Some? ==> Said(s, t) == [B.Reject] && t.book == s.book)
  {
    hide Validate, MatchOf, Find, Accept, AnswerTo, BookAfter;
    AcceptSaid(wall, s, session, r);
  }

  lemma AcceptSaid(wall: Clock.Wall, s: System, session: string, r: Request)
    ensures var t := Accept(wall, s, session, r);
            t.sessions == s.sessions && t.book == BookAfter(wall, s, session, r)
            && Said(s, t) == AnswerTo(MatchOf(wall, s, r), r)
  {
    hide Match, Insert;
    var t, m := Accept(wall, s, session, r), MatchOf(wall, s, r);
    var sent := [Ack(r.id, Clock.Tick(wall, s.clock).last)] + FillMessages(r.id, m.hits)
              + (if m.left > 0 && TypeOf(r).Market? then [Reject(r.id, NoLiquidity, t.clock.last)] else []);
    assert t.out == s.out + Addressed(session, sent);
  }

  lemma CancelRequest(wall: Clock.Wall, s: System, session: string, r: Request, e: Entry)
    requires session in s.sessions && r.kind == "cancel" && e.id == r.id && e.session == session
    requires s.book == Book([e], []) || s.book == Book([], [e])
    ensures var t := Step(wall, s, Deliver(session, r));
            t.sessions == s.sessions && Said(s, t) == [B.CancelAck] && t.book == Book([], [])
  {
    assert [e][1..] == [];
    assert Drop([e], {r.id}) == [] && Drop([], {r.id}) == [];
  }

  // ---------- One step ----------

  /** In step i the engine answers with these replies and leaves this book, but for the
      session's orders if the step times out and the engine tears the session down at once. */
  ghost predicate Goes(x: Script, i: nat, replies: seq<B.Reply>, b: Book)
    requires i < |x.steps| && x.At(i).unread.Some?
  {
    var all := x.At(i).unread.value + replies;
    && x.At(i + 1).unread == Unheard(x.steps[i], all, B.NOTHING)
    && x.IO()(i) == B.StepIO(true, Gots(all), Some(Levels(x.Book(i + 1))))
    && (x.At(i + 1).unread.Some? ==> x.Open(i + 1) && x.Book(i + 1) == b)
    && (x.At(i + 1).unread.None? ==> x.Book(i + 1) == b || x.Book(i + 1) == b.Without(b.IdsOf(x.session)))
  }

  lemma Advance(x: Script, i: nat, replies: seq<B.Reply>)
    requires i < |x.steps| && x.Open(i) && Said(x.At(i).engine, x.Answered(i)) == replies
    requires x.Answered(i).sessions == x.At(i).engine.sessions
    ensures Goes(x, i, replies, x.Answered(i).book)
  {
    hide Step, Said, Unheard, Gots, Levels, Script.Answered, Script.Request, Drop;
    assert x.Arrived(i) == x.At(i).unread.value + replies;
    Torn(x.wall, x.Answered(i), x.session);
  }

  lemma Torn(wall: Clock.Wall, s: System, session: string)
    requires session in s.sessions
    ensures Step(wall, s, Disconnect(session)).book == s.book.Without(s.book.IdsOf(session))
  {
  }

  lemma Tagged(x: Script, i: nat)
    requires i < |x.steps| && x.At(i).unread.Some?
    ensures var step, ids := x.steps[i], x.At(i).ids;
            x.At(i + 1).ids == if step.kind.PlaceOrder? then ids[step.tag := B.StepOrderId(i, step.tag)] else ids
  {
    hide Step, Said, Unheard, Gots, Levels, Script.Answered;
  }

  lemma OrderStep(x: Script, i: nat)
    requires i < |x.steps| && x.Open(i) && x.steps[i].kind.PlaceOrder? && Validate(x.Request(i)).None?
    ensures var s, r := x.At(i).engine, x.Request(i);
            if s.book.Lookup(r.id).None?
            then Goes(x, i, AnswerTo(MatchOf(x.wall, s, r), r), BookAfter(x.wall, s, x.session, r))
            else Goes(x, i, [B.Reject], s.book)
  {
    hide Step, Validate, AnswerTo, BookAfter, Script.At, Script.IO, Said, Goes;
    OrderRequest(x.wall, x.At(i).engine, x.session, x.Request(i));
    Advance(x, i, Said(x.At(i).engine, x.Answered(i)));
  }

  lemma CancelStep(x: Script, i: nat, e: Entry)
    requires i < |x.steps| && x.Open(i) && x.steps[i].kind.CancelOrder? && e.session == x.session
    requires x.steps[i].cancelTag in x.At(i).ids && x.At(i).ids[x.steps[i].cancelTag] == e.id
    requires x.Book(i) == Book([e], []) || x.Book(i) == Book([], [e])
    ensures Goes(x, i, [B.CancelAck], Book([], []))
  {
    hide Step, Script.At, Script.IO, Said, Goes;
    CancelRequest(x.wall, x.At(i).engine, x.session, x.Request(i), e);
    Advance(x, i, [B.CancelAck]);
  }

  /** The step passes all its assertions. */
  ghost predicate Passes(step: B.Step, io: B.StepIO) {
    && io.writeOk && B.Listen(step, io.readings, B.NOTHING).Some?
    && B.Judge(step, B.Listen(step, io.readings, B.NOTHING).value, io.query) == B.Tally(B.Asserts(step), 0)
  }

  predicate Counts(step: B.Step, q: (int, int)) {
    (step.expectBids < 0 || step.expectBids == q.0) && (step.expectAsks < 0 || step.expectAsks == q.1)
  }

  /** A step that asks for nothing but level counts, or for a cancel ack or reject besides,
      passes on the one reply it waits for and leaves nothing unread. */
  lemma PlainPasses(step: B.Step, replies: seq<B.Reply>, q: (int, int))
    requires !step.expectFill && Counts(step, q)
    requires if step.kind.CancelOrder? then replies == [B.CancelAck] && !step.expectReject
             else replies == if step.expectReject then [B.Ack, B.Reject] else [B.Ack]
    ensures Passes(step, B.StepIO(true, Gots(replies), Some(q))) && Unheard(step, replies, B.NOTHING) == Some([])
  {
    assert if |replies| == 1 then replies[1..] == [] else replies[1..][1..] == [];
  }

  /** Reading stops at the first fill after the ack; later fills are left unread. */
  lemma FirstFillHeard(step: B.Step, price: real, qty: int, more: seq<B.Reply>)
    requires step.kind.PlaceOrder? && step.expectFill && !step.expectReject
    ensures var replies := [B.Ack, B.Fill(price, qty)] + more;
            && B.Listen(step, Gots(replies), B.NOTHING) == Some(B.Seen(true, price, qty, false, true, false))
            && Unheard(step, replies, B.NOTHING) == Some(more)
  {
    var replies := [B.Ack, B.Fill(price, qty)] + more;
    assert replies[1..][1..] == more;
  }

  lemma FillPasses(step: B.Step, price: real, qty: int, more: seq<B.Reply>, q: (int, int))
    requires step.kind.PlaceOrder? && step.expectFill && !step.expectReject && Counts(step, q)
    requires step.expectFillPrice > 0.0 && !B.Differs(price, step.expectFillPrice)
    requires step.expectFillQty <= 0 || step.expectFillQty == qty
    ensures Passes(step, B.StepIO(true, Gots([B.Ack, B.Fill(price, qty)] + more), Some(q)))
  {
    hide B.Listen, Gots;
    FirstFillHeard(step, price, qty, more);
  }

  // ---------- Steps of the sequences, with nothing unread before them ----------

  ghost predicate Clean(x: Script, i: nat, b: Book)
    requires i <= |x.steps|
  {
    x.Open(i) && x.At(i).unread == Some([]) && x.Book(i) == b
  }

  predicate TagOk(tag: string) {
    |tag| <= 40 && forall i :: 0 <= i < |tag| ==> IdChar(tag[i])
  }

  /** An order step that the engine's field checks accept. */
  predicate WellFormed(x: Script, i: nat)
    requires i < |x.steps|
  {
    var step := x.steps[i];
    && i < 10 && step.kind.PlaceOrder? && TagOk(step.tag) && (step.side == "buy" || step.side == "sell")
    && step.quantity > 0 && (step.typ == "market" || (step.typ == "limit" && step.price > 0.0))
  }

  lemma RequestValid(x: Script, i: nat)
    requires i < |x.steps| && WellFormed(x, i)
    ensures Validate(x.Request(i)).None?
  {
  }

  function SideAt(x: Script, i: nat): Side
    requires i < |x.steps|
  {
    if x.steps[i].side == "buy" then Buy else Sell
  }

  function IdAt(x: Script, i: nat): string
    requires i < |x.steps|
  {
    B.StepOrderId(i, x.steps[i].tag)
  }

  /** With nothing unread, the bot hears the replies of this step alone. */
  lemma CleanGoes(x: Script, i: nat, replies: seq<B.Reply>, b: Book)
    requires i < |x.steps| && x.At(i).unread == Some([]) && Goes(x, i, replies, b)
    requires Unheard(x.steps[i], replies, B.NOTHING).Some?
    ensures x.Open(i + 1) && x.Book(i + 1) == b && x.At(i + 1).unread == Unheard(x.steps[i], replies, B.NOTHING)
    ensures x.IO()(i) == B.StepIO(true, Gots(replies), Some(Levels(b)))
  {
    hide Script.At, Script.IO, Levels, Unheard, Gots;
    assert [] + replies == replies;
  }

  lemma QuietMatch(wall: Clock.Wall, s: System, r: Request)
    requires s.book.On(SideOf(r).Opposite()) == []
    ensures MatchOf(wall, s, r) == Outcome([], [], r.quantity, Clock.Tick(wall, s.clock))
  {
  }

  /** A limit order that meets an empty opposite side rests whole. */
  lemma Rests(x: Script, i: nat, b: Book) returns (e: Entry)
    requires i < |x.steps| && Clean(x, i, b) && WellFormed(x, i) && x.steps[i].typ == "limit"
    requires b.On(SideAt(x, i).Opposite()) == [] && b.Lookup(IdAt(x, i)).None?
    requires !x.steps[i].expectFill && !x.steps[i].expectReject
    ensures e.id == IdAt(x, i) && e.price == x.steps[i].price && e.remaining == x.steps[i].quantity
    ensures e.session == x.session
    ensures var b' := b.With(SideAt(x, i), Insert(SideAt(x, i), b.On(SideAt(x, i)), e));
            Clean(x, i + 1, b') && (Counts(x.steps[i], Levels(b')) ==> Passes(x.steps[i], x.IO()(i)))
  {
    hide Script.At, Script.IO, Validate, Insert, Levels, Passes, Unheard, Gots, TagOk, Match, Find;
    var s, r := x.At(i).engine, x.Request(i);
    e := EntryFor(x.wall, s, x.session, r);
    RequestValid(x, i);
    OrderStep(x, i);
    QuietMatch(x.wall, s, r);
    assert AnswerTo(MatchOf(x.wall, s, r), r) == [B.Ack];
    var b' := b.With(SideAt(x, i), Insert(SideAt(x, i), b.On(SideAt(x, i)), e));
    assert BookAfter(x.wall, s, x.session, r) == b';
    NothingLeft(x.steps[i]);
    CleanGoes(x, i, [B.Ack], b');
    if Counts(x.steps[i], Levels(b')) {
      PlainPasses(x.steps[i], [B.Ack], Levels(b'));
    }
  }

  lemma NothingLeft(step: B.Step)
    requires !step.expectFill && !step.expectReject
    ensures Unheard(step, [B.Ack], B.NOTHING) == Some([])
  {
    assert [B.Ack][1..] == [];
  }

  lemma HeadMatch(wall: Clock.Wall, s: System, r: Request, e: Entry)
    requires s.book.On(SideOf(r).Opposite()) == [e] && 0 < r.quantity <= e.remaining
    requires Crosses(Taker(r.id, SideOf(r), TypeOf(r), r.price), e.price)
    ensures var m := MatchOf(wall, s, r);
            && m.left == 0 && Fills(m.hits) == [B.Fill(e.price, r.quantity)]
            && m.side == if e.remaining == r.quantity then [] else [e.(remaining := e.remaining - r.quantity)]
  {
    var t, c := Taker(r.id, SideOf(r), TypeOf(r), r.price), Clock.Tick(wall, s.clock);
    MatchStep(wall, t, r.quantity, [e], c);
    assert [e][1..] == [];
    var rest := if r.quantity == e.remaining then [] else ShrinkHead([e], r.quantity);
    MatchStops(wall, t, 0, rest, Clock.Tick(wall, c));
  }

  lemma PairMatch(wall: Clock.Wall, s: System, r: Request, e: Entry, f: Entry)
    requires s.book.On(SideOf(r).Opposite()) == [e, f] && e.remaining > 0 && f.remaining > 0
    requires e.remaining + f.remaining == r.quantity
    requires Crosses(Taker(r.id, SideOf(r), TypeOf(r), r.price), e.price)
    requires Crosses(Taker(r.id, SideOf(r), TypeOf(r), r.price), f.price)
    ensures var m := MatchOf(wall, s, r);
            && m.left == 0 && m.side == []
            && Fills(m.hits) == [B.Fill(e.price, e.remaining), B.Fill(f.price, f.remaining)]
  {
    var t, c := Taker(r.id, SideOf(r), TypeOf(r), r.price), Clock.Tick(wall, s.clock);
    MatchStep(wall, t, r.quantity, [e, f], c);
    assert [e, f][1..] == [f] && [f][1..] == [];
    MatchStep(wall, t, f.remaining, [f], Clock.Tick(wall, c));
    MatchStops(wall, t, 0, [], Clock.Tick(wall, Clock.Tick(wall, c)));
    hide Match;
  }

  /** A sell step that expects a fill at about this price. */
  ghost predicate ExpectsFill(x: Script, i: nat, price: real, qty: int)
    requires i < |x.steps|
  {
    var step := x.steps[i];
    && WellFormed(x, i) && step.typ == "limit" && step.side == "sell" && step.price <= price
    && step.expectFill && !step.expectReject && step.expectFillPrice > 0.0
    && !B.Differs(price, step.expectFillPrice) && (step.expectFillQty <= 0 || step.expectFillQty == qty)
  }

  lemma FillStep(x: Script, i: nat, b: Book, price: real, qty: int, more: seq<B.Reply>, after: Book)
    requires i < |x.steps| && Clean(x, i, b) && ExpectsFill(x, i, price, qty) && b.Lookup(IdAt(x, i)).None?
    requires var m := MatchOf(x.wall, x.At(i).engine, x.Request(i));
             m.left == 0 && Fills(m.hits) == [B.Fill(price, qty)] + more && after == b.With(Buy, m.side)
    ensures x.Open(i + 1) && x.Book(i + 1) == after && x.At(i + 1).unread == Some(more)
    ensures Counts(x.steps[i], Levels(after)) ==> Passes(x.steps[i], x.IO()(i))
  {
    hide Script.At, Script.IO, Validate, Insert, Levels, Passes, Unheard, Gots, TagOk, MatchOf, Find, B.Differs;
    RequestValid(x, i);
    OrderStep(x, i);
    var s, r := x.At(i).engine, x.Request(i);
    var replies := [B.Ack, B.Fill(price, qty)] + more;
    assert AnswerTo(MatchOf(x.wall, s, r), r) == replies;
    FirstFillHeard(x.steps[i], price, qty, more);
    CleanGoes(x, i, replies, after);
    if Counts(x.steps[i], Levels(after)) {
      FillPasses(x.steps[i], price, qty, more, Levels(after));
    }
  }

  lemma LookupNone(id: string)
    ensures Book([], []).Lookup(id).None?
  {
  }

  lemma LookupPair(e: Entry, f: Entry, id: string)
    ensures e.id != id ==> Book([e], []).Lookup(id).None?
    ensures e.id != id && f.id != id ==> Book([e, f], []).Lookup(id).None?
    ensures e.id == id ==> Book([e], []).Lookup(id).Some?
  {
  }

  lemma NoLevels(b: Book)
    ensures Levels(b) == (0, 0) <==> b == Book([], [])
  {
    assert b.bids != [] ==> b.bids[0].price in Snapshot.Prices(b.bids);
    assert b.asks != [] ==> b.asks[0].price in Snapshot.Prices(b.asks);
  }

  lemma LevelsOf(e: Entry, f: Entry)
    ensures Levels(Book([e], [])) == (1, 0) && Levels(Book([], [e])) == (0, 1)
    ensures e.price != f.price ==> Levels(Book([e, f], [])) == (2, 0)
  {
    assert Snapshot.Prices([]) == {} && Snapshot.Prices([e]) == {e.price};
    assert Snapshot.Prices([e, f]) == {e.price, f.price};
  }

  /** A sell that trades with the only bid. */
  lemma Sells(x: Script, i: nat, e: Entry)
    requires i < |x.steps| && Clean(x, i, Book([e], [])) && e.id != IdAt(x, i)
    requires x.steps[i].quantity <= e.remaining && ExpectsFill(x, i, e.price, x.steps[i].quantity)
    requires Counts(x.steps[i], (B.Bit(x.steps[i].quantity < e.remaining), 0))
    ensures var left := e.remaining - x.steps[i].quantity;
            Clean(x, i + 1, Book(if left == 0 then [] else [e.(remaining := left)], []))
    ensures Passes(x.steps[i], x.IO()(i))
  {
    hide Script.At, Script.IO, Validate, Levels, Passes, TagOk, MatchOf, Find, B.Differs;
    LookupPair(e, e, IdAt(x, i));
    HeadMatch(x.wall, x.At(i).engine, x.Request(i), e);
    var left := e.remaining - x.steps[i].quantity;
    var after := Book(if left == 0 then [] else [e.(remaining := left)], []);
    LevelsOf(e.(remaining := left), e);
    NoLevels(Book([], []));
    var fill := [B.Fill(e.price, x.steps[i].quantity)];
    assert fill == fill + [];
    FillStep(x, i, Book([e], []), e.price, x.steps[i].quantity, [], after);
  }

  lemma SellsBoth(x: Script, i: nat, e: Entry, f: Entry)
    requires i < |x.steps| && Clean(x, i, Book([e, f], [])) && e.id != IdAt(x, i) && f.id != IdAt(x, i)
    requires e.remaining > 0 && f.remaining > 0 && x.steps[i].quantity == e.remaining + f.remaining
    requires ExpectsFill(x, i, e.price, e.remaining) && x.steps[i].price <= f.price
    requires Counts(x.steps[i], (0, 0))
    ensures x.Book(i + 1) == Book([], []) && Passes(x.steps[i], x.IO()(i))
  {
    hide Script.At, Script.IO, Validate, Levels, Passes, TagOk, MatchOf, Find, B.Differs;
    LookupPair(e, f, IdAt(x, i));
    PairMatch(x.wall, x.At(i).engine, x.Request(i), e, f);
    NoLevels(Book([], []));
    var fill, more := [B.Fill(e.price, e.remaining)], [B.Fill(f.price, f.remaining)];
    assert fill + more == [B.Fill(e.price, e.remaining), B.Fill(f.price, f.remaining)];
    FillStep(x, i, Book([e, f], []), e.price, e.remaining, more, Book([], []));
  }

  lemma Cancels(x: Script, i: nat, tag: string, e: Entry)
    requires i < |x.steps| && x.steps[i] == B.Cancelling(tag) && e.session == x.session
    requires tag in x.At(i).ids && x.At(i).ids[tag] == e.id
    requires Clean(x, i, Book([e], [])) || Clean(x, i, Book([], [e]))
    ensures Clean(x, i + 1, Book([], [])) && Passes(x.steps[i], x.IO()(i))
  {
    hide Script.At, Script.IO, Levels, Passes;
    CancelStep(x, i, e);
    NoLevels(Book([], []));
    PlainPasses(x.steps[i], [B.CancelAck], (0, 0));
    CleanGoes(x, i, [B.CancelAck], Book([], []));
  }
}
