/** End to end: the correctness bot playing its sequences against the reference engine, and
    exactly when that run scores 1. */
module ReferenceRun {
  import opened Options
  import opened Orders
  import B = CorrectnessBot
  import opened ListBook
  import opened PriceTime
  import opened BookInvariants
  import opened BotSession
  import Clock
  import Decimal

  // ---------- Whole sequences, for any tags, prices and quantities ----------

  /** Every assertion passes, every cancel names a tag placed before it, and the book ends empty. */
  ghost predicate Perfect(x: Script) {
    && (forall i :: 0 <= i < |x.steps| ==> Passes(x.steps[i], x.IO()(i)))
    && (forall i :: 0 <= i < |x.steps| && x.steps[i].kind.CancelOrder? ==> x.steps[i].cancelTag in x.At(i).ids)
    && x.Book(|x.steps|) == Book([], [])
  }

  lemma {:induction false} PerfectPlay(x: Script, i: nat)
    requires Perfect(x) && i <= |x.steps|
    ensures B.Play(x.steps, x.IO(), i, x.At(i).ids.Keys) == B.Tally(B.TotalFrom(x.steps, i), 0)
    decreases |x.steps| - i
  {
    hide B.Judge, B.Listen, B.Asserts, Script.At, Script.IO, Script.Request, Script.Arrived;
    if i < |x.steps| {
      assert Passes(x.steps[i], x.IO()(i));
      PerfectPlay(x, i + 1);
      WriteMeansOpen(x, i);
      Tagged(x, i);
      var step := x.steps[i];
      assert step.kind.PlaceOrder? ==> x.At(i + 1).ids.Keys == x.At(i).ids.Keys + {step.tag};
    }
  }

  lemma WriteMeansOpen(x: Script, i: nat)
    requires i < |x.steps|
    ensures x.IO()(i).writeOk <==> x.At(i).unread.Some?
  {
    hide Script.At, Script.Arrived, Levels;
  }

  lemma Start(x: Script)
    ensures x.At(0) == Link(x.start, Some([]), map[])
  {
  }

  lemma IdsDiffer(i: nat, a: string, j: nat, b: string)
    requires i < j < 10
    ensures B.StepOrderId(i, a) != B.StepOrderId(j, b)
  {
    assert B.StepOrderId(i, a)[4] == Decimal.Digit(i) && B.StepOrderId(j, b)[4] == Decimal.Digit(j);
  }

  function MatchSteps(bid: string, ask: string, p: real, q: int): seq<B.Step> {
    [B.Limit(bid, "buy", p, q, 1, -1), B.Filling(B.Limit(ask, "sell", p, q, 0, 0), p, q)]
  }

  lemma PlaysMatch(x: Script, bid: string, ask: string, p: real, q: int)
    requires x.session in x.start.sessions && x.start.book == Book([], [])
    requires TagOk(bid) && TagOk(ask) && p > 0.0 && q > 0 && x.steps == MatchSteps(bid, ask, p, q)
    ensures Perfect(x)
  {
    hide Script.At, Script.IO, TagOk, Passes, B.StepOrderId, Find, Levels;
    Start(x);
    LookupNone(B.StepOrderId(0, bid));
    var e := Rests(x, 0, Book([], []));
    LevelsOf(e, e);
    IdsDiffer(0, bid, 1, ask);
    Sells(x, 1, e);
  }

  lemma PlaysPriority(x: Script, lo: string, hi: string, ask: string, p: real, d: real, q: int)
    requires x.session in x.start.sessions && x.start.book == Book([], [])
    requires TagOk(lo) && TagOk(hi) && TagOk(ask) && p > 0.0 && d > 0.0 && q > 0
    requires x.steps == [B.Limit(lo, "buy", p, q, 1, -1), B.Limit(hi, "buy", p + d, q, 2, -1),
                         B.Filling(B.Limit(ask, "sell", p, q + q, 0, 0), p + d, 0)]
    ensures Perfect(x)
  {
    hide Script.At, Script.IO, TagOk, Passes, B.StepOrderId, Find, Levels;
    Start(x);
    LookupNone(B.StepOrderId(0, lo));
    var e := Rests(x, 0, Book([], []));
    LevelsOf(e, e);
    IdsDiffer(0, lo, 1, hi);
    LookupPair(e, e, B.StepOrderId(1, hi));
    var f := Rests(x, 1, Book([e], []));
    assert Insert(Buy, [e], f) == [f, e];
    LevelsOf(f, e);
    IdsDiffer(0, lo, 2, ask);
    IdsDiffer(1, hi, 2, ask);
    SellsBoth(x, 2, f, e);
  }

  lemma PlaysPartial(x: Script, bid: string, ask: string, p: real, q: int, k: int)
    requires x.session in x.start.sessions && x.start.book == Book([], [])
    requires TagOk(bid) && TagOk(ask) && bid != ask && p > 0.0 && 0 < k < q
    requires x.steps == [B.Limit(bid, "buy", p, q, 1, -1), B.Filling(B.Limit(ask, "sell", p, k, 1, 0), p, k),
                         B.Cancelling(bid)]
    ensures Perfect(x)
  {
    hide Script.At, Script.IO, TagOk, Passes, B.StepOrderId, Find, Levels;
    Start(x);
    LookupNone(B.StepOrderId(0, bid));
    var e := Rests(x, 0, Book([], []));
    LevelsOf(e, e);
    IdsDiffer(0, bid, 1, ask);
    Sells(x, 1, e);
    Tagged(x, 0);
    Tagged(x, 1);
    Cancels(x, 2, bid, e.(remaining := q - k));
  }

  lemma PlaysCancels(x: Script, bid: string, ask: string, p: real, q: int)
    requires x.session in x.start.sessions && x.start.book == Book([], [])
    requires TagOk(bid) && TagOk(ask) && p > 0.0 && q > 0
    requires x.steps == [B.Limit(bid, "buy", p, q, 1, -1), B.Cancelling(bid),
                         B.Limit(ask, "sell", p, q, 0, 1), B.Cancelling(ask)]
    ensures Perfect(x)
  {
    hide Script.At, Script.IO, TagOk, Passes, B.StepOrderId, Find, Levels;
    Start(x);
    LookupNone(B.StepOrderId(0, bid));
    LookupNone(B.StepOrderId(2, ask));
    var e := Rests(x, 0, Book([], []));
    LevelsOf(e, e);
    Tagged(x, 0);
    Cancels(x, 1, bid, e);
    var f := Rests(x, 2, Book([], []));
    LevelsOf(f, f);
    Tagged(x, 2);
    Cancels(x, 3, ask, f);
  }

  lemma PlaysMarket(x: Script, tag: string, q: int)
    requires x.session in x.start.sessions && x.start.book == Book([], []) && TagOk(tag) && q > 0
    requires x.steps == [B.Step(B.PlaceOrder, "sell", "market", 0.0, q, tag, "", false, 0.0, 0, true, 0, 0)]
    ensures Perfect(x)
  {
    hide Script.At, Script.IO, TagOk, Passes, B.StepOrderId, Find, Levels, Validate, Match;
    Start(x);
    LookupNone(B.StepOrderId(0, tag));
    RequestValid(x, 0);
    OrderStep(x, 0);
    QuietMatch(x.wall, x.start, x.Request(0));
    assert AnswerTo(MatchOf(x.wall, x.start, x.Request(0)), x.Request(0)) == [B.Ack, B.Reject];
    NoLevels(Book([], []));
    PlainPasses(x.steps[0], [B.Ack, B.Reject], (0, 0));
    CleanGoes(x, 0, [B.Ack, B.Reject], Book([], []));
  }

  // ---------- When a bid and an equal ask go wrong ----------

  lemma {:induction false} VolumeInsert(side: Side, l: seq<Entry>, e: Entry)
    ensures Volume(Insert(side, l, e)) == Volume(l) + e.remaining
  {
    if l == [] || EntryAhead(side, e, l[0]) {
      assert Insert(side, l, e)[1..] == l;
    } else {
      VolumeInsert(side, l[1..], e);
      assert Insert(side, l, e)[1..] == Insert(side, l[1..], e);
    }
  }

  lemma {:induction false} VolumeZero(l: seq<Entry>)
    requires Live(l)
    ensures Volume(l) >= 0 && (Volume(l) == 0 ==> l == [])
  {
    if l != [] {
      VolumeZero(l[1..]);
    }
  }

  lemma UnheardPlain(step: B.Step, more: seq<B.Reply>)
    requires step.kind.PlaceOrder? && !step.expectFill && !step.expectReject
    ensures Unheard(step, [B.Ack] + more, B.NOTHING) == Some(more) && Unheard(step, [B.Reject], B.NOTHING) == None
  {
    assert ([B.Ack] + more)[1..] == more;
  }

  /** A step that times out has heard everything and still not enough. */
  lemma {:induction false} HeardTooLittle(step: B.Step, replies: seq<B.Reply>, seen: B.Seen)
    requires Unheard(step, replies, seen).None? && !B.Enough(step, seen)
    ensures var r := B.Listen(step, Gots(replies), seen);
            r.Some? && !B.Enough(step, r.value) && (seen.ack || B.Ack in replies ==> r.value.ack)
  {
    if replies != [] {
      assert Gots(replies)[1..] == Gots(replies[1..]);
      HeardTooLittle(step, replies[1..], B.Note(seen, replies[0]));
    }
  }

  /** Reading two order steps without a failure. */
  lemma TwoStepsPass(steps: seq<B.Step>, io: nat -> B.StepIO)
    requires |steps| == 2 && steps[0].kind.PlaceOrder? && steps[1].kind.PlaceOrder?
    requires B.Play(steps, io, 0, {}).failed == 0
    ensures io(1).writeOk && B.Listen(steps[1], io(1).readings, B.NOTHING).Some?
    ensures B.Judge(steps[1], B.Listen(steps[1], io(1).readings, B.NOTHING).value, io(1).query).failed == 0
  {
    hide B.Judge, B.Listen;
    assert B.Play(steps, io, 1, {} + {steps[0].tag}).failed == 0;
  }

  /** A sell that leaves both sides empty took exactly its quantity from bids that were all
      in reach, and there was nothing else. */
  lemma SoldOut(wall: Clock.Wall, s: System, session: string, r: Request)
    requires SysOk(s) && r.side == "sell" && r.typ == "limit" && r.quantity > 0
    requires BookAfter(wall, s, session, r) == Book([], [])
    ensures s.book.asks == [] && Volume(s.book.bids) == r.quantity
    ensures forall e :: e in s.book.bids ==> e.price >= r.price
  {
    hide SysOk, Match, Insert, Sorted, Live;
    SysSide(s, Buy);
    InsertMembers(Sell, s.book.asks, EntryFor(wall, s, session, r));
    MatchAccounts(wall, Taker(r.id, Sell, Limit, r.price), r.quantity, s.book.bids, Clock.Tick(wall, s.clock));
    MatchedOut(wall, Taker(r.id, Sell, Limit, r.price), r.quantity, s.book.bids, Clock.Tick(wall, s.clock));
  }

  /** A match that fills the order and empties the side took every order on it whole. */
  lemma MatchedOut(wall: Clock.Wall, t: Taker, left: int, opp: seq<Entry>, c: Clock.State)
    requires left > 0 && Sorted(t.side.Opposite(), opp) && Live(opp)
    requires Match(wall, t, left, opp, c).left == 0 && Match(wall, t, left, opp, c).side == []
    ensures Volume(opp) == left && forall e :: e in opp ==> Crosses(t, e.price)
  {
    hide Match, Sorted, CrossingVolume, Stamped, Crosses;
    MatchFacts(wall, t, left, opp, c);
  }

  lemma SysSide(s: System, side: Side)
    requires SysOk(s)
    ensures Sorted(side, s.book.On(side)) && Live(s.book.On(side)) && Uncrossed(s.book) && Distinct(s.book)
  {
  }

  lemma {:induction false} FilledPositive(hits: seq<Hit>)
    requires forall i :: 0 <= i < |hits| ==> hits[i].qty > 0
    ensures Filled(hits) >= 0 && (Filled(hits) == 0 ==> hits == [])
  {
    if hits != [] {
      FilledPositive(hits[1..]);
    }
  }

  /** A buy that leaves no ask, and bids of exactly its own size at its price or better,
      can only have come to an empty book. */
  lemma OnlyOnEmpty(wall: Clock.Wall, s: System, session: string, r: Request)
    requires SysOk(s) && r.side == "buy" && r.typ == "limit" && r.quantity > 0
    requires var b := BookAfter(wall, s, session, r);
             b.asks == [] && Volume(b.bids) == r.quantity && forall e :: e in b.bids ==> e.price >= r.price
    ensures s.book == Book([], [])
  {
    hide SysOk, Match, Insert, Sorted, CrossingVolume, Stamped;
    var t, c, m := Taker(r.id, Buy, Limit, r.price), Clock.Tick(wall, s.clock), MatchOf(wall, s, r);
    var b, e, l := BookAfter(wall, s, session, r), EntryFor(wall, s, session, r), s.book.bids;
    SysSide(s, Sell);
    SysSide(s, Buy);
    MatchFacts(wall, t, r.quantity, s.book.asks, c);
    VolumeZero(l);
    FilledPositive(m.hits);
    assert (l != [] ==> l[0] in l) && (s.book.asks != [] ==> s.book.asks[0] in s.book.asks);
    InsertMembers(Buy, l, e);
    VolumeInsert(Buy, l, e);
  }

  /** What a fill assertion and two counts of zero demand. */
  lemma JudgedWell(ask: string, p: real, q: int, seen: B.Seen, query: Option<(int, int)>)
    requires p > 0.0 && q > 0
    requires B.Judge(B.Filling(B.Limit(ask, "sell", p, q, 0, 0), p, q), seen, query).failed == 0
    ensures query == Some((0, 0)) && seen.fill && !B.Differs(seen.price, p) && seen.qty == q
  {
  }

  /** Nothing on the start book belongs to the session that plays. */
  ghost predicate Foreign(x: Script) {
    forall e :: On(x.start.book, e) ==> e.session != x.session
  }

  /** Playing a bid and an equal ask fails nothing exactly on the empty book. */
  lemma MatchExactly(x: Script, bid: string, ask: string, p: real, q: int)
    requires x.session in x.start.sessions && TagOk(bid) && TagOk(ask) && p > 0.0 && q > 0
    requires x.steps == MatchSteps(bid, ask, p, q) && SysOk(x.start) && Foreign(x)
    ensures B.Play(x.steps, x.IO(), 0, {}).failed == 0 <==> x.start.book == Book([], [])
  {
    hide Script.At, Script.IO, SysOk, TagOk, B.Play, B.Judge, Passes, Perfect, Foreign;
    Start(x);
    if x.start.book == Book([], []) {
      PlaysMatch(x, bid, ask, p, q);
      PerfectPlay(x, 0);
      assert x.At(0).ids.Keys == {};
    }
    if B.Play(x.steps, x.IO(), 0, {}).failed == 0 {
      TwoStepsPass(x.steps, x.IO());
      MustBeEmpty(x, bid, ask, p, q);
    }
  }

  /** The first bid is answered in time only if its id is free. */
  lemma FirstBid(x: Script, bid: string, ask: string, p: real, q: int)
    requires x.session in x.start.sessions && TagOk(bid) && TagOk(ask) && p > 0.0 && q > 0
    requires x.steps == MatchSteps(bid, ask, p, q) && x.At(1).unread.Some?
    ensures x.Open(1) && x.start.book.Lookup(B.StepOrderId(0, bid)).None?
    ensures x.Book(1) == BookAfter(x.wall, x.start, x.session, x.Request(0))
  {
    hide Script.At, Script.IO, TagOk, Validate, Find, Unheard, Gots, Levels, BookAfter, MatchOf, B.StepOrderId;
    Start(x);
    RequestValid(x, 0);
    OrderStep(x, 0);
    UnheardPlain(x.steps[0], []);
    assert [] + [B.Reject] == [B.Reject];
  }

  /** An order of another id that the first bid leaves is somebody else's. */
  lemma StillForeign(wall: Clock.Wall, s: System, session: string, r: Request, y: Entry)
    requires On(BookAfter(wall, s, session, r), y) && y.id != r.id
    requires forall e :: On(s.book, e) ==> e.session != session
    ensures y.session != session
  {
    hide Match, Insert;
    MatchMembers(wall, Taker(r.id, SideOf(r), TypeOf(r), r.price), r.quantity, s.book.On(SideOf(r).Opposite()),
                 Clock.Tick(wall, s.clock));
    InsertMembers(SideOf(r), s.book.On(SideOf(r)), EntryFor(wall, s, session, r));
  }

  /** Taking one session's orders off the book leaves every other order there. */
  lemma OthersStay(b: Book, session: string, y: Entry)
    requires Distinct(b) && On(b, y) && y.session != session
    ensures On(b.Without(b.IdsOf(session)), y)
  {
    DropMembers(b.bids, b.IdsOf(session));
    DropMembers(b.asks, b.IdsOf(session));
    hide Drop;
    assert forall z :: z in b.bids + b.asks ==> On(b, z);
  }

  /** The ask is taken, and is answered in time. */
  lemma SecondAsk(x: Script, bid: string, ask: string, p: real, q: int)
    requires x.session in x.start.sessions && TagOk(bid) && TagOk(ask) && p > 0.0 && q > 0
    requires x.steps == MatchSteps(bid, ask, p, q) && SysOk(x.At(1).engine) && Foreign(x)
    requires x.At(1).unread.Some? && x.Book(2) == Book([], [])
    requires var seen := B.Listen(x.steps[1], x.IO()(1).readings, B.NOTHING); seen.Some? && seen.value.fill
    ensures BookAfter(x.wall, x.At(1).engine, x.session, x.Request(1)) == Book([], [])
  {
    hide Script.At, Script.IO, SysOk, TagOk, Validate, Find, Unheard, Gots, Levels, BookAfter, MatchOf, B.StepOrderId,
        B.Listen, Drop, Distinct;
    FirstBid(x, bid, ask, p, q);
    RequestValid(x, 1);
    OrderStep(x, 1);
    var b, r := x.Book(1), x.Request(1);
    if b.Lookup(r.id).Some? {
      LookupMembers(b, r.id);
      var y := b.Lookup(r.id).value;
      IdsDiffer(0, bid, 1, ask);
      StillForeign(x.wall, x.start, x.session, x.Request(0), y);
      SysSide(x.At(1).engine, Buy);
      OthersStay(b, x.session, y);
    } else {
      var m := MatchOf(x.wall, x.At(1).engine, r);
      var all := x.At(1).unread.value + AnswerTo(m, r);
      assert all[|x.At(1).unread.value|] == B.Ack;
      if x.At(2).unread.None? {
        HeardTooLittle(x.steps[1], all, B.NOTHING);
      }
    }
  }

  lemma MustBeEmpty(x: Script, bid: string, ask: string, p: real, q: int)
    requires x.session in x.start.sessions && TagOk(bid) && TagOk(ask) && p > 0.0 && q > 0
    requires x.steps == MatchSteps(bid, ask, p, q) && SysOk(x.start) && Foreign(x)
    requires var io := x.IO()(1);
             && io.writeOk && B.Listen(x.steps[1], io.readings, B.NOTHING).Some?
             && B.Judge(x.steps[1], B.Listen(x.steps[1], io.readings, B.NOTHING).value, io.query).failed == 0
    ensures x.start.book == Book([], [])
  {
    hide Script.At, Script.IO, SysOk, TagOk, B.Judge, Validate, Find, Gots, Levels, B.Listen, BookAfter, Foreign,
        Volume;
    Start(x);
    WriteMeansOpen(x, 1);
    FirstBid(x, bid, ask, p, q);
    var io := x.IO()(1);
    JudgedWell(ask, p, q, B.Listen(x.steps[1], io.readings, B.NOTHING).value, io.query);
    FirstStep(x);
    QueryIs(x, 1);
    NoLevels(x.Book(2));
    SecondAsk(x, bid, ask, p, q);
    SoldOut(x.wall, x.At(1).engine, x.session, x.Request(1));
    OnlyOnEmpty(x.wall, x.start, x.session, x.Request(0));
  }

  lemma QueryIs(x: Script, i: nat)
    requires i < |x.steps| && x.At(i).unread.Some?
    ensures x.IO()(i).query == Some(Levels(x.Book(i + 1)))
  {
    hide Script.At, Script.Arrived, Levels;
  }

  lemma FirstStep(x: Script)
    requires |x.steps| > 0 && SysOk(x.start) && x.At(1).unread.Some?
    ensures SysOk(x.At(1).engine)
  {
    hide SysOk, Step, Unheard, Said;
    StepKeeps(x.wall, x.start, Deliver(x.session, x.Request(0)));
    Start(x);
  }

  // ---------- The whole correctness run ----------

  /** What the run cannot choose: the clock, the addresses of its connections, and how soon
      the engine tears down a connection that was closed early. */
  datatype Setting = Setting(wall: Clock.Wall, addrs: nat -> string, prompt: nat -> bool)

  /** The bot's k-th sequence on its own connection, after the k before it. */
  function Session(w: Setting, s: System, k: nat): Script
    requires k < |B.SEQUENCES|
    decreases k, 1
  {
    var t, addr := Between(w, s, k), w.addrs(k);
    Script(w.wall, Step(w.wall, t, Connect(addr)), SessionId(addr, Clock.Tick(w.wall, t.clock).last),
           B.SEQUENCES[k], w.prompt(k))
  }

  /** The engine after the first k sequences. */
  function Between(w: Setting, s: System, k: nat): System
    requires k <= |B.SEQUENCES|
    decreases k, 0
  {
    if k == 0 then s
    else
      var x := Session(w, s, k - 1);
      Step(w.wall, x.At(|x.steps|).engine, Disconnect(x.session))
  }

  function Environment(w: Setting, s: System): nat -> B.Session {
    (k: nat) =>
      if k >= |B.SEQUENCES| then B.Session(false, (i: nat) => B.StepIO(false, [], None))
      else B.Session(true, Session(w, s, k).IO())
  }

  lemma Tags()
    ensures TagOk("bid") && TagOk("ask") && TagOk("bid-lo") && TagOk("bid-hi") && TagOk("sell") && TagOk("mkt")
  {
  }

  lemma PlaysSequence(x: Script, k: nat)
    requires k < |B.SEQUENCES| && x.steps == B.SEQUENCES[k] && x.session in x.start.sessions
    requires x.start.book == Book([], [])
    ensures Perfect(x)
  {
    Tags();
    hide Perfect, TagOk;
    if k == 0 {
      PlaysMatch(x, "bid", "ask", 500.0, 10);
    } else if k == 1 {
      PlaysPriority(x, "bid-lo", "bid-hi", "sell", 500.0, 1.0, 5);
    } else if k == 2 {
      PlaysPartial(x, "bid", "ask", 510.0, 10, 3);
    } else if k == 3 {
      PlaysCancels(x, "bid", "ask", 520.0, 10);
    } else {
      PlaysMarket(x, "mkt", 10);
    }
  }

  lemma Connected(w: Setting, s: System, k: nat)
    requires k < |B.SEQUENCES|
    ensures var x := Session(w, s, k);
            && x.steps == B.SEQUENCES[k] && x.session in x.start.sessions
            && x.start.book == Between(w, s, k).book
  {
  }

  lemma DisconnectEmpty(wall: Clock.Wall, t: System, session: string)
    requires t.book == Book([], [])
    ensures Step(wall, t, Disconnect(session)).book == Book([], [])
  {
  }

  lemma {:induction false} EverySessionPerfect(w: Setting, s: System, k: nat)
    requires s.book == Book([], []) && k < |B.SEQUENCES|
    ensures Perfect(Session(w, s, k))
    decreases k
  {
    hide Step, Script.At, Script.IO, Passes, B.BASIC_MATCH, B.PRIORITY_FILL, B.PARTIAL_FILL, B.CANCEL_FLOW,
        B.REJECT_MARKET;
    var x := Session(w, s, k);
    Connected(w, s, k);
    if k > 0 {
      EverySessionPerfect(w, s, k - 1);
      var y := Session(w, s, k - 1);
      DisconnectEmpty(w.wall, y.At(|y.steps|).engine, y.session);
    }
    PlaysSequence(x, k);
  }

  lemma {:induction false} PlaysAll(w: Setting, s: System, k: nat)
    requires s.book == Book([], []) && k <= |B.SEQUENCES|
    ensures B.PlayAll(B.SEQUENCES[..k], Environment(w, s)) == B.Tally(B.TotalAll(B.SEQUENCES[..k]), 0)
  {
    hide Script.At, Script.IO, B.Play, B.TotalFrom, Session, Perfect;
    if k > 0 {
      PlaysAll(w, s, k - 1);
      var x := Session(w, s, k - 1);
      EverySessionPerfect(w, s, k - 1);
      Connected(w, s, k - 1);
      PerfectPlay(x, 0);
      Start(x);
      assert x.At(0).ids.Keys == {};
      assert B.SEQUENCES[..k][..k - 1] == B.SEQUENCES[..k - 1];
    }
  }

  lemma {:induction false} FirstFailsNothing(seqs: seq<seq<B.Step>>, env: nat -> B.Session)
    requires seqs != [] && B.PlayAll(seqs, env).failed == 0
    ensures B.PlaySession(seqs[0], env(0)).failed == 0
  {
    if |seqs| > 1 {
      FirstFailsNothing(seqs[..|seqs| - 1], env);
    }
  }

  /** The reference engine, in any state it can reach and under any clock, passes all 33
      assertions of the correctness run and scores 1 exactly when its book is empty: any
      order that already rests makes the run fail. */
  lemma ReferenceScoresOne(w: Setting, s: System)
    requires SysOk(s)
    ensures var t := B.PlayAll(B.SEQUENCES, Environment(w, s));
            && (B.Score(t) == 1.0 <==> s.book == Book([], []))
            && (s.book == Book([], []) ==> t == B.Tally(33, 0))
  {
    hide B.PlayAll, B.TotalAll, Environment, SysOk, Step, B.Score;
    var t := B.PlayAll(B.SEQUENCES, Environment(w, s));
    B.ThirtyThree();
    B.ShippedScoreSound(Environment(w, s));
    if s.book == Book([], []) {
      PlaysAll(w, s, 5);
      assert B.SEQUENCES[..5] == B.SEQUENCES;
    }
    if t.passed == 33 {
      FirstFailsNothing(B.SEQUENCES, Environment(w, s));
      FirstDecides(w, s);
    }
  }

  lemma FirstDecides(w: Setting, s: System)
    requires SysOk(s)
    ensures B.PlaySession(B.SEQUENCES[0], Environment(w, s)(0)).failed == 0 ==> s.book == Book([], [])
  {
    hide SysOk, Step, Script.At, Script.IO, B.Play, TagOk, Foreign;
    var x := Session(w, s, 0);
    StepKeeps(w.wall, s, Connect(w.addrs(0)));
    Connected(w, s, 0);
    NewcomerForeign(w, s);
    Tags();
    MatchExactly(x, "bid", "ask", 500.0, 10);
  }

  lemma NewcomerForeign(w: Setting, s: System)
    requires SysOk(s)
    ensures Foreign(Session(w, s, 0))
  {
    hide Issued, SessionId;
    NewSession(s.sessions, s.clock.last, w.addrs(0), Clock.Tick(w.wall, s.clock).last);
  }
}
