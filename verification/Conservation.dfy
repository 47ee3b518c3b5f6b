/** Where the quantity of accepted orders goes, over whole runs. */
module Conservation {
  import opened Orders
  import opened Options
  import opened ListBook
  import opened PriceTime
  import Clock

  datatype Flow = AsAccepted | AsTaker | AsMaker | AsCancelled | AsUnfilled

  /** One order, named by its entry time, or all orders together. */
  type Key = Option<int>

  predicate Picks(k: Key, key: int) { k.None? || k.value == key }

  function Amount(r: Record, k: Key, f: Flow): int {
    match (r, f)
    case (Accepted(key, qty), AsAccepted) => if Picks(k, key) then qty else 0
    case (Traded(taker, _, qty), AsTaker) => if Picks(k, taker) then qty else 0
    case (Traded(_, maker, qty), AsMaker) => if Picks(k, maker) then qty else 0
    case (Cancelled(key, qty), AsCancelled) => if Picks(k, key) then qty else 0
    case (Unfilled(key, qty), AsUnfilled) => if Picks(k, key) then qty else 0
    case _ => 0
  }

  function Total(log: seq<Record>, k: Key, f: Flow): int {
    if log == [] then 0 else Total(log[..|log| - 1], k, f) + Amount(log[|log| - 1], k, f)
  }

  function Resting(l: seq<Entry>, k: Key): int {
    if l == [] then 0 else (if Picks(k, l[0].enteredAt) then l[0].remaining else 0) + Resting(l[1..], k)
  }

  /** The last ack among the messages sent. */
  function LastAck(out: seq<(string, Message)>): Option<(string, Message)> {
    if out == [] then None
    else if out[|out| - 1].1.Ack? then Some(out[|out| - 1]) else LastAck(out[..|out| - 1])
  }

  /** A fill sent right after this ack, to the same session and for the same order,
      belongs to the order entered at the ack's stamp. */
  predicate Belongs(ack: Option<(string, Message)>, fill: (string, Message), k: Key) {
    k.None? || (ack.Some? && ack.value.0 == fill.0 && ack.value.1.id == fill.1.id && ack.value.1.ts == k.value)
  }

  /** The quantity reported by the fill messages of one order, or of all. */
  function FillsSent(out: seq<(string, Message)>, k: Key): int {
    if out == [] then 0
    else
      var front, m := out[..|out| - 1], out[|out| - 1];
      FillsSent(front, k) + (if m.1.Fill? && Belongs(LastAck(front), m, k) then m.1.qty else 0)
  }

  /** Everything accepted has been traded, is resting, was cancelled, or was refused for
      want of liquidity. */
  ghost predicate Balanced(s: System, k: Key) {
    Total(s.log, k, AsAccepted)
    == Total(s.log, k, AsTaker) + Total(s.log, k, AsMaker) + Resting(s.book.bids, k) + Resting(s.book.asks, k)
     + Total(s.log, k, AsCancelled) + Total(s.log, k, AsUnfilled)
  }

  lemma {:induction false} TotalConcat(a: seq<Record>, b: seq<Record>, k: Key, f: Flow)
    ensures Total(a + b, k, f) == Total(a, k, f) + Total(b, k, f)
  {
    if b == [] {
      assert a + b == a;
    } else {
      TotalConcat(a, b[..|b| - 1], k, f);
      assert (a + b)[..|a + b| - 1] == a + b[..|b| - 1];
    }
  }

  lemma {:induction false} RestingInsert(side: Side, l: seq<Entry>, e: Entry, k: Key)
    ensures Resting(Insert(side, l, e), k) == Resting(l, k) + (if Picks(k, e.enteredAt) then e.remaining else 0)
  {
    if l == [] || EntryAhead(side, e, l[0]) {
      assert Insert(side, l, e)[1..] == l;
    } else {
      RestingInsert(side, l[1..], e, k);
      assert Insert(side, l, e)[1..] == Insert(side, l[1..], e);
    }
  }

  lemma {:induction false} RestingDrop(l: seq<Entry>, ids: set<string>, k: Key)
    ensures Resting(l, k) == Resting(Drop(l, ids), k) + Total(Removals(l, ids), k, AsCancelled)
    ensures forall f :: f != AsCancelled ==> Total(Removals(l, ids), k, f) == 0
  {
    if l != [] {
      RestingDrop(l[1..], ids, k);
      if l[0].id in ids {
        var r := Cancelled(l[0].enteredAt, l[0].remaining);
        assert Drop(l, ids) == Drop(l[1..], ids);
        forall f: Flow
          ensures Total(Removals(l, ids), k, f) == Amount(r, k, f) + Total(Removals(l[1..], ids), k, f)
        {
          TotalConcat([r], Removals(l[1..], ids), k, f);
          TotalOne(r, k, f);
        }
      } else {
        assert Drop(l, ids)[1..] == Drop(l[1..], ids);
        assert Removals(l, ids) == Removals(l[1..], ids);
      }
    }
  }

  lemma TotalOne(r: Record, k: Key, f: Flow)
    ensures Total([r], k, f) == Amount(r, k, f)
  {
  }

  lemma {:induction false} RestingShrink(l: seq<Entry>, qty: int, k: Key)
    requires l != []
    ensures Resting(ShrinkHead(l, qty), k) == Resting(l, k) - (if Picks(k, l[0].enteredAt) then qty else 0)
  {
  }

  lemma TradesCons(taker: int, hit: Hit, hits: seq<Hit>, k: Key, f: Flow)
    ensures Total(Trades(taker, [hit] + hits), k, f)
         == Amount(Traded(taker, hit.maker.enteredAt, hit.qty), k, f) + Total(Trades(taker, hits), k, f)
  {
    var r := Traded(taker, hit.maker.enteredAt, hit.qty);
    assert Trades(taker, [hit] + hits) == [r] + Trades(taker, hits);
    TotalConcat([r], Trades(taker, hits), k, f);
    TotalOne(r, k, f);
  }

  /** Each resting order loses exactly what it traded, and the taker gains the sum. */
  lemma {:induction false} MatchBalances(
    wall: Clock.Wall, t: Taker, left: int, opp: seq<Entry>, c: Clock.State, taker: int, k: Key)
    ensures var m := Match(wall, t, left, opp, c);
            && Resting(opp, k) == Resting(m.side, k) + Total(Trades(taker, m.hits), k, AsMaker)
            && (Picks(k, taker) ==> left == m.left + Total(Trades(taker, m.hits), k, AsTaker))
            && (!Picks(k, taker) ==> Total(Trades(taker, m.hits), k, AsTaker) == 0)
            && (forall f :: f != AsMaker && f != AsTaker ==> Total(Trades(taker, m.hits), k, f) == 0)
    decreases |opp|
  {
    hide Match, ShrinkHead, Total, Crosses;
    if left <= 0 || opp == [] || !Crosses(t, opp[0].price) {
      MatchStops(wall, t, left, opp, c);
      NoTrades(taker, k);
    } else {
      MatchStep(wall, t, left, opp, c);
      var qty, c' := Min(left, opp[0].remaining), Clock.Tick(wall, c);
      var hit := Hit(opp[0], qty, left - qty, c'.last);
      var rest := if qty == opp[0].remaining then opp[1..] else ShrinkHead(opp, qty);
      var r := Match(wall, t, left - qty, rest, c');
      if qty == opp[0].remaining {
        MatchBalances(wall, t, left - qty, rest, c', taker, k);
      } else {
        RestingShrink(opp, qty, k);
        MatchStops(wall, t, left - qty, rest, c');
        NoTrades(taker, k);
      }
      forall f: Flow {
        TradesCons(taker, hit, r.hits, k, f);
      }
    }
  }

  lemma NoTrades(taker: int, k: Key)
    ensures forall f :: Total(Trades(taker, []), k, f) == 0
  {
  }

  function Flowed(log: seq<Record>, k: Key): int {
    Total(log, k, AsAccepted) - Total(log, k, AsTaker) - Total(log, k, AsMaker)
    - Total(log, k, AsCancelled) - Total(log, k, AsUnfilled)
  }

  lemma FlowedConcat(a: seq<Record>, b: seq<Record>, k: Key)
    ensures Flowed(a + b, k) == Flowed(a, k) + Flowed(b, k)
  {
    hide Total;
    TotalConcat(a, b, k, AsAccepted);
    TotalConcat(a, b, k, AsTaker);
    TotalConcat(a, b, k, AsMaker);
    TotalConcat(a, b, k, AsCancelled);
    TotalConcat(a, b, k, AsUnfilled);
  }

  lemma FlowedOne(r: Record, k: Key)
    ensures Flowed([r], k) == match r
                              case Accepted(key, qty) => if Picks(k, key) then qty else 0
                              case Traded(taker, maker, qty) =>
                                (if Picks(k, taker) then -qty else 0) + (if Picks(k, maker) then -qty else 0)
                              case Cancelled(key, qty) => if Picks(k, key) then -qty else 0
                              case Unfilled(key, qty) => if Picks(k, key) then -qty else 0
  {
    forall f: Flow {
      TotalOne(r, k, f);
    }
    hide Total;
  }

  lemma WithoutBalances(s: System, ids: set<string>, k: Key)
    requires Balanced(s, k)
    ensures Balanced(s.(book := s.book.Without(ids), log := s.log + s.book.Cancellations(ids)), k)
  {
    hide Total, Drop, Removals, Resting;
    RestingDrop(s.book.bids, ids, k);
    RestingDrop(s.book.asks, ids, k);
    FlowedConcat(Removals(s.book.bids, ids), Removals(s.book.asks, ids), k);
    FlowedConcat(s.log, s.book.Cancellations(ids), k);
  }

  lemma AcceptBalances(wall: Clock.Wall, s: System, session: string, r: Request, k: Key)
    requires Balanced(s, k) && r.quantity > 0 && PriceTime.Live(s.book.On(SideOf(r).Opposite()))
    ensures Balanced(Accept(wall, s, session, r), k)
  {
    hide Total, Resting, Match, Insert;
    var side, typ := SideOf(r), TypeOf(r);
    var c := Clock.Tick(wall, s.clock);
    var t := Taker(r.id, side, typ, r.price);
    var m := Match(wall, t, r.quantity, s.book.On(side.Opposite()), c);
    MatchAccounts(wall, t, r.quantity, s.book.On(side.Opposite()), c);
    MatchBalances(wall, t, r.quantity, s.book.On(side.Opposite()), c, c.last, k);
    hide Accounts, Live;
    var accepted := [Accepted(c.last, r.quantity)];
    FlowedOne(accepted[0], k);
    FlowedConcat(s.log, accepted, k);
    FlowedConcat(s.log + accepted, Trades(c.last, m.hits), k);
    var log := s.log + accepted + Trades(c.last, m.hits);
    var e := Entry(r.id, side, r.price, r.quantity, m.left, c.last, session);
    RestingInsert(side, s.book.On(side), e, k);
    FlowedOne(Unfilled(c.last, m.left), k);
    FlowedConcat(log, [Unfilled(c.last, m.left)], k);
  }

  lemma StepBalances(wall: Clock.Wall, s: System, cmd: Command, k: Key)
    requires Balanced(s, k) && Live(s.book.bids) && Live(s.book.asks)
    ensures Balanced(Step(wall, s, cmd), k)
  {
    hide Total, Resting, Accept;
    match cmd
    case Connect(addr) =>
    case Disconnect(session) => WithoutBalances(s, s.book.IdsOf(session), k);
    case Deliver(session, r) =>
      if r.kind == "order" && Validate(r).None? {
        AcceptBalances(wall, s, session, r, k);
      } else if r.kind == "cancel" {
        WithoutBalances(s, {r.id}, k);
      }
  }

  // ---------- What the clients are told ----------

  lemma SentSnoc(out: seq<(string, Message)>, m: (string, Message), k: Key)
    ensures LastAck(out + [m]) == if m.1.Ack? then Some(m) else LastAck(out)
    ensures FillsSent(out + [m], k)
         == FillsSent(out, k) + (if m.1.Fill? && Belongs(LastAck(out), m, k) then m.1.qty else 0)
  {
  }

  lemma TradesSnoc(taker: int, hits: seq<Hit>, k: Key, f: Flow)
    requires hits != []
    ensures var last := hits[|hits| - 1];
            Total(Trades(taker, hits), k, f)
            == Total(Trades(taker, hits[..|hits| - 1]), k, f)
             + Amount(Traded(taker, last.maker.enteredAt, last.qty), k, f)
  {
    var tr := Trades(taker, hits);
    assert tr[..|tr| - 1] == Trades(taker, hits[..|hits| - 1]);
  }

  /** The fills sent after an ack report exactly what that order took. */
  lemma {:induction false} FillsOfHits(
    out: seq<(string, Message)>, session: string, id: string, taker: int, hits: seq<Hit>, k: Key)
    requires LastAck(out) == Some((session, Ack(id, taker)))
    ensures var sent := out + Addressed(session, FillMessages(id, hits));
            && LastAck(sent) == LastAck(out)
            && FillsSent(sent, k) == FillsSent(out, k) + Total(Trades(taker, hits), k, AsTaker)
    ensures Total(Trades(taker, hits), None, AsTaker) == Total(Trades(taker, hits), None, AsMaker)
  {
    hide FillsSent, LastAck, Total;
    if hits == [] {
      assert out + Addressed(session, FillMessages(id, hits)) == out;
      NoTrades(taker, k);
      NoTrades(taker, None);
    } else {
      var init, last := hits[..|hits| - 1], hits[|hits| - 1];
      FillsOfHits(out, session, id, taker, init, k);
      var sent := out + Addressed(session, FillMessages(id, init));
      var m := (session, FillMessage(id, last));
      assert out + Addressed(session, FillMessages(id, hits)) == sent + [m];
      SentSnoc(sent, m, k);
      TradesSnoc(taker, hits, k, AsTaker);
      TradesSnoc(taker, hits, None, AsTaker);
      TradesSnoc(taker, hits, None, AsMaker);
    }
  }

  /** What the clients were told is what was taken, and all that was taken was made. */
  ghost predicate Reported(s: System, k: Key) {
    && FillsSent(s.out, k) == Total(s.log, k, AsTaker)
    && Total(s.log, None, AsTaker) == Total(s.log, None, AsMaker)
  }

  /** A message that is no fill, with records of no trade, changes no report. */
  lemma QuietStep(s: System, m: (string, Message), log: seq<Record>, k: Key)
    requires Reported(s, k) && !m.1.Fill?
    requires Total(log, k, AsTaker) == Total(log, None, AsTaker) == Total(log, None, AsMaker) == 0
    ensures Reported(s.(out := s.out + [m], log := s.log + log), k)
    ensures Reported(s.(log := s.log + log), k)
  {
    SentSnoc(s.out, m, k);
    TotalConcat(s.log, log, k, AsTaker);
    TotalConcat(s.log, log, None, AsTaker);
    TotalConcat(s.log, log, None, AsMaker);
  }

  lemma AcceptReports(wall: Clock.Wall, s: System, session: string, r: Request, k: Key)
    requires Reported(s, k)
    ensures Reported(Accept(wall, s, session, r), k)
  {
    hide Total, FillsSent, Match, Insert, LastAck;
    var side, typ := SideOf(r), TypeOf(r);
    var c := Clock.Tick(wall, s.clock);
    var m := Match(wall, Taker(r.id, side, typ, r.price), r.quantity, s.book.On(side.Opposite()), c);
    var ack, accepted := (session, Ack(r.id, c.last)), Accepted(c.last, r.quantity);
    TotalOne(accepted, k, AsTaker);
    TotalOne(accepted, None, AsTaker);
    TotalOne(accepted, None, AsMaker);
    QuietStep(s, ack, [accepted], k);
    SentSnoc(s.out, ack, k);
    var out, log := s.out + [ack], s.log + [accepted];
    var fills, trades := Addressed(session, FillMessages(r.id, m.hits)), Trades(c.last, m.hits);
    FillsOfHits(out, session, r.id, c.last, m.hits, k);
    TotalConcat(log, trades, k, AsTaker);
    TotalConcat(log, trades, None, AsTaker);
    TotalConcat(log, trades, None, AsMaker);
    assert s.out + Addressed(session, [Ack(r.id, c.last)] + FillMessages(r.id, m.hits)) == out + fills;
    var d := Clock.Tick(wall, m.clock);
    var unfilled := Unfilled(c.last, m.left);
    TotalOne(unfilled, k, AsTaker);
    TotalOne(unfilled, None, AsTaker);
    TotalOne(unfilled, None, AsMaker);
    QuietStep(s.(out := out + fills, log := log + trades), (session, Reject(r.id, NoLiquidity, d.last)), [unfilled], k);
  }

  lemma CancellationsQuiet(b: Book, ids: set<string>, k: Key)
    ensures Total(b.Cancellations(ids), k, AsTaker) == Total(b.Cancellations(ids), k, AsMaker) == 0
  {
    hide Total, Drop, Removals;
    RestingDrop(b.bids, ids, k);
    RestingDrop(b.asks, ids, k);
    TotalConcat(Removals(b.bids, ids), Removals(b.asks, ids), k, AsTaker);
    TotalConcat(Removals(b.bids, ids), Removals(b.asks, ids), k, AsMaker);
  }

  lemma NothingTraded(k: Key)
    ensures Total([], k, AsTaker) == 0 && Total([], k, AsMaker) == 0
  {
  }

  lemma StepReports(wall: Clock.Wall, s: System, cmd: Command, k: Key)
    requires Reported(s, k)
    ensures Reported(Step(wall, s, cmd), k)
  {
    hide Total, FillsSent, Accept, Reported;
    NothingTraded(k);
    NothingTraded(None);
    match cmd
    case Connect(addr) => SameReport(s, HandleConnect(wall, s, addr), k);
    case Disconnect(session) =>
      var records := s.book.Cancellations(s.book.IdsOf(session));
      CancellationsQuiet(s.book, s.book.IdsOf(session), k);
      CancellationsQuiet(s.book, s.book.IdsOf(session), None);
      QuietStep(s, (session, CancelAck("", 0)), records, k);
      SameReport(s.(log := s.log + records), HandleDisconnect(s, session), k);
    case Deliver(session, r) =>
      assert s.log + [] == s.log;
      var c := Clock.Tick(wall, s.clock);
      forall reason: Reason
        ensures Reported(Refuse(wall, s, session, r.id, reason), k)
      {
        var reject := (session, Reject(r.id, reason, c.last));
        QuietStep(s, reject, [], k);
        SameReport(s.(out := s.out + [reject]), Refuse(wall, s, session, r.id, reason), k);
      }
      if r.kind == "order" {
        AcceptReports(wall, s, session, r, k);
      } else if r.kind == "cancel" {
        var ack, records := (session, CancelAck(r.id, c.last)), s.book.Cancellations({r.id});
        CancellationsQuiet(s.book, {r.id}, k);
        CancellationsQuiet(s.book, {r.id}, None);
        QuietStep(s, ack, records, k);
        SameReport(s.(out := s.out + [ack], log := s.log + records),
                   s.(book := s.book.Without({r.id}), clock := c, out := s.out + [ack], log := s.log + records), k);
      }
  }

  lemma SameReport(s: System, t: System, k: Key)
    requires Reported(s, k) && s.out == t.out && s.log == t.log
    ensures Reported(t, k)
  {
  }
}
