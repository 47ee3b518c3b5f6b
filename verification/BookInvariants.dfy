/** What every step of the engine keeps: sorted, live, uncrossed sides with distinct ids
    and entry times, owned by open sessions, and strictly increasing message stamps. */
module BookInvariants {
  import opened Orders
  import opened Options
  import opened ListBook
  import opened PriceTime
  import Clock
  import Decimal

  ghost predicate EntryOk(e: Entry, side: Side, last: int, sessions: set<string>) {
    && e.side == side && 0 < e.remaining <= e.quantity && e.price > 0.0
    && 0 < e.enteredAt <= last && e.session in sessions
  }

  ghost predicate SideOk(side: Side, l: seq<Entry>, last: int, sessions: set<string>) {
    Sorted(side, l) && forall e :: e in l ==> EntryOk(e, side, last, sessions)
  }

  predicate On(b: Book, e: Entry) { e in b.bids || e in b.asks }

  /** No two resting orders share an id or an entry time. */
  ghost predicate Distinct(b: Book) {
    forall e, f :: On(b, e) && On(b, f) && (e.id == f.id || e.enteredAt == f.enteredAt) ==> e == f
  }

  /** Every bid is strictly below every ask. */
  ghost predicate Uncrossed(b: Book) {
    forall x, y :: x in b.bids && y in b.asks ==> x.price < y.price
  }

  ghost predicate BookOk(b: Book, last: int, sessions: set<string>) {
    && SideOk(Buy, b.bids, last, sessions) && SideOk(Sell, b.asks, last, sessions)
    && Distinct(b) && Uncrossed(b)
  }

  ghost predicate OutOk(out: seq<(string, Message)>, last: int) {
    && (forall i :: 0 <= i < |out| ==> out[i].1.ts <= last)
    && (forall i, j :: 0 <= i < j < |out| ==> out[i].1.ts < out[j].1.ts)
  }

  /** A session id carries the stamp of the connection it was made for. */
  ghost predicate Issued(session: string, last: nat) {
    exists addr: string, ts: nat :: ts <= last && session == SessionId(addr, ts)
  }

  ghost predicate SysOk(s: System) {
    && BookOk(s.book, s.clock.last, s.sessions) && OutOk(s.out, s.clock.last)
    && (forall x :: x in s.sessions ==> Issued(x, s.clock.last))
  }

  // ---------- One side changes ----------

  lemma PopKeeps(b: Book, side: Side, last: int, sessions: set<string>)
    requires BookOk(b, last, sessions) && b.On(side) != []
    ensures BookOk(b.With(side, b.On(side)[1..]), last, sessions)
  {
  }

  lemma ShrinkSide(side: Side, l: seq<Entry>, qty: int, last: int, sessions: set<string>)
    requires SideOk(side, l, last, sessions) && l != [] && 0 < qty < l[0].remaining
    ensures SideOk(side, ShrinkHead(l, qty), last, sessions)
    ensures forall e :: e in ShrinkHead(l, qty) <==>
              e == l[0].(remaining := l[0].remaining - qty) || (e in l && e != l[0])
  {
    var r := ShrinkHead(l, qty);
    assert l[0] in l;
    assert r == [r[0]] + l[1..];
    forall e
      ensures e in l[1..] <==> e in l && e != l[0]
    {
      TailMember(side, l, e);
    }
    assert forall e :: e in r <==> e == r[0] || e in l[1..];
    assert forall j :: 0 < j < |l| ==> r[j] == l[j];
  }

  lemma ShrinkKeeps(b: Book, side: Side, qty: int, last: int, sessions: set<string>)
    requires BookOk(b, last, sessions) && b.On(side) != [] && 0 < qty < b.On(side)[0].remaining
    ensures BookOk(b.With(side, ShrinkHead(b.On(side), qty)), last, sessions)
  {
    var l := b.On(side);
    ShrinkSide(side, l, qty, last, sessions);
    assert l[0] in l;
    hide ShrinkHead, SideOk;
    var r := b.With(side, ShrinkHead(l, qty));
    forall e, f | On(r, e) && On(r, f) && (e.id == f.id || e.enteredAt == f.enteredAt)
      ensures e == f
    {
      var e0 := if On(b, e) then e else l[0];
      var f0 := if On(b, f) then f else l[0];
      assert On(b, e0) && On(b, f0);
    }
  }

  lemma {:induction false} MatchKeeps(
    wall: Clock.Wall, t: Taker, left: int, b: Book, c: Clock.State, last: int, sessions: set<string>)
    requires BookOk(b, last, sessions) && left >= 0
    ensures BookOk(b.With(t.side.Opposite(), Match(wall, t, left, b.On(t.side.Opposite()), c).side), last, sessions)
    decreases |b.On(t.side.Opposite())|
  {
    hide BookOk, Match, ShrinkHead;
    var opp := t.side.Opposite();
    var l := b.On(opp);
    if left <= 0 || l == [] || !Crosses(t, l[0].price) {
      MatchStops(wall, t, left, l, c);
    } else {
      MatchStep(wall, t, left, l, c);
      HeadLive(b, opp, last, sessions);
      var qty, c' := Min(left, l[0].remaining), Clock.Tick(wall, c);
      if qty == l[0].remaining {
        PopKeeps(b, opp, last, sessions);
        MatchKeeps(wall, t, left - qty, b.With(opp, l[1..]), c', last, sessions);
      } else {
        ShrinkKeeps(b, opp, qty, last, sessions);
        MatchStops(wall, t, left - qty, ShrinkHead(l, qty), c');
      }
    }
  }

  lemma HeadLive(b: Book, side: Side, last: int, sessions: set<string>)
    requires BookOk(b, last, sessions) && b.On(side) != []
    ensures b.On(side)[0].remaining > 0
  {
    assert b.On(side)[0] in b.On(side);
  }

  lemma WithoutKeeps(b: Book, ids: set<string>, last: int, sessions: set<string>)
    requires BookOk(b, last, sessions)
    ensures BookOk(b.Without(ids), last, sessions)
  {
    DropMembers(b.bids, ids);
    DropMembers(b.asks, ids);
    DropSorted(Buy, b.bids, ids);
    DropSorted(Sell, b.asks, ids);
    hide Sorted;
  }

  lemma InsertKeeps(b: Book, e: Entry, last: int, sessions: set<string>)
    requires BookOk(b, last, sessions) && EntryOk(e, e.side, last, sessions)
    requires forall x :: On(b, x) ==> x.id != e.id && x.enteredAt != e.enteredAt
    requires forall x :: x in b.On(e.side.Opposite()) ==>
               if e.side.Buy? then e.price < x.price else x.price < e.price
    ensures BookOk(b.With(e.side, Insert(e.side, b.On(e.side), e)), last, sessions)
  {
    hide Sorted, Insert;
    InsertMembers(e.side, b.On(e.side), e);
    InsertSorted(e.side, b.On(e.side), e);
  }

  lemma Later(b: Book, last: int, later: int, sessions: set<string>, more: set<string>)
    requires BookOk(b, last, sessions) && last <= later && sessions <= more
    ensures BookOk(b, later, more)
  {
  }

  // ---------- Each handler ----------

  lemma OutGrows(out: seq<(string, Message)>, last: int, session: string, m: Message, later: int)
    requires OutOk(out, last) && last < m.ts <= later
    ensures OutOk(out + [(session, m)], later)
  {
  }

  lemma {:induction false} FillsKeepOut(
    out: seq<(string, Message)>, last: int, session: string, id: string, hits: seq<Hit>, later: int)
    requires OutOk(out, last) && last <= later
    requires forall i :: 0 <= i < |hits| ==> last < hits[i].ts <= later
    requires forall i, j :: 0 <= i < j < |hits| ==> hits[i].ts < hits[j].ts
    ensures OutOk(out + Addressed(session, FillMessages(id, hits)), later)
  {
  }

  /** Nothing on the opposite side is within reach of a limit order that still has something left. */
  lemma NothingCrosses(t: Taker, l: seq<Entry>)
    requires Sorted(t.side.Opposite(), l) && t.typ.Limit?
    requires l == [] || !Crosses(t, l[0].price)
    ensures forall x :: x in l ==> if t.side.Buy? then t.price < x.price else x.price < t.price
  {
  }

  lemma RefuseKeeps(wall: Clock.Wall, s: System, session: string, id: string, reason: Reason)
    requires SysOk(s)
    ensures SysOk(Refuse(wall, s, session, id, reason))
  {
  }

  lemma IssuedLater(sessions: set<string>, last: nat, later: nat)
    requires last <= later && forall x :: x in sessions ==> Issued(x, last)
    ensures forall x :: x in sessions ==> Issued(x, later)
  {
  }

  lemma LookupMembers(b: Book, id: string)
    ensures var r := b.Lookup(id);
            && (r.Some? ==> On(b, r.value) && r.value.id == id)
            && (r.None? ==> forall x :: On(b, x) ==> x.id != id)
  {
  }

  lemma AddressedCons(out: seq<(string, Message)>, session: string, m: Message, ms: seq<Message>)
    ensures out + Addressed(session, [m] + ms) == (out + [(session, m)]) + Addressed(session, ms)
  {
  }

  lemma SideLive(b: Book, side: Side, last: int, sessions: set<string>)
    requires BookOk(b, last, sessions)
    ensures Sorted(side, b.On(side)) && Live(b.On(side))
  {
  }

  /** The observable parts of an acceptance, given its match. */
  lemma AcceptValue(wall: Clock.Wall, s: System, session: string, r: Request, m: Outcome)
    requires m == Match(wall, Taker(r.id, SideOf(r), TypeOf(r), r.price), r.quantity,
                                 s.book.On(SideOf(r).Opposite()), Clock.Tick(wall, s.clock))
    ensures var a, side := Accept(wall, s, session, r), SideOf(r);
            var matched := s.book.With(side.Opposite(), m.side);
            var entered := Clock.Tick(wall, s.clock).last;
            var reject := m.left > 0 && TypeOf(r).Market?;
            var rest := m.left > 0 && TypeOf(r).Limit?;
            var e := Entry(r.id, side, r.price, r.quantity, m.left, entered, session);
            var d := Clock.Tick(wall, m.clock);
            && a.sessions == s.sessions
            && a.book == (if rest then matched.With(side, Insert(side, s.book.On(side), e)) else matched)
            && a.clock == (if reject then d else m.clock)
            && a.out == s.out + Addressed(session, [Ack(r.id, entered)] + FillMessages(r.id, m.hits))
                      + (if reject then [(session, Reject(r.id, NoLiquidity, d.last))] else [])
  {
    hide Match, Insert;
  }

  /** The part of an accepted order's match that the invariant needs. */
  lemma AcceptedMatch(wall: Clock.Wall, s: System, session: string, r: Request)
    requires SysOk(s) && Validate(r).None?
    ensures var t := Taker(r.id, SideOf(r), TypeOf(r), r.price);
            var c := Clock.Tick(wall, s.clock);
            var opp := t.side.Opposite();
            var m := Match(wall, t, r.quantity, s.book.On(opp), c);
            && BookOk(s.book.With(opp, m.side), c.last, s.sessions) && 0 <= m.left <= r.quantity
            && c.last <= m.clock.last
            && OutOk(s.out + Addressed(session, [Ack(r.id, c.last)] + FillMessages(r.id, m.hits)), m.clock.last)
            && (m.left > 0 && t.typ.Limit? ==>
                  forall x :: x in m.side ==> if t.side.Buy? then t.price < x.price else x.price < t.price)
  {
    hide BookOk, OutOk, Match, HitsPrefix, LeavesRest, CrossingVolume, Filled, Volume, Live, Sorted, Crosses;
    var t := Taker(r.id, SideOf(r), TypeOf(r), r.price);
    var c := Clock.Tick(wall, s.clock);
    var opp := t.side.Opposite();
    var m := Match(wall, t, r.quantity, s.book.On(opp), c);
    Later(s.book, s.clock.last, c.last, s.sessions, s.sessions);
    MatchKeeps(wall, t, r.quantity, s.book, c, c.last, s.sessions);
    SideLive(s.book, opp, c.last, s.sessions);
    SideLive(s.book.With(opp, m.side), opp, c.last, s.sessions);
    MatchFacts(wall, t, r.quantity, s.book.On(opp), c);
    VolumeNonNegative(t, s.book.On(opp));
    OutGrows(s.out, s.clock.last, session, Ack(r.id, c.last), c.last);
    FillsKeepOut(s.out + [(session, Ack(r.id, c.last))], c.last, session, r.id, m.hits, m.clock.last);
    AddressedCons(s.out, session, Ack(r.id, c.last), FillMessages(r.id, m.hits));
    if m.left > 0 && t.typ.Limit? {
      NothingCrosses(t, m.side);
    }
  }

  /** Matching brings no new ids or entry times onto the side. */
  lemma {:induction false} MatchMembers(wall: Clock.Wall, t: Taker, left: int, opp: seq<Entry>, c: Clock.State)
    ensures forall e :: e in Match(wall, t, left, opp, c).side ==>
              exists f :: f in opp && f.id == e.id && f.enteredAt == e.enteredAt && f.session == e.session
    decreases |opp|
  {
    if left > 0 && opp != [] && Crosses(t, opp[0].price) {
      assert opp[0] in opp && forall e :: e in opp[1..] ==> e in opp;
      var qty, c' := Min(left, opp[0].remaining), Clock.Tick(wall, c);
      if qty == opp[0].remaining {
        MatchMembers(wall, t, left - qty, opp[1..], c');
      }
    }
  }

  lemma AcceptKeeps(wall: Clock.Wall, s: System, session: string, r: Request)
    requires SysOk(s) && session in s.sessions && Validate(r).None? && s.book.Lookup(r.id).None?
    ensures SysOk(Accept(wall, s, session, r))
  {
    var t := Taker(r.id, SideOf(r), TypeOf(r), r.price);
    var c := Clock.Tick(wall, s.clock);
    var opp := t.side.Opposite();
    AcceptedMatch(wall, s, session, r);
    MatchMembers(wall, t, r.quantity, s.book.On(opp), c);
    LookupMembers(s.book, r.id);
    EnteredBefore(s.book, s.clock.last, s.sessions);
    hide BookOk, OutOk, Match, Sorted, Crosses, Insert;
    var m := Match(wall, t, r.quantity, s.book.On(opp), c);
    var matched := s.book.With(opp, m.side);
    var out := s.out + Addressed(session, [Ack(r.id, c.last)] + FillMessages(r.id, m.hits));
    IssuedLater(s.sessions, s.clock.last, m.clock.last);
    if m.left > 0 && t.typ.Market? {
      var d := Clock.Tick(wall, m.clock);
      Later(matched, c.last, d.last, s.sessions, s.sessions);
      OutGrows(out, m.clock.last, session, Reject(r.id, NoLiquidity, d.last), d.last);
      IssuedLater(s.sessions, m.clock.last, d.last);
    } else if m.left > 0 {
      var e := Entry(r.id, t.side, r.price, r.quantity, m.left, c.last, session);
      InsertKeeps(matched, e, c.last, s.sessions);
      Later(matched.With(t.side, Insert(t.side, matched.On(t.side), e)), c.last, m.clock.last, s.sessions, s.sessions);
    } else {
      Later(matched, c.last, m.clock.last, s.sessions, s.sessions);
    }
  }

  lemma EnteredBefore(b: Book, last: int, sessions: set<string>)
    requires BookOk(b, last, sessions)
    ensures forall x :: On(b, x) ==> 0 < x.enteredAt <= last
  {
  }

  lemma CancelKeeps(wall: Clock.Wall, s: System, session: string, id: string)
    requires SysOk(s)
    ensures SysOk(HandleCancel(wall, s, session, id))
  {
    hide BookOk, OutOk;
    var found := s.book.Lookup(id);
    if found.None? {
      RefuseKeeps(wall, s, session, id, UnknownOrder);
    } else if found.value.session != session {
      RefuseKeeps(wall, s, session, id, Unauthorized);
    } else {
      var c := Clock.Tick(wall, s.clock);
      WithoutKeeps(s.book, {id}, s.clock.last, s.sessions);
      Later(s.book.Without({id}), s.clock.last, c.last, s.sessions, s.sessions);
      OutGrows(s.out, s.clock.last, session, CancelAck(id, c.last), c.last);
      IssuedLater(s.sessions, s.clock.last, c.last);
    }
  }

  /** Disconnecting removes exactly the session's orders and leaves all others as they were. */
  lemma DisconnectRemovesExactly(s: System, session: string)
    requires SysOk(s)
    ensures var r := HandleDisconnect(s, session).book;
            && (forall e :: e in r.bids <==> e in s.book.bids && e.session != session)
            && (forall e :: e in r.asks <==> e in s.book.asks && e.session != session)
  {
    var b, ids := s.book, s.book.IdsOf(session);
    DropMembers(b.bids, ids);
    DropMembers(b.asks, ids);
    hide Drop, SideOk, Uncrossed;
    forall e | On(b, e)
      ensures e.id in ids <==> e.session == session
    {
      if e.id in ids {
        var f :| f in b.bids + b.asks && f.session == session && f.id == e.id;
        assert On(b, f);
      }
      if e.session == session {
        assert e in b.bids + b.asks;
      }
    }
  }

  lemma DisconnectKeeps(s: System, session: string)
    requires SysOk(s)
    ensures SysOk(HandleDisconnect(s, session))
  {
    WithoutKeeps(s.book, s.book.IdsOf(session), s.clock.last, s.sessions);
    DisconnectRemovesExactly(s, session);
    hide Sorted, Distinct, Uncrossed, OutOk, Drop, Issued;
  }

  lemma ConnectKeeps(wall: Clock.Wall, s: System, addr: string)
    requires SysOk(s)
    ensures SysOk(HandleConnect(wall, s, addr))
  {
  }

  lemma StepKeeps(wall: Clock.Wall, s: System, cmd: Command)
    requires SysOk(s)
    ensures SysOk(Step(wall, s, cmd))
  {
    hide SysOk, Accept, Refuse, HandleCancel, HandleDisconnect, HandleConnect;
    match cmd
    case Connect(addr) => ConnectKeeps(wall, s, addr);
    case Disconnect(session) => DisconnectKeeps(s, session);
    case Deliver(session, r) =>
      if session in s.sessions {
        if r.kind == "order" {
          var bad := Validate(r);
          if bad.Some? {
            RefuseKeeps(wall, s, session, r.id, bad.value);
          } else if s.book.Lookup(r.id).Some? {
            RefuseKeeps(wall, s, session, r.id, DuplicateOrderId);
          } else {
            AcceptKeeps(wall, s, session, r);
          }
        } else if r.kind == "cancel" {
          CancelKeeps(wall, s, session, r.id);
        } else {
          RefuseKeeps(wall, s, session, r.id, UnknownType);
        }
      }
  }

  /** The invariant holds after every run. */
  lemma {:induction false} RunKeeps(wall: Clock.Wall, cmds: seq<Command>)
    ensures SysOk(Run(wall, cmds))
  {
    if cmds != [] {
      RunKeeps(wall, cmds[..|cmds| - 1]);
      StepKeeps(wall, Run(wall, cmds[..|cmds| - 1]), cmds[|cmds| - 1]);
    }
  }

  // ---------- What becomes of a request ----------

  lemma LookupIs(b: Book, e: Entry)
    requires Distinct(b) && On(b, e)
    ensures b.Lookup(e.id) == Some(e)
  {
  }

  lemma NotOnSide(b: Book, side: Side, l: seq<Entry>, id: string)
    requires forall x :: x in l ==> x.id != id
    requires forall x :: x in b.On(side.Opposite()) ==> x.id != id
    ensures b.With(side, l).Lookup(id).None?
  {
  }

  /** The fate of an accepted order is decided by the crossing volume of the whole opposite
      side: enough of it, and the order is filled and leaves no trace; too little, and a
      limit order rests with exactly the difference while a market order is rejected and
      does not rest. */
  lemma OrderFate(wall: Clock.Wall, s: System, session: string, r: Request)
    requires SysOk(s) && session in s.sessions && Validate(r).None? && s.book.Lookup(r.id).None?
    ensures var t := Taker(r.id, SideOf(r), TypeOf(r), r.price);
            var available := CrossingVolume(t, s.book.On(t.side.Opposite()));
            var s' := Accept(wall, s, session, r);
            && |s'.out| > |s.out| && s'.out[|s.out|] == (session, Ack(r.id, Clock.Tick(wall, s.clock).last))
            && (available >= r.quantity ==> s'.book.Lookup(r.id).None? && !s'.out[|s'.out| - 1].1.Reject?)
            && (available < r.quantity && t.typ.Limit? ==>
                  s'.book.Lookup(r.id) == Some(Entry(r.id, t.side, r.price, r.quantity, r.quantity - available,
                                                     Clock.Tick(wall, s.clock).last, session)))
            && (available < r.quantity && t.typ.Market? ==>
                  && s'.book.Lookup(r.id).None?
                  && s'.out[|s'.out| - 1] == (session, Reject(r.id, NoLiquidity, s'.clock.last)))
  {
    hide BookOk, Match, Crosses, Find, CrossingVolume, Insert, HitsPrefix, LeavesRest, Volume, Live, Sorted, Filled,
        Accept, OutOk, Issued;
    var t := Taker(r.id, SideOf(r), TypeOf(r), r.price);
    var opp := t.side.Opposite();
    var c := Clock.Tick(wall, s.clock);
    var m := Match(wall, t, r.quantity, s.book.On(opp), c);
    AcceptValue(wall, s, session, r, m);
    SideLive(s.book, opp, s.clock.last, s.sessions);
    MatchFacts(wall, t, r.quantity, s.book.On(opp), c);
    MatchMembers(wall, t, r.quantity, s.book.On(opp), c);
    LookupMembers(s.book, r.id);
    NotOnSide(s.book, opp, m.side, r.id);
    AcceptKeeps(wall, s, session, r);
    var e := Entry(r.id, t.side, r.price, r.quantity, m.left, c.last, session);
    var matched := s.book.With(opp, m.side);
    if m.left > 0 && t.typ.Limit? {
      InsertMembers(t.side, matched.On(t.side), e);
      BookDistinct(Accept(wall, s, session, r).book, Accept(wall, s, session, r).clock.last, s.sessions);
      LookupIs(matched.With(t.side, Insert(t.side, matched.On(t.side), e)), e);
    }
  }

  lemma BookDistinct(b: Book, last: int, sessions: set<string>)
    requires BookOk(b, last, sessions)
    ensures Distinct(b)
  {
  }

  /** An order request that names no valid order at all. */
  ghost predicate Malformed(r: Request) {
    || r.id == "" || |r.id| > 64 || (exists i :: 0 <= i < |r.id| && !IdChar(r.id[i]))
    || r.side !in {"buy", "sell"} || r.typ !in {"limit", "market"}
  }

  /** The first answer to an order request: each reason exactly for its cause, an ack in all
      other cases; a refused order is answered once and changes nothing on the book. */
  lemma OrderAnswer(wall: Clock.Wall, s: System, session: string, r: Request)
    ensures var s' := HandleOrder(wall, s, session, r);
            var now := Clock.Tick(wall, s.clock).last;
            var free := forall e :: On(s.book, e) ==> e.id != r.id;
            var badPrice := r.typ == "limit" && r.price <= 0.0;
            && |s'.out| > |s.out| && s.out <= s'.out
            && s'.out[|s.out|] == (session,
                 if Malformed(r) then Reject(r.id, InvalidOrder, now)
                 else if r.quantity <= 0 then Reject(r.id, InvalidQuantity, now)
                 else if badPrice then Reject(r.id, InvalidPrice, now)
                 else if !free then Reject(r.id, DuplicateOrderId, now)
                 else Ack(r.id, now))
            && (s'.out[|s.out|].1.Reject? ==> s'.book == s.book && |s'.out| == |s.out| + 1)
  {
    hide Match, Insert, Find;
    LookupMembers(s.book, r.id);
  }

  /** A cancel removes exactly the named order when the session owns it, and otherwise
      changes nothing but says why. */
  lemma CancelFate(wall: Clock.Wall, s: System, session: string, id: string)
    requires SysOk(s)
    ensures var r := HandleCancel(wall, s, session, id);
            var now := r.clock.last;
            && s.clock.last < now && |r.out| == |s.out| + 1 && s.out <= r.out
            && ((exists e :: On(s.book, e) && e.id == id && e.session == session) ==>
                  && r.out[|s.out|] == (session, CancelAck(id, now))
                  && forall x :: On(r.book, x) <==> On(s.book, x) && x.id != id)
            && ((exists e :: On(s.book, e) && e.id == id && e.session != session) ==>
                  r.book == s.book && r.out[|s.out|] == (session, Reject(id, Unauthorized, now)))
            && ((forall e :: On(s.book, e) ==> e.id != id) ==>
                  r.book == s.book && r.out[|s.out|] == (session, Reject(id, UnknownOrder, now)))
  {
    LookupMembers(s.book, id);
    BookDistinct(s.book, s.clock.last, s.sessions);
    DropMembers(s.book.bids, {id});
    DropMembers(s.book.asks, {id});
    hide BookOk, Find, Drop, Removals;
  }

  // ---------- Sessions ----------

  lemma SessionIdUnique(a: string, s: nat, b: string, t: nat)
    requires SessionId(a, s) == SessionId(b, t)
    ensures a == b && s == t
  {
    Decimal.SplitAtLastNonDigit(a, '/', Decimal.Render(s), b, '/', Decimal.Render(t));
    Decimal.ParseRender(s);
    Decimal.ParseRender(t);
  }

  lemma SessionIdFormat()
    ensures SessionId("10.0.0.7:5000", 42) == "10.0.0.7:5000/42"
  {
    assert Decimal.Render(42) == "42";
  }

  /** A session id stamped after all earlier ones is new. */
  lemma NewSession(open: set<string>, last: nat, addr: string, now: nat)
    requires last < now && forall x :: x in open ==> Issued(x, last)
    ensures SessionId(addr, now) !in open && forall x :: x in open + {SessionId(addr, now)} ==> Issued(x, now)
  {
    var id := SessionId(addr, now);
    if id in open {
      var a: string, ts: nat :| ts <= last && id == SessionId(a, ts);
      SessionIdUnique(addr, now, a, ts);
    }
    assert Issued(id, now);
    IssuedLater(open, last, now);
  }

  lemma StepAdvances(wall: Clock.Wall, s: System, cmd: Command)
    ensures s.clock.last <= Step(wall, s, cmd).clock.last
  {
    if cmd.Deliver? && cmd.session in s.sessions && cmd.request.kind == "order" {
      var r := cmd.request;
      var t := Taker(r.id, SideOf(r), TypeOf(r), r.price);
      MatchStamped(wall, t, r.quantity, s.book.On(t.side.Opposite()), Clock.Tick(wall, s.clock));
    }
  }

  lemma {:induction false} RunAdvances(wall: Clock.Wall, cmds: seq<Command>, k: nat)
    requires k <= |cmds|
    ensures Run(wall, cmds[..k]).clock.last <= Run(wall, cmds).clock.last
  {
    if k == |cmds| {
      assert cmds[..k] == cmds;
    } else {
      var front := cmds[..|cmds| - 1];
      RunAdvances(wall, front, k);
      assert front[..k] == cmds[..k];
      StepAdvances(wall, Run(wall, front), cmds[|cmds| - 1]);
    }
  }

  /** What each command does to the open sessions, and that nobody else is answered. */
  lemma SessionsStep(wall: Clock.Wall, s: System, cmd: Command)
    ensures var t := Step(wall, s, cmd);
            && t.sessions == (match cmd
                              case Connect(addr) => s.sessions + {SessionId(addr, t.clock.last)}
                              case Disconnect(x) => s.sessions - {x}
                              case Deliver(_, _) => s.sessions)
            && s.out <= t.out
            && (forall i :: |s.out| <= i < |t.out| ==> cmd.Deliver? && t.out[i].0 == cmd.session)
            && (cmd.Deliver? && cmd.session !in s.sessions ==> t == s)
            && (cmd.Deliver? && cmd.session in s.sessions ==> |t.out| > |s.out|)
            && (cmd.Connect? ==> s.clock.last < t.clock.last && t.book == s.book)
  {
    hide Match, Insert, Find, Drop, Removals, Validate, SessionId;
  }

  /** A request of an unknown kind from an open session is refused and changes nothing. */
  lemma UnknownKind(wall: Clock.Wall, s: System, session: string, r: Request)
    requires session in s.sessions && r.kind != "order" && r.kind != "cancel"
    ensures var t := Step(wall, s, Deliver(session, r));
            && t.book == s.book && t.log == s.log && s.clock.last < t.clock.last
            && t.out == s.out + [(session, Reject(r.id, UnknownType, t.clock.last))]
  {
  }

  /** A session that was closed stays closed and is told nothing any more. */
  lemma {:induction false} ClosedForGood(wall: Clock.Wall, cmds: seq<Command>, k: nat)
    requires k < |cmds| && cmds[k].Disconnect? && cmds[k].session in Run(wall, cmds[..k]).sessions
    ensures var s, x := Run(wall, cmds), cmds[k].session;
            && x !in s.sessions && |Run(wall, cmds[..k]).out| <= |s.out|
            && forall i :: |Run(wall, cmds[..k]).out| <= i < |s.out| ==> s.out[i].0 != x
    decreases |cmds|
  {
    var front, last := cmds[..|cmds| - 1], cmds[|cmds| - 1];
    var s := Run(wall, front);
    if k == |cmds| - 1 {
      assert cmds[..k] == front;
    } else {
      assert front[..k] == cmds[..k];
      ClosedForGood(wall, front, k);
      if last.Connect? {
        SessionIdsNeverRecur(wall, front, last.addr, k);
      }
    }
    SessionsStep(wall, s, last);
    hide Step, SessionId;
  }

  /** A new connection never gets an id that any earlier session had, open or closed. */
  lemma SessionIdsNeverRecur(wall: Clock.Wall, cmds: seq<Command>, addr: string, k: nat)
    requires k <= |cmds|
    ensures var s := Run(wall, cmds);
            SessionId(addr, Clock.Tick(wall, s.clock).last) !in Run(wall, cmds[..k]).sessions
  {
    var s, e := Run(wall, cmds), Run(wall, cmds[..k]);
    var now := Clock.Tick(wall, s.clock).last;
    var id := SessionId(addr, now);
    RunAdvances(wall, cmds, k);
    RunKeeps(wall, cmds[..k]);
    if id in e.sessions {
      var a: string, ts: nat :| ts <= e.clock.last && id == SessionId(a, ts);
      SessionIdUnique(addr, now, a, ts);
    }
  }

  /** Over every run: bids stand in order of falling price, asks of rising price, and each
      price in order of entry; best bid below best ask, only live orders of open sessions
      rest, ids are unique, and message stamps strictly increase. */
  lemma EveryRunIsSound(wall: Clock.Wall, cmds: seq<Command>)
    ensures var s := Run(wall, cmds);
            && Sorted(Buy, s.book.bids) && Sorted(Sell, s.book.asks)
            && (forall i, j :: 0 <= i < j < |s.book.bids| ==>
                  var a, b := s.book.bids[i], s.book.bids[j];
                  a.price > b.price || (a.price == b.price && a.enteredAt < b.enteredAt))
            && (forall i, j :: 0 <= i < j < |s.book.asks| ==>
                  var a, b := s.book.asks[i], s.book.asks[j];
                  a.price < b.price || (a.price == b.price && a.enteredAt < b.enteredAt))
            && (s.book.bids != [] && s.book.asks != [] ==> s.book.bids[0].price < s.book.asks[0].price)
            && (forall e :: On(s.book, e) ==> 0 < e.remaining <= e.quantity && e.price > 0.0 && e.session in s.sessions)
            && (forall e, f :: On(s.book, e) && On(s.book, f) && e.id == f.id ==> e == f)
            && (forall i, j :: 0 <= i < j < |s.out| ==> s.out[i].1.ts < s.out[j].1.ts)
  {
    RunKeeps(wall, cmds);
    var s := Run(wall, cmds);
    SortedMeans(Buy, s.book.bids);
    SortedMeans(Sell, s.book.asks);
    assert s.book.bids != [] ==> s.book.bids[0] in s.book.bids;
    assert s.book.asks != [] ==> s.book.asks[0] in s.book.asks;
    hide Run;
  }
}
