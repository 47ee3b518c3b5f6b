/** The engine with its requests interleaved call by call. Handlers of different sessions run
    concurrently: an order holds the book's lock through its match, takes one stamp at a
    time, and other sessions may take stamps for their rejects and cancel acks in between.
    Every such run moves the book as if each locked section were one step. */
module Interleaving {
  import opened Orders
  import opened Options
  import opened ListBook
  import opened BookInvariants
  import Clock

  /** An order in its locked section: the book it found, and its match so far. */
  datatype Section = Section(session: string, r: Request, start: Book, entered: nat, hits: seq<Hit>, left: int) {
    function Side(): Side { SideOf(r) }

    function Incoming(): Taker { Taker(r.id, SideOf(r), TypeOf(r), r.price) }

    /** The messages collected for sending. */
    function Collected(): seq<Message> { [Ack(r.id, entered)] + FillMessages(r.id, hits) }
  }

  /** Where a session's handler is: reading, about to stamp the one reply it has chosen, in
      the locked section, or putting stamped replies on its send channel. */
  datatype Task = Reading | Stamping(reply: Message) | Locked | Sending(replies: seq<Message>)

  datatype State = State(
    book: Book, last: nat, lock: Option<Section>, tasks: map<string, Task>, out: seq<(string, Message)>)

  const START := State(Book([], []), 0, None, map[], [])

  /** Every action that calls `now` carries its wall-clock reading. */
  datatype Action =
    | Open(addr: string, reading: int)
    | Ask(session: string, r: Request, reading: int)
    | Trade(reading: int)                   // one round of the matching loop
    | Finish(reading: int)                  // rest or reject what is left, then unlock
    | Stamp(session: string, reading: int)  // the stamp of a reply chosen outside the lock
    | Send(session: string)                 // one reply into the send channel
    | Close(session: string)

  function WithStamp(m: Message, ts: int): Message {
    match m
    case Ack(id, _) => Ack(id, ts)
    case Fill(id, qty, price, remaining, _) => Fill(id, qty, price, remaining, ts)
    case CancelAck(id, _) => CancelAck(id, ts)
    case Reject(id, reason, _) => Reject(id, reason, ts)
  }

  function With(s: State, x: string, t: Task): State { s.(tasks := s.tasks[x := t]) }

  predicate CanTrade(book: Book, h: Section) {
    var opp := book.On(h.Side().Opposite());
    h.left > 0 && opp != [] && Crosses(h.Incoming(), opp[0].price)
  }

  function OrderNext(s: State, x: string, r: Request, reading: int): State {
    var bad := Validate(r);
    if bad.Some? then With(s, x, Stamping(Reject(r.id, bad.value, 0)))
    else if s.lock.Some? then s
    else if s.book.Lookup(r.id).Some? then With(s, x, Stamping(Reject(r.id, DuplicateOrderId, 0)))
    else
      var now := Clock.After(reading, s.last);
      With(s, x, Locked).(last := now, lock := Some(Section(x, r, s.book, now, [], r.quantity)))
  }

  function CancelNext(s: State, x: string, id: string): State {
    var found := s.book.Lookup(id);
    if s.lock.Some? then s
    else if found.None? then With(s, x, Stamping(Reject(id, UnknownOrder, 0)))
    else if found.value.session != x then With(s, x, Stamping(Reject(id, Unauthorized, 0)))
    else With(s, x, Stamping(CancelAck(id, 0))).(book := s.book.Without({id}))
  }

  function TradeNext(s: State, h: Section, reading: int): State
    requires CanTrade(s.book, h)
  {
    var side := h.Side().Opposite();
    var opp, now := s.book.On(side), Clock.After(reading, s.last);
    var qty := Min(h.left, opp[0].remaining);
    var hit := Hit(opp[0], qty, h.left - qty, now);
    s.(book := s.book.With(side, AfterTrade(h.left, opp)), last := now,
       lock := Some(h.(hits := h.hits + [hit], left := h.left - qty)))
  }

  function FinishNext(s: State, h: Section, reading: int): State {
    var freed := s.(lock := None);
    if h.left > 0 && TypeOf(h.r).Market? then
      var now := Clock.After(reading, s.last);
      With(freed, h.session, Sending(h.Collected() + [Reject(h.r.id, NoLiquidity, now)])).(last := now)
    else if h.left > 0 then
      var e := Entry(h.r.id, h.Side(), h.r.price, h.r.quantity, h.left, h.entered, h.session);
      With(freed, h.session, Sending(h.Collected())).(
        book := s.book.With(h.Side(), Insert(h.Side(), s.book.On(h.Side()), e)))
    else With(freed, h.session, Sending(h.Collected()))
  }

  /** One step; a step whose actor is elsewhere, or waits for the lock, changes nothing. */
  function Next(s: State, a: Action): State {
    match a
    case Open(addr, reading) =>
      var now := Clock.After(reading, s.last);
      With(s, SessionId(addr, now), Reading).(last := now)
    case Ask(x, r, reading) =>
      if x !in s.tasks || !s.tasks[x].Reading? then s
      else if r.kind == "order" then OrderNext(s, x, r, reading)
      else if r.kind == "cancel" then CancelNext(s, x, r.id)
      else With(s, x, Stamping(Reject(r.id, UnknownType, 0)))
    case Trade(reading) =>
      if s.lock.None? || !CanTrade(s.book, s.lock.value) then s else TradeNext(s, s.lock.value, reading)
    case Finish(reading) =>
      if s.lock.None? || CanTrade(s.book, s.lock.value) then s else FinishNext(s, s.lock.value, reading)
    case Stamp(x, reading) =>
      if x !in s.tasks || !s.tasks[x].Stamping? then s
      else
        var now := Clock.After(reading, s.last);
        With(s, x, Sending([WithStamp(s.tasks[x].reply, now)])).(last := now)
    case Send(x) =>
      if x !in s.tasks || !s.tasks[x].Sending? then s
      else if s.tasks[x].replies == [] then With(s, x, Reading)
      else With(s, x, Sending(s.tasks[x].replies[1..])).(out := s.out + [(x, s.tasks[x].replies[0])])
    case Close(x) =>
      if x !in s.tasks || !s.tasks[x].Reading? || s.lock.Some? then s
      else s.(book := s.book.Without(s.book.IdsOf(x)), tasks := s.tasks - {x})
  }

  function Run(actions: seq<Action>): State {
    if actions == [] then START else Next(Run(actions[..|actions| - 1]), actions[|actions| - 1])
  }

  // ---------- A locked section is one step of the list engine ----------

  /** Trading hits one after the other takes (left, opp) to (left', opp'). */
  ghost predicate Follows(t: Taker, left: int, opp: seq<Entry>, hits: seq<Hit>, left': int, opp': seq<Entry>)
    decreases |hits|
  {
    if hits == [] then left' == left && opp' == opp
    else
      && left > 0 && opp != [] && Crosses(t, opp[0].price)
      && var qty := Min(left, opp[0].remaining);
         && hits[0] == Hit(opp[0], qty, left - qty, hits[0].ts)
         && Follows(t, left - qty, AfterTrade(left, opp), hits[1..], left', opp')
  }

  lemma {:induction false} FollowsOn(
    t: Taker, left: int, opp: seq<Entry>, hits: seq<Hit>, left': int, opp': seq<Entry>, ts: int)
    requires Follows(t, left, opp, hits, left', opp')
    requires left' > 0 && opp' != [] && Crosses(t, opp'[0].price)
    ensures var qty := Min(left', opp'[0].remaining);
            Follows(t, left, opp, hits + [Hit(opp'[0], qty, left' - qty, ts)], left' - qty, AfterTrade(left', opp'))
    decreases |hits|
  {
    hide AfterTrade, Crosses;
    var q := Min(left', opp'[0].remaining);
    var more := hits + [Hit(opp'[0], q, left' - q, ts)];
    if hits == [] {
      assert more[1..] == [];
    } else {
      var qty := Min(left, opp[0].remaining);
      FollowsOn(t, left - qty, AfterTrade(left, opp), hits[1..], left', opp', ts);
      assert more[1..] == hits[1..] + [Hit(opp'[0], q, left' - q, ts)];
    }
  }

  /** The stamps come in order and the clock readings are these very stamps. */
  ghost predicate Reads(wall: Clock.Wall, c: Clock.State, hits: seq<Hit>) {
    && (forall i :: 0 <= i < |hits| ==> wall(c.count + i) == hits[i].ts && c.last < hits[i].ts)
    && (forall i, j :: 0 <= i < j < |hits| ==> hits[i].ts < hits[j].ts)
  }

  function LastStamp(entered: int, hits: seq<Hit>): int {
    if hits == [] then entered else hits[|hits| - 1].ts
  }

  lemma ReadsRest(wall: Clock.Wall, c: Clock.State, hits: seq<Hit>)
    requires Reads(wall, c, hits) && hits != []
    ensures Clock.Tick(wall, c) == Clock.State(hits[0].ts, c.count + 1) && Reads(wall, Clock.Tick(wall, c), hits[1..])
  {
    assert wall(c.count + 0) == hits[0].ts;
    forall i | 0 <= i < |hits| - 1
      ensures wall(c.count + 1 + i) == hits[1..][i].ts
    {
      assert wall(c.count + (i + 1)) == hits[i + 1].ts;
    }
  }

  /** A finished series of trades is the match of the list engine under those readings. */
  lemma {:induction false} FollowsMatch(
    wall: Clock.Wall, t: Taker, left: int, opp: seq<Entry>, hits: seq<Hit>, left': int, opp': seq<Entry>,
    c: Clock.State)
    requires Follows(t, left, opp, hits, left', opp') && Reads(wall, c, hits)
    requires left' <= 0 || opp' == [] || !Crosses(t, opp'[0].price)
    ensures var m := Match(wall, t, left, opp, c);
            && m.hits == hits && m.side == opp' && m.left == left'
            && m.clock.last == LastStamp(c.last, hits) && m.clock.count == c.count + |hits|
    decreases |hits|
  {
    hide Match, ShrinkHead, Crosses, Reads, Clock.Tick;
    if hits == [] {
      MatchStops(wall, t, left, opp, c);
    } else {
      MatchStep(wall, t, left, opp, c);
      ReadsRest(wall, c, hits);
      FollowsMatch(wall, t, left - Min(left, opp[0].remaining), AfterTrade(left, opp), hits[1..], left', opp',
                   Clock.Tick(wall, c));
    }
  }

  // ---------- What every step keeps ----------

  /** The fill stamps rise after the entry stamp and up to the clock. */
  ghost predicate StampsOk(entered: int, hits: seq<Hit>, last: int) {
    && entered <= last
    && (forall i :: 0 <= i < |hits| ==> entered < hits[i].ts <= last)
    && (forall i, j :: 0 <= i < j < |hits| ==> hits[i].ts < hits[j].ts)
  }

  ghost predicate SectionOk(s: State, h: Section) {
    var opp := h.Side().Opposite();
    && h.session in s.tasks && h.r.kind == "order" && Validate(h.r).None?
    && 0 <= h.left <= h.r.quantity && h.entered >= 1
    && s.book == h.start.With(opp, s.book.On(opp)) && h.start.Lookup(h.r.id).None?
    && Follows(h.Incoming(), h.r.quantity, h.start.On(opp), h.hits, h.left, s.book.On(opp))
    && (forall x :: On(s.book, x) ==> x.id != h.r.id && x.enteredAt < h.entered)
    && StampsOk(h.entered, h.hits, s.last)
  }

  ghost predicate Sound(s: State) {
    && BookOk(s.book, s.last, s.tasks.Keys)
    && (forall x :: x in s.tasks ==> Issued(x, s.last))
    && (forall x :: x in s.tasks ==> (s.tasks[x].Locked? <==> s.lock.Some? && s.lock.value.session == x))
    && (s.lock.Some? ==> SectionOk(s, s.lock.value))
  }

  /** The handler moves on; book, lock and sessions stay as they are. */
  lemma TaskSound(s: State, x: string, t: Task, last: nat)
    requires Sound(s) && x in s.tasks && !s.tasks[x].Locked? && !t.Locked? && s.last <= last
    ensures Sound(With(s, x, t).(last := last))
  {
    hide BookOk, Issued, Follows, Validate, On;
    Later(s.book, s.last, last, s.tasks.Keys, s.tasks.Keys);
    IssuedLater(s.tasks.Keys, s.last, last);
    assert s.tasks[x := t].Keys == s.tasks.Keys;
  }

  lemma OpenSound(s: State, addr: string, reading: int)
    requires Sound(s)
    ensures Sound(Next(s, Open(addr, reading)))
  {
    hide BookOk, Issued, Follows, Validate, On, SessionId;
    var now := Clock.After(reading, s.last);
    var id := SessionId(addr, now);
    NewSession(s.tasks.Keys, s.last, addr, now);
    assert s.tasks[id := Reading].Keys == s.tasks.Keys + {id};
    Later(s.book, s.last, now, s.tasks.Keys, s.tasks.Keys + {id});
  }

  /** Between sections the book may change as long as it stays sound. */
  lemma BookSound(s: State, b: Book)
    requires Sound(s) && s.lock.None? && BookOk(b, s.last, s.tasks.Keys)
    ensures Sound(s.(book := b))
  {
    hide BookOk, Issued;
  }

  lemma EnterSound(s: State, x: string, r: Request, reading: int)
    requires Sound(s) && x in s.tasks && s.tasks[x].Reading? && s.lock.None?
    requires r.kind == "order" && Validate(r).None? && s.book.Lookup(r.id).None?
    ensures Sound(OrderNext(s, x, r, reading))
  {
    LookupMembers(s.book, r.id);
    EnteredBefore(s.book, s.last, s.tasks.Keys);
    hide BookOk, Issued, Find, On;
    var now := Clock.After(reading, s.last);
    Later(s.book, s.last, now, s.tasks.Keys, s.tasks.Keys);
    IssuedLater(s.tasks.Keys, s.last, now);
    assert s.tasks[x := Locked].Keys == s.tasks.Keys;
  }

  lemma AskSound(s: State, x: string, r: Request, reading: int)
    requires Sound(s)
    ensures Sound(Next(s, Ask(x, r, reading)))
  {
    hide Sound, BookOk, Validate, Find, Drop;
    if x in s.tasks && s.tasks[x].Reading? {
      forall t: Task | !t.Locked?
        ensures Sound(With(s, x, t))
      {
        TaskSound(s, x, t, s.last);
      }
      if r.kind == "order" {
        if Validate(r).None? && s.lock.None? && s.book.Lookup(r.id).None? {
          EnterSound(s, x, r, reading);
        }
      } else if r.kind == "cancel" && s.lock.None? {
        BookIsOk(s);
        WithoutKeeps(s.book, {r.id}, s.last, s.tasks.Keys);
        BookSound(s, s.book.Without({r.id}));
        TaskSound(s.(book := s.book.Without({r.id})), x, Stamping(CancelAck(r.id, 0)), s.last);
      }
    }
  }

  lemma BookIsOk(s: State)
    requires Sound(s)
    ensures BookOk(s.book, s.last, s.tasks.Keys)
  {
  }

  lemma TradeKeepsBook(b: Book, side: Side, left: int, last: int, sessions: set<string>)
    requires BookOk(b, last, sessions) && b.On(side) != [] && left > 0
    ensures 0 < Min(left, b.On(side)[0].remaining) && BookOk(b.With(side, AfterTrade(left, b.On(side))), last, sessions)
    ensures forall x :: x in AfterTrade(left, b.On(side)) ==>
              exists y :: y in b.On(side) && y.id == x.id && y.enteredAt == x.enteredAt
  {
    hide BookOk;
    var l := b.On(side);
    HeadLive(b, side, last, sessions);
    assert l[0] in l;
    if left < l[0].remaining {
      ShrinkKeeps(b, side, left, last, sessions);
    } else {
      PopKeeps(b, side, last, sessions);
    }
  }

  lemma TradeSound(s: State, reading: int)
    requires Sound(s)
    ensures Sound(Next(s, Trade(reading)))
  {
    hide BookOk, Issued, Follows, Crosses, AfterTrade, Validate;
    if s.lock.Some? && CanTrade(s.book, s.lock.value) {
      var h, now := s.lock.value, Clock.After(reading, s.last);
      var side := h.Side().Opposite();
      var opp := s.book.On(side);
      TradeKeepsBook(s.book, side, h.left, s.last, s.tasks.Keys);
      Later(s.book.With(side, AfterTrade(h.left, opp)), s.last, now, s.tasks.Keys, s.tasks.Keys);
      IssuedLater(s.tasks.Keys, s.last, now);
      FollowsOn(h.Incoming(), h.r.quantity, h.start.On(side), h.hits, h.left, opp, now);
    }
  }

  lemma RestKeepsBook(s: State, h: Section)
    requires Sound(s) && s.lock == Some(h) && !CanTrade(s.book, h) && h.left > 0 && TypeOf(h.r).Limit?
    ensures var e := Entry(h.r.id, h.Side(), h.r.price, h.r.quantity, h.left, h.entered, h.session);
            BookOk(s.book.With(h.Side(), Insert(h.Side(), s.book.On(h.Side()), e)), s.last, s.tasks.Keys)
  {
    hide BookOk, Issued, Follows, Crosses, Insert, ValidId, Sorted;
    var opp := h.Side().Opposite();
    SideLive(s.book, opp, s.last, s.tasks.Keys);
    NothingCrosses(h.Incoming(), s.book.On(opp));
    InsertKeeps(s.book, Entry(h.r.id, h.Side(), h.r.price, h.r.quantity, h.left, h.entered, h.session), s.last,
                s.tasks.Keys);
  }

  lemma ReleaseSound(s: State, h: Section, b: Book, last: nat, replies: seq<Message>)
    requires Sound(s) && s.lock == Some(h) && s.last <= last && BookOk(b, last, s.tasks.Keys)
    ensures Sound(With(s.(lock := None), h.session, Sending(replies)).(book := b, last := last))
  {
    hide BookOk, Issued, Follows, Validate, On, StampsOk;
    IssuedLater(s.tasks.Keys, s.last, last);
    assert s.tasks[h.session := Sending(replies)].Keys == s.tasks.Keys;
  }

  lemma FinishSound(s: State, reading: int)
    requires Sound(s)
    ensures Sound(Next(s, Finish(reading)))
  {
    hide Sound, BookOk, CanTrade, Insert, Section.Collected;
    if s.lock.Some? && !CanTrade(s.book, s.lock.value) {
      var h, now := s.lock.value, Clock.After(reading, s.last);
      BookIsOk(s);
      if h.left > 0 && TypeOf(h.r).Limit? {
        RestKeepsBook(s, h);
      }
      Later(s.book, s.last, now, s.tasks.Keys, s.tasks.Keys);
      var t := Next(s, Finish(reading));
      ReleaseSound(s, h, t.book, t.last, t.tasks[h.session].replies);
    }
  }

  lemma CloseSound(s: State, x: string)
    requires Sound(s)
    ensures Sound(Next(s, Close(x)))
  {
    hide BookOk, Issued, Drop;
    if x in s.tasks && s.tasks[x].Reading? && s.lock.None? {
      DisconnectKeeps(System(s.book, Clock.State(s.last, 0), s.tasks.Keys, [], []), x);
      assert (s.tasks - {x}).Keys == s.tasks.Keys - {x};
    }
  }

  lemma NextSound(s: State, a: Action)
    requires Sound(s)
    ensures Sound(Next(s, a))
  {
    hide Sound, OrderNext, CancelNext, TradeNext, FinishNext;
    match a
    case Open(addr, reading) => OpenSound(s, addr, reading);
    case Ask(x, r, reading) => AskSound(s, x, r, reading);
    case Trade(reading) => TradeSound(s, reading);
    case Finish(reading) => FinishSound(s, reading);
    case Close(x) => CloseSound(s, x);
    case Stamp(x, reading) =>
      if x in s.tasks && s.tasks[x].Stamping? {
        var now := Clock.After(reading, s.last);
        TaskSound(s, x, Sending([WithStamp(s.tasks[x].reply, now)]), now);
      }
    case Send(x) => SendSound(s, x);
  }

  lemma SendSound(s: State, x: string)
    requires Sound(s)
    ensures Sound(Next(s, Send(x)))
  {
    hide Sound;
    if x in s.tasks && s.tasks[x].Sending? {
      var t := Next(s, Send(x));
      TaskSound(s, x, t.tasks[x], s.last);
      OutSound(With(s, x, t.tasks[x]), t.out);
    }
  }

  lemma OutSound(s: State, out: seq<(string, Message)>)
    requires Sound(s)
    ensures Sound(s.(out := out))
  {
    hide BookOk, Issued, Follows, Validate, On, StampsOk;
  }

  lemma {:induction false} RunSound(actions: seq<Action>)
    ensures Sound(Run(actions))
  {
    if actions != [] {
      RunSound(actions[..|actions| - 1]);
      NextSound(Run(actions[..|actions| - 1]), actions[|actions| - 1]);
    }
  }

  // ---------- Linearization ----------

  /** The book without the unfinished section. */
  function Settled(s: State): Book { if s.lock.Some? then s.lock.value.start else s.book }

  /** The request that takes effect in this step, as one command of the list engine. */
  function Commit(s: State, a: Action): Option<Command> {
    match a
    case Ask(x, r, _) =>
      if x !in s.tasks || !s.tasks[x].Reading? then None
      else if r.kind == "order" && Validate(r).None? && (s.lock.Some? || s.book.Lookup(r.id).None?) then None
      else if r.kind == "cancel" && s.lock.Some? then None
      else Some(Deliver(x, r))
    case Finish(_) =>
      if s.lock.None? || CanTrade(s.book, s.lock.value) then None
      else Some(Deliver(s.lock.value.session, s.lock.value.r))
    case Close(x) =>
      if x !in s.tasks || !s.tasks[x].Reading? || s.lock.Some? then None else Some(Disconnect(x))
    case _ => None
  }

  /** The list engine with this book, about to take the command's first stamp. */
  function Base(s: State, b: Book): System {
    System(b, Clock.State(if s.lock.Some? && s.lock.value.entered > 0 then s.lock.value.entered - 1 else s.last, 0),
           s.tasks.Keys, [], [])
  }

  /** The readings that give the section its stamps; the last is for a closing reject. */
  function Readings(s: State, closing: int): Clock.Wall {
    (i: nat) =>
      if s.lock.None? then closing
      else
        var h := s.lock.value;
        if i == 0 then h.entered else if i <= |h.hits| then h.hits[i - 1].ts else closing
  }

  /** The effect of the command on the list engine. */
  function Effect(s: State, a: Action, b: Book): System
    requires Commit(s, a).Some?
  {
    Step(Readings(s, Next(s, a).last), Base(s, b), Commit(s, a).value)
  }

  lemma SectionReads(s: State, h: Section, closing: int)
    requires Sound(s) && s.lock == Some(h)
    ensures Clock.Tick(Readings(s, closing), Clock.State(h.entered - 1, 0)) == Clock.State(h.entered, 1)
    ensures Reads(Readings(s, closing), Clock.State(h.entered, 1), h.hits)
    ensures LastStamp(h.entered, h.hits) <= s.last
  {
    hide BookOk, Issued, Follows, Validate, On, Find;
  }

  lemma SectionMatch(s: State, h: Section, closing: int)
    requires Sound(s) && s.lock == Some(h) && !CanTrade(s.book, h)
    ensures var opp := h.Side().Opposite();
            var c := Clock.State(h.entered, 1);
            var m := Match(Readings(s, closing), h.Incoming(), h.r.quantity, h.start.On(opp), c);
            && m.hits == h.hits && m.left == h.left && s.book == h.start.With(opp, m.side)
            && m.clock.last <= s.last && m.clock.count == 1 + |h.hits|
  {
    hide BookOk, Issued, Validate, On, Find, Match, Crosses, Reads, Readings, Follows;
    var opp := h.Side().Opposite();
    SectionReads(s, h, closing);
    FollowsMatch(Readings(s, closing), h.Incoming(), h.r.quantity, h.start.On(opp), h.hits, h.left, s.book.On(opp),
                 Clock.State(h.entered, 1));
  }

  lemma EffectIsAccept(s: State, reading: int)
    requires Sound(s) && s.lock.Some? && !CanTrade(s.book, s.lock.value)
    ensures var h := s.lock.value;
            && h.entered >= 1 && h.session in s.tasks
            && Effect(s, Finish(reading), h.start)
               == Accept(Readings(s, Next(s, Finish(reading)).last),
                         System(h.start, Clock.State(h.entered - 1, 0), s.tasks.Keys, [], []), h.session, h.r)
  {
    hide BookOk, Issued, Follows, Validate, On, Find, Accept, CanTrade, StampsOk, Readings;
  }

  /** A finished section does to the book, and tells its client, exactly what the list engine
      does in one step on the book the section found, under readings that give its stamps. */
  lemma FinishIsStep(s: State, reading: int)
    requires Sound(s) && s.lock.Some? && !CanTrade(s.book, s.lock.value)
    ensures var h, t, e := s.lock.value, Next(s, Finish(reading)), Effect(s, Finish(reading), Settled(s));
            && e.book == t.book && h.session in t.tasks && t.tasks[h.session].Sending?
            && e.out == Addressed(h.session, t.tasks[h.session].replies)
  {
    hide Sound, Match, Insert, Readings, CanTrade, Effect, Accept, Reads, LastStamp;
    var h, t := s.lock.value, Next(s, Finish(reading));
    EffectIsAccept(s, reading);
    SectionReads(s, h, t.last);
    SectionMatch(s, h, t.last);
    ClosingReading(s, h, t.last);
    var base := System(h.start, Clock.State(h.entered - 1, 0), s.tasks.Keys, [], []);
    var m := Match(Readings(s, t.last), h.Incoming(), h.r.quantity, h.start.On(h.Side().Opposite()),
                   Clock.State(h.entered, 1));
    AcceptValue(Readings(s, t.last), base, h.session, h.r, m);
  }

  lemma ClosingReading(s: State, h: Section, closing: int)
    requires s.lock == Some(h)
    ensures Readings(s, closing)(1 + |h.hits|) == closing
  {
  }

  /** A request answered without entering the section has the effect and the answer of one
      step of the list engine; its stamp is taken later. */
  lemma AskIsStep(s: State, x: string, r: Request, reading: int)
    requires Sound(s) && Commit(s, Ask(x, r, reading)).Some?
    ensures var t, e := Next(s, Ask(x, r, reading)), Effect(s, Ask(x, r, reading), Settled(s));
            && e.book == Settled(t) && x in t.tasks && t.tasks[x].Stamping?
            && |e.out| == 1 && e.out[0] == (x, WithStamp(t.tasks[x].reply, e.out[0].1.ts))
  {
    hide BookOk, Issued, Follows, Validate, On, Find, Drop, Accept, CanTrade, StampsOk, Readings;
  }

  lemma CommitIsStep(s: State, a: Action)
    requires Sound(s)
    ensures Settled(Next(s, a)) == if Commit(s, a).Some? then Effect(s, a, Settled(s)).book else Settled(s)
  {
    match a
    case Finish(reading) =>
      hide Sound, Effect, CanTrade, Insert;
      if Commit(s, a).Some? {
        FinishIsStep(s, reading);
      }
    case Ask(x, r, reading) =>
      if Commit(s, a).Some? {
        hide Effect, Sound;
        AskIsStep(s, x, r, reading);
      } else {
        hide BookOk, Issued, Follows, Validate, Find, Drop;
      }
    case _ => hide BookOk, Issued, Follows, Validate, Find, Drop, AfterTrade, CanTrade, Readings;
  }

  /** The book of the list engine after the commands in the order they took effect. Each
      command runs on the book its predecessors left, with the clock and the open sessions
      that the interleaved run has when the command takes effect. */
  function Atomic(actions: seq<Action>): Book {
    if actions == [] then Book([], [])
    else
      var front, a := actions[..|actions| - 1], actions[|actions| - 1];
      if Commit(Run(front), a).Some? then Effect(Run(front), a, Atomic(front)).book else Atomic(front)
  }

  /** Linearizability: over every interleaving the book, with an unfinished section left out,
      is the one the list engine reaches by executing the requests one after the other, in
      the order in which they took effect. */
  lemma {:induction false} BookIsAtomic(actions: seq<Action>)
    ensures Settled(Run(actions)) == Atomic(actions)
  {
    if actions != [] {
      var front, a := actions[..|actions| - 1], actions[|actions| - 1];
      BookIsAtomic(front);
      RunSound(front);
      hide Next, Sound, Effect, Commit;
      CommitIsStep(Run(front), a);
    }
  }

  // ---------- The stamps of one session ----------

  /** What was sent to one session, in order. */
  function SentTo(out: seq<(string, Message)>, x: string): seq<Message> {
    if out == [] then []
    else SentTo(out[..|out| - 1], x) + (if out[|out| - 1].0 == x then [out[|out| - 1].1] else [])
  }

  /** Stamped replies of a session that are still on their way. */
  function Pending(s: State, x: string): seq<Message> {
    if x !in s.tasks then []
    else if s.tasks[x].Sending? then s.tasks[x].replies
    else if s.tasks[x].Locked? && s.lock.Some? then s.lock.value.Collected() else []
  }

  function Outbox(s: State, x: string): seq<Message> { SentTo(s.out, x) + Pending(s, x) }

  ghost predicate Rising(ms: seq<Message>, last: int) {
    && (forall i :: 0 <= i < |ms| ==> ms[i].ts <= last)
    && (forall i, j :: 0 <= i < j < |ms| ==> ms[i].ts < ms[j].ts)
  }

  /** A session's replies stay as they are, or one is added with a stamp never given before. */
  ghost predicate Grows(s: State, t: State, x: string) {
    && s.last <= t.last
    && (Outbox(t, x) == Outbox(s, x)
        || exists m: Message :: s.last < m.ts <= t.last && Outbox(t, x) == Outbox(s, x) + [m])
  }

  lemma OneMore(s: State, t: State, x: string, m: Message)
    requires s.out == t.out && Pending(t, x) == Pending(s, x) + [m] && s.last < m.ts <= t.last
    ensures Grows(s, t, x)
  {
    hide SentTo, Pending;
    assert Outbox(t, x) == Outbox(s, x) + [m];
  }

  lemma TradeGrows(s: State, x: string, reading: int)
    requires Sound(s)
    ensures Grows(s, Next(s, Trade(reading)), x)
  {
    hide BookOk, Issued, SectionOk, SentTo, AfterTrade, CanTrade, Rising;
    var t := Next(s, Trade(reading));
    if s.lock.Some? && CanTrade(s.book, s.lock.value) && x == s.lock.value.session && x in s.tasks {
      var h, g := s.lock.value, t.lock.value;
      var m := FillMessage(h.r.id, g.hits[|h.hits|]);
      assert FillMessages(h.r.id, g.hits) == FillMessages(h.r.id, h.hits) + [m];
      assert g.Collected() == h.Collected() + [m];
      OneMore(s, t, x, m);
    }
  }

  lemma FinishGrows(s: State, x: string, reading: int)
    requires Sound(s)
    ensures Grows(s, Next(s, Finish(reading)), x)
  {
    hide BookOk, Issued, SentTo, CanTrade, Insert, Section.Collected, Follows, StampsOk, Validate, On, Find;
    var t := Next(s, Finish(reading));
    if s.lock.Some? && x == s.lock.value.session && x in s.tasks && s.last < t.last {
      OneMore(s, t, x, Reject(s.lock.value.r.id, NoLiquidity, t.last));
    }
  }

  lemma SendGrows(s: State, x: string, y: string)
    ensures Grows(s, Next(s, Send(y)), x)
  {
    if y in s.tasks && s.tasks[y].Sending? && s.tasks[y].replies != [] {
      var ms := s.tasks[y].replies;
      assert (s.out + [(y, ms[0])])[..|s.out|] == s.out;
      if x == y {
        assert SentTo(s.out, x) + [ms[0]] + ms[1..] == SentTo(s.out, x) + ms;
      }
    }
  }

  lemma AskGrows(s: State, x: string, y: string, r: Request, reading: int)
    requires Sound(s)
    ensures Grows(s, Next(s, Ask(y, r, reading)), x)
  {
    hide BookOk, Issued, SectionOk, SentTo, Validate, Find, Drop;
    var t := Next(s, Ask(y, r, reading));
    if y in s.tasks && s.tasks[y].Reading? && t.tasks[y].Locked? && x == y {
      assert FillMessages(r.id, []) == [];
      OneMore(s, t, x, Ack(r.id, t.last));
    }
  }

  lemma StampGrows(s: State, x: string, y: string, reading: int)
    ensures Grows(s, Next(s, Stamp(y, reading)), x)
  {
    hide SentTo;
    var t := Next(s, Stamp(y, reading));
    if y in s.tasks && s.tasks[y].Stamping? && x == y {
      OneMore(s, t, x, WithStamp(s.tasks[y].reply, t.last));
    }
  }

  lemma OpenGrows(s: State, x: string, addr: string, reading: int)
    requires Sound(s)
    ensures Grows(s, Next(s, Open(addr, reading)), x)
  {
    hide BookOk, Issued, SectionOk, SentTo, SessionId;
    NewSession(s.tasks.Keys, s.last, addr, Clock.After(reading, s.last));
  }

  lemma NextGrows(s: State, a: Action, x: string)
    requires Sound(s)
    ensures Grows(s, Next(s, a), x)
  {
    hide Next, Grows, Sound;
    match a
    case Open(addr, reading) => OpenGrows(s, x, addr, reading);
    case Ask(y, r, reading) => AskGrows(s, x, y, r, reading);
    case Trade(reading) => TradeGrows(s, x, reading);
    case Finish(reading) => FinishGrows(s, x, reading);
    case Stamp(y, reading) => StampGrows(s, x, y, reading);
    case Send(y) => SendGrows(s, x, y);
    case Close(y) => CloseGrows(s, x, y);
  }

  lemma CloseGrows(s: State, x: string, y: string)
    ensures Grows(s, Next(s, Close(y)), x)
  {
    hide SentTo, Drop;
  }

  lemma RisesOn(ms: seq<Message>, m: Message, last: int, later: int)
    requires Rising(ms, last) && last < m.ts <= later
    ensures Rising(ms + [m], later)
  {
  }

  lemma RisesLater(ms: seq<Message>, last: int, later: int)
    requires Rising(ms, last) && last <= later
    ensures Rising(ms, later)
  {
  }

  lemma {:induction false} RunRises(actions: seq<Action>, x: string)
    ensures Rising(Outbox(Run(actions), x), Run(actions).last)
  {
    if actions != [] {
      var front, a := actions[..|actions| - 1], actions[|actions| - 1];
      RunRises(front, x);
      RunSound(front);
      hide Next, Sound, Outbox, Rising;
      var s, t := Run(front), Next(Run(front), a);
      NextGrows(s, a, x);
      forall m: Message | s.last < m.ts <= t.last
        ensures Rising(Outbox(s, x) + [m], t.last)
      {
        RisesOn(Outbox(s, x), m, s.last, t.last);
      }
      RisesLater(Outbox(s, x), s.last, t.last);
    }
  }

  /** Over every interleaving of any number of sessions: the book is always sorted, live,
      uncrossed and owned by open sessions, even in the middle of a match; and the messages
      sent to one session carry strictly increasing stamps. */
  lemma EveryInterleaving(actions: seq<Action>, x: string)
    ensures var s := Run(actions);
            && (forall i, j :: 0 <= i < j < |s.book.bids| ==>
                  var a, b := s.book.bids[i], s.book.bids[j];
                  a.price > b.price || (a.price == b.price && a.enteredAt < b.enteredAt))
            && (forall i, j :: 0 <= i < j < |s.book.asks| ==>
                  var a, b := s.book.asks[i], s.book.asks[j];
                  a.price < b.price || (a.price == b.price && a.enteredAt < b.enteredAt))
            && (forall b, a :: b in s.book.bids && a in s.book.asks ==> b.price < a.price)
            && (forall e :: On(s.book, e) ==> 0 < e.remaining <= e.quantity && e.session in s.tasks)
            && (forall e, f :: On(s.book, e) && On(s.book, f) && e.id == f.id ==> e == f)
            && Rising(SentTo(s.out, x), s.last)
  {
    RunSound(actions);
    RunRises(actions, x);
    hide Run, Follows, SectionOk, Issued, SentTo, Pending;
    var sent, rest := SentTo(Run(actions).out, x), Pending(Run(actions), x);
    assert forall i :: 0 <= i < |sent| ==> (sent + rest)[i] == sent[i];
  }

  // ---------- Linearization of the replies ----------

  /** Messages without their stamps. */
  function Erase(ms: seq<Message>): seq<Message> {
    seq(|ms|, i requires 0 <= i < |ms| => WithStamp(ms[i], 0))
  }

  /** A session's replies to the requests that have taken effect, whether sent, stamped and
      on their way, or about to be stamped. */
  function Chosen(s: State, x: string): seq<Message> {
    SentTo(s.out, x) +
    (if x !in s.tasks then []
     else match s.tasks[x]
       case Sending(replies) => replies
       case Stamping(reply) => [reply]
       case _ => [])
  }

  /** The list engine's replies to the session, to the commands in the order they took effect. */
  function RepliesTo(actions: seq<Action>, x: string): seq<Message> {
    if actions == [] then []
    else
      var front, a := actions[..|actions| - 1], actions[|actions| - 1];
      RepliesTo(front, x) +
      (if Commit(Run(front), a).Some? then Erase(SentTo(Effect(Run(front), a, Atomic(front)).out, x)) else [])
  }

  lemma EraseConcat(a: seq<Message>, b: seq<Message>)
    ensures Erase(a + b) == Erase(a) + Erase(b)
  {
  }

  lemma {:induction false} SentToAddressed(y: string, ms: seq<Message>, x: string)
    ensures SentTo(Addressed(y, ms), x) == if x == y then ms else []
  {
    if ms != [] {
      var a := Addressed(y, ms);
      assert a[..|a| - 1] == Addressed(y, ms[..|ms| - 1]);
      SentToAddressed(y, ms[..|ms| - 1], x);
    }
  }

  lemma FinishChooses(s: State, x: string, reading: int)
    requires Sound(s) && s.lock.Some? && !CanTrade(s.book, s.lock.value)
    ensures Chosen(Next(s, Finish(reading)), x)
         == Chosen(s, x) + SentTo(Effect(s, Finish(reading), Settled(s)).out, x)
  {
    hide BookOk, Issued, SentTo, CanTrade, Insert, Section.Collected, Follows, StampsOk, Validate, On, Find, Effect;
    var h, t := s.lock.value, Next(s, Finish(reading));
    FinishIsStep(s, reading);
    SentToAddressed(h.session, t.tasks[h.session].replies, x);
  }

  lemma AskChooses(s: State, x: string, y: string, r: Request, reading: int)
    requires Sound(s) && Commit(s, Ask(y, r, reading)).Some?
    ensures var e := Effect(s, Ask(y, r, reading), Settled(s));
            Erase(Chosen(Next(s, Ask(y, r, reading)), x)) == Erase(Chosen(s, x)) + Erase(SentTo(e.out, x))
  {
    hide Sound, SentTo, Validate, Find, Drop, Effect;
    var t, e := Next(s, Ask(y, r, reading)), Effect(s, Ask(y, r, reading), Settled(s));
    AskIsStep(s, y, r, reading);
    assert e.out == Addressed(y, [e.out[0].1]);
    SentToAddressed(y, [e.out[0].1], x);
    assert x == y ==> Chosen(t, x) == Chosen(s, x) + [t.tasks[x].reply];
    assert x != y ==> Chosen(t, x) == Chosen(s, x) + [];
  }

  lemma SendChooses(s: State, x: string, y: string)
    ensures Chosen(Next(s, Send(y)), x) == Chosen(s, x)
  {
    if y in s.tasks && s.tasks[y].Sending? && s.tasks[y].replies != [] {
      var ms := s.tasks[y].replies;
      assert (s.out + [(y, ms[0])])[..|s.out|] == s.out;
      if x == y {
        assert SentTo(s.out, x) + [ms[0]] + ms[1..] == SentTo(s.out, x) + ms;
      }
    }
  }

  /** A step without effect leaves a session's replies as they are, but for stamps. */
  lemma QuietChooses(s: State, a: Action, x: string)
    requires Sound(s) && Commit(s, a).None?
    ensures Erase(Chosen(Next(s, a), x)) == Erase(Chosen(s, x))
  {
    match a
    case Send(y) => SendChooses(s, x, y);
    case Open(addr, reading) =>
      hide BookOk, Issued, SectionOk, SentTo, SessionId;
      NewSession(s.tasks.Keys, s.last, addr, Clock.After(reading, s.last));
    case Stamp(y, reading) => StampChooses(s, x, y, reading);
    case _ => hide BookOk, Issued, SectionOk, SentTo, Validate, Find, Drop, AfterTrade, CanTrade;
  }

  lemma StampChooses(s: State, x: string, y: string, reading: int)
    ensures Erase(Chosen(Next(s, Stamp(y, reading)), x)) == Erase(Chosen(s, x))
  {
    hide SentTo;
  }

  lemma StepChooses(s: State, a: Action, x: string)
    requires Sound(s)
    ensures Erase(Chosen(Next(s, a), x)) == Erase(Chosen(s, x)) +
            if Commit(s, a).Some? then Erase(SentTo(Effect(s, a, Settled(s)).out, x)) else []
  {
    hide Sound, Next, Chosen, SentTo, Effect, Erase, CanTrade, Validate, Find;
    if Commit(s, a).None? {
      QuietChooses(s, a, x);
    } else {
      match a
      case Finish(reading) =>
        FinishChooses(s, x, reading);
        EraseConcat(Chosen(s, x), SentTo(Effect(s, a, Settled(s)).out, x));
      case Ask(y, r, reading) => AskChooses(s, x, y, r, reading);
      case Close(y) => CloseChooses(s, x, y);
    }
  }

  lemma CloseChooses(s: State, x: string, y: string)
    requires Commit(s, Close(y)).Some?
    ensures Chosen(Next(s, Close(y)), x) == Chosen(s, x) && SentTo(Effect(s, Close(y), Settled(s)).out, x) == []
    ensures Erase([]) == []
  {
    hide Drop, Readings;
  }

  /** Linearizability of the replies: over every interleaving what a session is told, but for
      the stamps, is what the list engine tells it when the requests run one after the other
      in the order in which they took effect. */
  lemma {:induction false} RepliesAreAtomic(actions: seq<Action>, x: string)
    ensures Erase(Chosen(Run(actions), x)) == RepliesTo(actions, x)
  {
    if actions != [] {
      var front, a := actions[..|actions| - 1], actions[|actions| - 1];
      RepliesAreAtomic(front, x);
      BookIsAtomic(front);
      RunSound(front);
      hide Next, Sound, Effect, Commit, Chosen, Erase;
      StepChooses(Run(front), a, x);
    }
  }
}
