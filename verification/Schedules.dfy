/** The other half of linearizability: every run of the list engine is an interleaving, the
    one in which each request is carried to its end before the next begins. */
module Schedules {
  import opened Orders
  import opened Options
  import opened ListBook
  import opened Interleaving
  import BookInvariants
  import Clock

  function After(t: State, actions: seq<Action>): State
    decreases |actions|
  {
    if actions == [] then t else After(Next(t, actions[0]), actions[1..])
  }

  lemma {:induction false} RunAfter(a: seq<Action>, b: seq<Action>)
    ensures Interleaving.Run(a + b) == After(Interleaving.Run(a), b)
    decreases |b|
  {
    hide Next;
    if b == [] {
      assert a + b == a;
    } else {
      assert (a + [b[0]]) + b[1..] == a + b && (a + [b[0]])[..|a|] == a;
      RunAfter(a + [b[0]], b[1..]);
    }
  }

  lemma {:induction false} AfterConcat(t: State, a: seq<Action>, b: seq<Action>)
    ensures After(t, a + b) == After(After(t, a), b)
    decreases |a|
  {
    hide Next;
    if a == [] {
      assert a + b == b;
    } else {
      AfterConcat(Next(t, a[0]), a[1..], b);
      assert (a + b)[1..] == a[1..] + b;
    }
  }

  // ---------- The matching loop, round after round ----------

  function Rounds(wall: Clock.Wall, count: nat, n: nat): seq<Action>
    decreases n
  {
    if n == 0 then [] else [Trade(wall(count))] + Rounds(wall, count + 1, n - 1)
  }

  function Traded(t: State, h: Section, m: Outcome): State {
    t.(book := t.book.With(h.Side().Opposite(), m.side), last := m.clock.last,
       lock := Some(h.(hits := h.hits + m.hits, left := m.left)))
  }

  lemma RoundsCons(t: State, wall: Clock.Wall, count: nat, n: nat)
    ensures After(t, Rounds(wall, count, n + 1)) == After(Next(t, Trade(wall(count))), Rounds(wall, count + 1, n))
  {
    hide Next;
    assert Rounds(wall, count, n + 1)[1..] == Rounds(wall, count + 1, n);
  }

  /** As many rounds as the list match has hits make the whole match. */
  lemma {:induction false} RoundsMatch(t: State, h: Section, wall: Clock.Wall, c: Clock.State)
    requires t.lock == Some(h) && t.last == c.last
    ensures var m := Match(wall, h.Incoming(), h.left, t.book.On(h.Side().Opposite()), c);
            && After(t, Rounds(wall, c.count, |m.hits|)) == Traded(t, h, m)
            && !CanTrade(Traded(t, h, m).book, h.(hits := h.hits + m.hits, left := m.left))
            && m.clock.count == c.count + |m.hits|
    decreases |t.book.On(h.Side().Opposite())|
  {
    hide Match, ShrinkHead, Crosses;
    var side, k := h.Side().Opposite(), h.Incoming();
    var opp := t.book.On(side);
    var m := Match(wall, k, h.left, opp, c);
    if !CanTrade(t.book, h) {
      MatchStops(wall, k, h.left, opp, c);
      assert h.hits + [] == h.hits;
      assert t.book.With(side, opp) == t.book;
    } else {
      MatchStep(wall, k, h.left, opp, c);
      var qty, c' := Min(h.left, opp[0].remaining), Clock.Tick(wall, c);
      var hit := Hit(opp[0], qty, h.left - qty, c'.last);
      var t' := Next(t, Trade(wall(c.count)));
      var h' := h.(hits := h.hits + [hit], left := h.left - qty);
      var r := Match(wall, k, h.left - qty, AfterTrade(h.left, opp), c');
      assert t' == t.(book := t.book.With(side, AfterTrade(h.left, opp)), last := c'.last, lock := Some(h'));
      if qty == opp[0].remaining {
        RoundsMatch(t', h', wall, c');
      } else {
        MatchStops(wall, k, h.left - qty, AfterTrade(h.left, opp), c');
        assert h'.hits + [] == h'.hits && t'.book.With(side, t'.book.On(side)) == t'.book;
      }
      assert h.hits + [hit] + r.hits == h.hits + ([hit] + r.hits);
      assert Traded(t', h', r) == Traded(t, h, m);
      hide After;
      RoundsCons(t, wall, c.count, |r.hits|);
    }
  }

  // ---------- Sending ----------

  function Sends(x: string, n: nat): seq<Action> {
    if n == 0 then [] else [Send(x)] + Sends(x, n - 1)
  }

  lemma SendsOne(t: State, x: string, n: nat)
    ensures After(t, Sends(x, n + 1)) == After(Next(t, Send(x)), Sends(x, n)) && After(t, Sends(x, 0)) == t
  {
    hide Next;
    assert Sends(x, n + 1)[1..] == Sends(x, n);
  }

  /** One send for each reply and one more find the handler reading again. */
  lemma {:induction false} SendsAll(t: State, x: string, ms: seq<Message>)
    requires x in t.tasks && t.tasks[x] == Sending(ms)
    ensures After(t, Sends(x, |ms| + 1)) == With(t, x, Reading).(out := t.out + Addressed(x, ms))
    decreases |ms|
  {
    hide After, Sends, OrderNext, CancelNext, TradeNext, FinishNext;
    var t' := Next(t, Send(x));
    SendsOne(t, x, |ms|);
    if ms == [] {
      SendsOne(t', x, 0);
      assert t.out + Addressed(x, ms) == t.out;
    } else {
      SendsAll(t', x, ms[1..]);
      assert t.out + [(x, ms[0])] + Addressed(x, ms[1..]) == t.out + Addressed(x, ms);
      assert With(t', x, Reading).tasks == With(t, x, Reading).tasks;
    }
  }

  // ---------- One command ----------

  /** The interleaved engine is between requests, in the state of the list engine. */
  ghost predicate Mirrors(t: State, s: System) {
    && t.book == s.book && t.last == s.clock.last && t.lock.None? && t.out == s.out
    && t.tasks.Keys == s.sessions && forall x :: x in t.tasks ==> t.tasks[x].Reading?
  }

  predicate Accepts(s: System, r: Request) {
    r.kind == "order" && Validate(r).None? && s.book.Lookup(r.id).None?
  }

  function MatchOf(wall: Clock.Wall, s: System, r: Request): Outcome {
    Match(wall, Taker(r.id, SideOf(r), TypeOf(r), r.price), r.quantity, s.book.On(SideOf(r).Opposite()),
          Clock.Tick(wall, s.clock))
  }

  /** The replies of an accepted order. */
  function Replies(wall: Clock.Wall, s: System, r: Request): seq<Message> {
    var m := MatchOf(wall, s, r);
    [Ack(r.id, Clock.Tick(wall, s.clock).last)] + FillMessages(r.id, m.hits)
    + (if m.left > 0 && TypeOf(r).Market? then [Reject(r.id, NoLiquidity, Clock.Tick(wall, m.clock).last)] else [])
  }

  /** A request carried to its end: the handler's steps in order, with the clock's readings. */
  function Schedule(wall: Clock.Wall, s: System, cmd: Command): seq<Action> {
    match cmd
    case Connect(addr) => [Open(addr, wall(s.clock.count))]
    case Disconnect(x) => [Close(x)]
    case Deliver(x, r) =>
      if x !in s.sessions then []
      else if Accepts(s, r) then
        var m := MatchOf(wall, s, r);
        [Ask(x, r, wall(s.clock.count))] + Rounds(wall, s.clock.count + 1, |m.hits|)
        + ([Finish(wall(s.clock.count + 1 + |m.hits|))] + Sends(x, |Replies(wall, s, r)| + 1))
      else [Ask(x, r, 0), Stamp(x, wall(s.clock.count))] + Sends(x, 2)
  }

  lemma AfterOne(t: State, a: Action, more: seq<Action>)
    ensures After(t, [a] + more) == After(Next(t, a), more) && After(t, [a]) == Next(t, a)
  {
    hide Next;
    assert ([a] + more)[1..] == more;
    assert After(Next(t, a), []) == Next(t, a);
  }

  /** The end of the locked section, after the whole match. */
  lemma FinishRuns(wall: Clock.Wall, t: State, s: System, x: string, r: Request, h: Section)
    requires var m := MatchOf(wall, s, r);
             && h == Section(x, r, s.book, Clock.Tick(wall, s.clock).last, m.hits, m.left)
             && t.lock == Some(h) && !CanTrade(t.book, h) && t.last == m.clock.last
             && t.book == s.book.With(h.Side().Opposite(), m.side)
    ensures var a := Accept(wall, s, x, r);
            Next(t, Finish(wall(MatchOf(wall, s, r).clock.count)))
            == State(a.book, a.clock.last, None, t.tasks[x := Sending(Replies(wall, s, r))], t.out)
  {
    hide Match, Insert, CanTrade, Accept, Crosses;
    BookInvariants.AcceptValue(wall, s, x, r, MatchOf(wall, s, r));
    assert h.Collected() + [] == h.Collected();
  }

  /** Everything up to the unlocking of an accepted order. */
  lemma SectionRuns(wall: Clock.Wall, t: State, s: System, x: string, r: Request)
    requires Mirrors(t, s) && x in s.sessions && Accepts(s, r)
    ensures var m, a := MatchOf(wall, s, r), Accept(wall, s, x, r);
            var u := After(t, [Ask(x, r, wall(s.clock.count))] + Rounds(wall, s.clock.count + 1, |m.hits|));
            && m.clock.count == s.clock.count + 1 + |m.hits|
            && Next(u, Finish(wall(m.clock.count)))
               == State(a.book, a.clock.last, None, t.tasks[x := Sending(Replies(wall, s, r))], t.out)
  {
    hide Match, Validate, Find, CanTrade, Rounds, Accept, FinishNext, After, TradeNext, CancelNext, Replies;
    var m, now := MatchOf(wall, s, r), Clock.Tick(wall, s.clock);
    var h := Section(x, r, s.book, now.last, [], r.quantity);
    var t1 := Next(t, Ask(x, r, wall(s.clock.count)));
    assert t1 == With(t, x, Locked).(last := now.last, lock := Some(h));
    RoundsMatch(t1, h, wall, now);
    AfterOne(t, Ask(x, r, wall(s.clock.count)), Rounds(wall, s.clock.count + 1, |m.hits|));
    assert [] + m.hits == m.hits;
    var u := Traded(t1, h, m);
    hide Next;
    FinishRuns(wall, u, s, x, r, h.(hits := m.hits, left := m.left));
    assert u.tasks[x := Sending(Replies(wall, s, r))] == t.tasks[x := Sending(Replies(wall, s, r))];
  }

  lemma AcceptedRuns(wall: Clock.Wall, t: State, s: System, x: string, r: Request)
    requires Mirrors(t, s) && x in s.sessions && Accepts(s, r)
    ensures Mirrors(After(t, Schedule(wall, s, Deliver(x, r))), Accept(wall, s, x, r))
  {
    hide Match, Validate, Find, Rounds, Accept, After, Next, Replies, Sends, Insert;
    var m, ms := MatchOf(wall, s, r), Replies(wall, s, r);
    var first := [Ask(x, r, wall(s.clock.count))] + Rounds(wall, s.clock.count + 1, |m.hits|);
    var finish, sends := Finish(wall(s.clock.count + 1 + |m.hits|)), Sends(x, |ms| + 1);
    SectionRuns(wall, t, s, x, r);
    AfterConcat(t, first, [finish] + sends);
    AfterOne(After(t, first), finish, sends);
    SendsAll(Next(After(t, first), finish), x, ms);
    AcceptOut(wall, s, x, r);
    assert t.tasks[x := Sending(ms)][x := Reading] == t.tasks[x := Reading];
    assert t.tasks[x := Reading].Keys == t.tasks.Keys;
  }

  lemma AcceptOut(wall: Clock.Wall, s: System, x: string, r: Request)
    ensures var a := Accept(wall, s, x, r);
            a.sessions == s.sessions && a.out == s.out + Addressed(x, Replies(wall, s, r))
  {
    hide Match, Insert;
  }

  lemma RefusedRuns(wall: Clock.Wall, t: State, s: System, x: string, r: Request)
    requires Mirrors(t, s) && x in s.sessions && !Accepts(s, r)
    ensures Mirrors(After(t, Schedule(wall, s, Deliver(x, r))), Step(wall, s, Deliver(x, r)))
  {
    hide Validate, Find, After, Sends, Drop, Accept, Removals;
    var a, b := Ask(x, r, 0), Stamp(x, wall(s.clock.count));
    var t1 := Next(t, a);
    var t2 := Next(t1, b);
    AfterOne(t, a, [b] + Sends(x, 2));
    AfterOne(t1, b, Sends(x, 2));
    assert [a, b] + Sends(x, 2) == [a] + ([b] + Sends(x, 2));
    SendsAll(t2, x, t2.tasks[x].replies);
    assert t2.tasks[x := Reading].Keys == t.tasks.Keys;
  }

  /** A command of the list engine is its schedule in the interleaved engine. */
  lemma CommandRuns(wall: Clock.Wall, t: State, s: System, cmd: Command)
    requires Mirrors(t, s)
    ensures Mirrors(After(t, Schedule(wall, s, cmd)), Step(wall, s, cmd))
  {
    hide Validate, Find, Drop, Removals, Accept;
    match cmd
    case Connect(addr) =>
      AfterOne(t, Open(addr, wall(s.clock.count)), []);
      hide After, SessionId;
      var id := SessionId(addr, Clock.Tick(wall, s.clock).last);
      assert t.tasks[id := Reading].Keys == t.tasks.Keys + {id};
    case Disconnect(x) =>
      AfterOne(t, Close(x), []);
      hide After;
      assert (t.tasks - {x}).Keys == t.tasks.Keys - {x};
    case Deliver(x, r) =>
      if x in s.sessions {
        hide After, Mirrors, Next, Schedule;
        if Accepts(s, r) {
          AcceptedRuns(wall, t, s, x, r);
        } else {
          RefusedRuns(wall, t, s, x, r);
        }
      }
  }

  function ScheduleAll(wall: Clock.Wall, cmds: seq<Command>): seq<Action> {
    if cmds == [] then []
    else
      var front, cmd := cmds[..|cmds| - 1], cmds[|cmds| - 1];
      ScheduleAll(wall, front) + Schedule(wall, ListBook.Run(wall, front), cmd)
  }

  /** Every run of the list engine is an interleaving: same book, same clock, same sessions,
      and the same messages in the same order with the same stamps. */
  lemma {:induction false} EveryRunIsInterleaving(wall: Clock.Wall, cmds: seq<Command>)
    ensures Mirrors(Interleaving.Run(ScheduleAll(wall, cmds)), ListBook.Run(wall, cmds))
  {
    hide Next, Step, Schedule, Mirrors;
    if cmds == [] {
      StartMirrors();
    } else {
      var front, cmd := cmds[..|cmds| - 1], cmds[|cmds| - 1];
      EveryRunIsInterleaving(wall, front);
      RunAfter(ScheduleAll(wall, front), Schedule(wall, ListBook.Run(wall, front), cmd));
      CommandRuns(wall, Interleaving.Run(ScheduleAll(wall, front)), ListBook.Run(wall, front), cmd);
    }
  }

  lemma StartMirrors()
    ensures Mirrors(Interleaving.START, EMPTY)
  {
  }
}
