/** Conservation and identity of accepted orders over every run of the engine. */
module EngineRuns {
  import opened Options
  import opened ListBook
  import opened Conservation
  import BookInvariants
  import PriceTime
  import Clock
  import Orders

  /** Every run keeps every order's books balanced, and the fill messages sent account for
      exactly the quantity taken and the quantity made. */
  lemma {:induction false} RunConserves(wall: Clock.Wall, cmds: seq<Command>, k: Key)
    ensures Balanced(Run(wall, cmds), k) && Reported(Run(wall, cmds), k)
  {
    if cmds != [] {
      var s := Run(wall, cmds[..|cmds| - 1]);
      RunConserves(wall, cmds[..|cmds| - 1], k);
      RunIsLive(wall, cmds[..|cmds| - 1]);
      StepBalances(wall, s, cmds[|cmds| - 1], k);
      StepReports(wall, s, cmds[|cmds| - 1], k);
    }
  }

  lemma RunIsLive(wall: Clock.Wall, cmds: seq<Command>)
    ensures PriceTime.Live(Run(wall, cmds).book.bids) && PriceTime.Live(Run(wall, cmds).book.asks)
  {
    BookInvariants.RunKeeps(wall, cmds);
  }

  /** Entry times identify accepted orders. */
  ghost predicate AcceptedOnce(log: seq<Record>, last: int) {
    && (forall i :: 0 <= i < |log| && log[i].Accepted? ==> log[i].key <= last)
    && (forall i, j :: 0 <= i < j < |log| && log[i].Accepted? && log[j].Accepted? ==> log[i].key < log[j].key)
  }

  lemma {:induction false} NoAcceptance(l: seq<Orders.Entry>, ids: set<string>)
    ensures forall i :: 0 <= i < |Removals(l, ids)| ==> Removals(l, ids)[i].Cancelled?
  {
    if l != [] {
      NoAcceptance(l[1..], ids);
    }
  }

  lemma StepAcceptsOnce(wall: Clock.Wall, s: System, cmd: Command)
    requires AcceptedOnce(s.log, s.clock.last)
    ensures AcceptedOnce(Step(wall, s, cmd).log, Step(wall, s, cmd).clock.last)
  {
    hide Match, Insert, Drop, Removals, Validate, Find, SessionId;
    BookInvariants.StepAdvances(wall, s, cmd);
    match cmd
    case Connect(_) =>
    case Disconnect(session) =>
      NoAcceptance(s.book.bids, s.book.IdsOf(session));
      NoAcceptance(s.book.asks, s.book.IdsOf(session));
    case Deliver(session, q) =>
      NoAcceptance(s.book.bids, {q.id});
      NoAcceptance(s.book.asks, {q.id});
      var t := Taker(q.id, SideOf(q), TypeOf(q), q.price);
      PriceTime.MatchStamped(wall, t, q.quantity, s.book.On(t.side.Opposite()), Clock.Tick(wall, s.clock));
  }

  lemma {:induction false} RunAcceptsOnce(wall: Clock.Wall, cmds: seq<Command>)
    ensures AcceptedOnce(Run(wall, cmds).log, Run(wall, cmds).clock.last)
  {
    if cmds != [] {
      RunAcceptsOnce(wall, cmds[..|cmds| - 1]);
      hide Step;
      StepAcceptsOnce(wall, Run(wall, cmds[..|cmds| - 1]), cmds[|cmds| - 1]);
    }
  }

  lemma {:induction false} TotalAccepted(log: seq<Record>, last: int, i: nat)
    requires AcceptedOnce(log, last) && i < |log| && log[i].Accepted?
    ensures Total(log, Some(log[i].key), AsAccepted) == log[i].qty
  {
    var init, k := log[..|log| - 1], Some(log[i].key);
    if i == |log| - 1 {
      NoneBefore(log, last, i, i);
    } else {
      TotalAccepted(init, last, i);
    }
  }

  lemma {:induction false} NoneBefore(log: seq<Record>, last: int, i: nat, n: nat)
    requires AcceptedOnce(log, last) && n <= i < |log| && log[i].Accepted?
    ensures Total(log[..n], Some(log[i].key), AsAccepted) == 0
  {
    if n > 0 {
      NoneBefore(log, last, i, n - 1);
      assert log[..n][..n - 1] == log[..n - 1];
    }
  }

  // ---------- The ack of an accepted order ----------

  predicate Acks(m: Message, key: int) { m.Ack? && m.ts == key }

  ghost predicate Acked(out: seq<(string, Message)>, key: int) {
    exists j :: 0 <= j < |out| && Acks(out[j].1, key)
  }

  ghost predicate AllAcked(s: System) {
    forall i :: 0 <= i < |s.log| && s.log[i].Accepted? ==> Acked(s.out, s.log[i].key)
  }

  lemma AckedLater(out: seq<(string, Message)>, more: seq<(string, Message)>, key: int)
    requires Acked(out, key)
    ensures Acked(out + more, key)
  {
    var j :| 0 <= j < |out| && Acks(out[j].1, key);
    assert (out + more)[j] == out[j];
  }

  lemma AcceptAcks(wall: Clock.Wall, s: System, session: string, r: Request)
    requires AllAcked(s)
    ensures AllAcked(Accept(wall, s, session, r))
  {
    hide Match, Insert, Acked;
    var t, now := Accept(wall, s, session, r), Clock.Tick(wall, s.clock).last;
    var more := t.out[|s.out|..];
    assert t.out == s.out + more;
    forall i | 0 <= i < |s.log| && s.log[i].Accepted?
      ensures Acked(t.out, s.log[i].key)
    {
      AckedLater(s.out, more, s.log[i].key);
    }
    FirstAcked(s.out, (session, Ack(r.id, now)), more[1..]);
    assert t.out == s.out + [(session, Ack(r.id, now))] + more[1..];
  }

  lemma FirstAcked(out: seq<(string, Message)>, ack: (string, Message), more: seq<(string, Message)>)
    requires ack.1.Ack?
    ensures Acked(out + [ack] + more, ack.1.ts)
  {
    assert (out + [ack] + more)[|out|] == ack;
  }

  lemma StepAcks(wall: Clock.Wall, s: System, cmd: Command)
    requires AllAcked(s)
    ensures AllAcked(Step(wall, s, cmd))
  {
    hide Match, Insert, Drop, Removals, Validate, Find, SessionId, Acked;
    match cmd
    case Connect(_) =>
    case Disconnect(session) =>
      NoAcceptance(s.book.bids, s.book.IdsOf(session));
      NoAcceptance(s.book.asks, s.book.IdsOf(session));
    case Deliver(session, q) =>
      NoAcceptance(s.book.bids, {q.id});
      NoAcceptance(s.book.asks, {q.id});
      AcceptAcks(wall, s, session, q);
      forall m: (string, Message), i | 0 <= i < |s.log| && s.log[i].Accepted?
        ensures Acked(s.out + [m], s.log[i].key)
      {
        AckedLater(s.out, [m], s.log[i].key);
      }
      hide Accept;
  }

  /** Conservation: over every run, the quantity of every accepted order equals its fills
      as incoming order, plus its fills as resting order, plus what still rests on the
      book, plus its cancelled and its unfillable remainder. Exactly one ack carries its
      entry time, and the fill messages that follow it, to the same session and for the same
      order, report exactly its fills as incoming order. Over all orders the fills taken
      equal the fills made and the fills reported. */
  lemma Conserved(wall: Clock.Wall, cmds: seq<Command>, i: nat)
    requires var log := Run(wall, cmds).log; i < |log| && log[i].Accepted?
    ensures var s := Run(wall, cmds);
            var k := Some(s.log[i].key);
            && s.log[i].qty == Total(s.log, k, AsTaker) + Total(s.log, k, AsMaker)
                             + Resting(s.book.bids, k) + Resting(s.book.asks, k)
                             + Total(s.log, k, AsCancelled) + Total(s.log, k, AsUnfilled)
            && FillsSent(s.out, k) == Total(s.log, k, AsTaker)
            && FillsSent(s.out, None) == Total(s.log, None, AsTaker) == Total(s.log, None, AsMaker)
    ensures var s := Run(wall, cmds);
            var key := s.log[i].key;
            && (exists j :: 0 <= j < |s.out| && Acks(s.out[j].1, key))
            && (forall j, l :: 0 <= j < l < |s.out| ==> !(Acks(s.out[j].1, key) && Acks(s.out[l].1, key)))
  {
    hide Run, Total, FillsSent;
    RunAcceptsOnce(wall, cmds);
    TotalAccepted(Run(wall, cmds).log, Run(wall, cmds).clock.last, i);
    RunConserves(wall, cmds, Some(Run(wall, cmds).log[i].key));
    RunConserves(wall, cmds, None);
    RunAcks(wall, cmds);
    BookInvariants.EveryRunIsSound(wall, cmds);
  }

  lemma {:induction false} RunAcks(wall: Clock.Wall, cmds: seq<Command>)
    ensures AllAcked(Run(wall, cmds))
  {
    if cmds != [] {
      RunAcks(wall, cmds[..|cmds| - 1]);
      hide Step;
      StepAcks(wall, Run(wall, cmds[..|cmds| - 1]), cmds[|cmds| - 1]);
    }
  }

  // ---------- What each fill message says ----------

  /** A fill belongs to the order acknowledged last, and its remaining is that order's
      quantity minus all its fills sent up to and including this one. */
  ghost predicate FillOk(before: seq<(string, Message)>, m: (string, Message), log: seq<Record>) {
    m.1.Fill? ==>
      var ack := LastAck(before);
      && ack.Some? && ack.value.1.Ack? && ack.value.0 == m.0 && ack.value.1.id == m.1.id && m.1.qty > 0
      && exists q: int :: Accepted(ack.value.1.ts, q) in log
                          && m.1.remaining == q - FillsSent(before + [m], Some(ack.value.1.ts)) >= 0
  }

  ghost predicate FillsOk(out: seq<(string, Message)>, log: seq<Record>) {
    forall j :: 0 <= j < |out| ==> FillOk(out[..j], out[j], log)
  }

  lemma FillsOkSnoc(out: seq<(string, Message)>, m: (string, Message), log: seq<Record>)
    requires FillsOk(out, log) && FillOk(out, m, log)
    ensures FillsOk(out + [m], log)
  {
    hide FillOk;
    var r := out + [m];
    forall j | 0 <= j < |r|
      ensures FillOk(r[..j], r[j], log)
    {
      assert r[..j] == if j < |out| then out[..j] else out;
    }
  }

  lemma FillsOkLater(out: seq<(string, Message)>, log: seq<Record>, more: seq<Record>)
    requires FillsOk(out, log)
    ensures FillsOk(out, log + more)
  {
    forall j | 0 <= j < |out|
      ensures FillOk(out[..j], out[j], log + more)
    {
      assert FillOk(out[..j], out[j], log);
    }
  }

  /** An order that was never acknowledged has no fills. */
  lemma {:induction false} NoFillsYet(out: seq<(string, Message)>, key: int)
    requires forall j :: 0 <= j < |out| ==> out[j].1.ts < key
    ensures FillsSent(out, Some(key)) == 0 && (LastAck(out).Some? ==> LastAck(out).value.1.ts < key)
  {
    if out != [] {
      NoFillsYet(out[..|out| - 1], key);
    }
  }

  lemma {:induction false} FilledSnoc(hits: seq<Hit>)
    requires hits != []
    ensures PriceTime.Filled(hits) == PriceTime.Filled(hits[..|hits| - 1]) + hits[|hits| - 1].qty
  {
    if |hits| > 1 {
      FilledSnoc(hits[1..]);
      assert hits[1..][..|hits| - 2] == hits[..|hits| - 1][1..];
    }
  }

  /** Each hit takes something and states what is left of q after it. */
  ghost predicate Reports(hits: seq<Hit>, q: int) {
    forall i :: 0 <= i < |hits| ==> hits[i].qty > 0 && hits[i].left == q - PriceTime.Filled(hits[..i + 1]) >= 0
  }

  lemma {:induction false} HitsReport(
    out: seq<(string, Message)>, session: string, id: string, key: int, q: int, hits: seq<Hit>, n: nat,
    log: seq<Record>)
    requires n <= |hits| && FillsOk(out, log) && Accepted(key, q) in log
    requires LastAck(out) == Some((session, Ack(id, key))) && FillsSent(out, Some(key)) == 0
    requires Reports(hits, q)
    ensures var sent := out + Addressed(session, FillMessages(id, hits[..n]));
            && FillsOk(sent, log) && LastAck(sent) == LastAck(out)
            && FillsSent(sent, Some(key)) == PriceTime.Filled(hits[..n])
    decreases n
  {
    hide FillsOk, FillsSent, LastAck;
    if n == 0 {
      assert out + Addressed(session, FillMessages(id, hits[..0])) == out;
    } else {
      HitsReport(out, session, id, key, q, hits, n - 1, log);
      var sent := out + Addressed(session, FillMessages(id, hits[..n - 1]));
      var m := (session, FillMessage(id, hits[n - 1]));
      assert out + Addressed(session, FillMessages(id, hits[..n])) == sent + [m];
      SentSnoc(sent, m, Some(key));
      assert hits[..n][..n - 1] == hits[..n - 1];
      FilledSnoc(hits[..n]);
      FillsOkSnoc(sent, m, log);
    }
  }

  lemma AcceptReportsFills(wall: Clock.Wall, s: System, session: string, r: Request)
    requires FillsOk(s.out, s.log) && BookInvariants.SysOk(s) && Validate(r).None?
    ensures var a := Accept(wall, s, session, r); FillsOk(a.out, a.log)
  {
    hide Match, Insert, FillsOk, Validate, BookInvariants.SysOk, LastAck, FillsSent, Reports;
    var t, c := Taker(r.id, SideOf(r), TypeOf(r), r.price), Clock.Tick(wall, s.clock);
    var opp := s.book.On(t.side.Opposite());
    var m := Match(wall, t, r.quantity, opp, c);
    MatchReports(wall, s, r);
    var ack, accepted := (session, Ack(r.id, c.last)), Accepted(c.last, r.quantity);
    var log := s.log + [accepted] + Trades(c.last, m.hits);
    assert log == s.log + ([accepted] + Trades(c.last, m.hits)) && log[|s.log|] == accepted;
    FillsOkLater(s.out, s.log, [accepted] + Trades(c.last, m.hits));
    NoFillsYet(s.out, c.last);
    SentSnoc(s.out, ack, Some(c.last));
    FillsOkSnoc(s.out, ack, log);
    HitsReport(s.out + [ack], session, r.id, c.last, r.quantity, m.hits, |m.hits|, log);
    assert m.hits[..|m.hits|] == m.hits;
    var out := s.out + [ack] + Addressed(session, FillMessages(r.id, m.hits));
    assert out == s.out + Addressed(session, [Ack(r.id, c.last)] + FillMessages(r.id, m.hits));
    FillsOkSnoc(out, (session, Reject(r.id, NoLiquidity, Clock.Tick(wall, m.clock).last)), log);
    FillsOkLater(out + [(session, Reject(r.id, NoLiquidity, Clock.Tick(wall, m.clock).last))], log,
                 [Unfilled(c.last, m.left)]);
  }

  lemma MatchReports(wall: Clock.Wall, s: System, r: Request)
    requires BookInvariants.SysOk(s) && Validate(r).None?
    ensures var t, c := Taker(r.id, SideOf(r), TypeOf(r), r.price), Clock.Tick(wall, s.clock);
            Reports(Match(wall, t, r.quantity, s.book.On(t.side.Opposite()), c).hits, r.quantity)
    ensures forall j :: 0 <= j < |s.out| ==> s.out[j].1.ts < Clock.Tick(wall, s.clock).last
  {
    hide Match;
    var t, c := Taker(r.id, SideOf(r), TypeOf(r), r.price), Clock.Tick(wall, s.clock);
    var opp := s.book.On(t.side.Opposite());
    PriceTime.MatchAccounts(wall, t, r.quantity, opp, c);
    PriceTime.MatchHitsPrefix(wall, t, r.quantity, opp, c);
    LeftsFall(wall, t, r.quantity, opp, c);
  }

  lemma {:induction false} LeftsFall(wall: Clock.Wall, t: Taker, left: int, opp: seq<Orders.Entry>, c: Clock.State)
    requires left >= 0
    ensures forall i :: 0 <= i < |Match(wall, t, left, opp, c).hits| ==> Match(wall, t, left, opp, c).hits[i].left >= 0
    decreases |opp|
  {
    if left > 0 && opp != [] && Crosses(t, opp[0].price) {
      var qty := Min(left, opp[0].remaining);
      if qty == opp[0].remaining {
        LeftsFall(wall, t, left - qty, opp[1..], Clock.Tick(wall, c));
      }
    }
  }

  lemma StepReportsFills(wall: Clock.Wall, s: System, cmd: Command)
    requires FillsOk(s.out, s.log) && BookInvariants.SysOk(s)
    ensures FillsOk(Step(wall, s, cmd).out, Step(wall, s, cmd).log)
  {
    hide FillsOk, BookInvariants.SysOk, Accept, Validate, Find, Drop, Removals, SessionId;
    match cmd
    case Connect(_) =>
    case Disconnect(session) => FillsOkLater(s.out, s.log, s.book.Cancellations(s.book.IdsOf(session)));
    case Deliver(session, r) =>
      var now := Clock.Tick(wall, s.clock).last;
      forall reason: Reason
        ensures FillsOk(s.out + [(session, Reject(r.id, reason, now))], s.log)
      {
        FillsOkSnoc(s.out, (session, Reject(r.id, reason, now)), s.log);
      }
      FillsOkSnoc(s.out, (session, CancelAck(r.id, now)), s.log);
      FillsOkLater(s.out + [(session, CancelAck(r.id, now))], s.log, s.book.Cancellations({r.id}));
      if Validate(r).None? {
        AcceptReportsFills(wall, s, session, r);
      }
  }

  /** Over every run each fill message goes to the session and names the order of the last
      ack before it, and its remaining is that order's accepted quantity minus all its fills
      sent so far. */
  lemma {:induction false} FillsReportRemaining(wall: Clock.Wall, cmds: seq<Command>)
    ensures FillsOk(Run(wall, cmds).out, Run(wall, cmds).log)
  {
    if cmds != [] {
      FillsReportRemaining(wall, cmds[..|cmds| - 1]);
      BookInvariants.RunKeeps(wall, cmds[..|cmds| - 1]);
      hide Step, FillsOk, BookInvariants.SysOk;
      StepReportsFills(wall, Run(wall, cmds[..|cmds| - 1]), cmds[|cmds| - 1]);
    }
  }
}
