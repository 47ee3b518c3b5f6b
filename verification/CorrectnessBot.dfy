/** The correctness bot: deterministic sequences played one step at a time against an
    engine whose replies, timeouts and failures are arbitrary, and the score it gives. */
module CorrectnessBot {
  import opened Options
  import Decimal

  datatype Kind = PlaceOrder | CancelOrder

  datatype Step = Step(
    kind: Kind, side: string, typ: string, price: real, quantity: int, tag: string, cancelTag: string,
    expectFill: bool, expectFillPrice: real, expectFillQty: int, expectReject: bool,
    expectBids: int, expectAsks: int)

  // ---------- What the engine may do ----------

  datatype Reply = Ack | Fill(price: real, qty: int) | Reject | CancelAck | Other

  /** One read: a message, undecodable bytes, or an error (with the run's context ended or not). */
  datatype Reading = Got(reply: Reply) | Garbled | Failed(ended: bool)

  /** Everything that happens in one step; the reads that succeed before the deadline, and
      the level counts of the book query unless it fails. */
  datatype StepIO = StepIO(writeOk: bool, readings: seq<Reading>, query: Option<(int, int)>)

  datatype Session = Session(dialOk: bool, io: nat -> StepIO)

  // ---------- The score of a step, as a function of what happened ----------

  datatype Seen = Seen(fill: bool, price: real, qty: int, reject: bool, ack: bool, cancelAck: bool)

  const NOTHING := Seen(false, 0.0, 0, false, false, false)

  function Note(s: Seen, r: Reply): Seen {
    match r
    case Ack => s.(ack := true)
    case Fill(price, qty) => s.(fill := true, price := price, qty := qty)
    case Reject => s.(reject := true)
    case CancelAck => s.(cancelAck := true)
    case Other => s
  }

  predicate Enough(step: Step, s: Seen) {
    || (step.kind == CancelOrder && s.cancelAck)
    || (step.expectReject && s.reject)
    || (step.expectFill && s.ack && s.fill)
    || (!step.expectFill && !step.expectReject && s.ack)
  }

  /** What the read loop has seen when it stops; None when the run's context ended. */
  function Listen(step: Step, rs: seq<Reading>, s: Seen): Option<Seen> {
    if rs == [] then Some(s)
    else match rs[0]
      case Failed(ended) => if ended then None else Some(s)
      case Garbled => Listen(step, rs[1..], s)
      case Got(r) => if Enough(step, Note(s, r)) then Some(Note(s, r)) else Listen(step, rs[1..], Note(s, r))
  }

  datatype Tally = Tally(passed: nat, failed: nat) {
    function Plus(t: Tally): Tally { Tally(passed + t.passed, failed + t.failed) }
    function Sum(): nat { passed + failed }
  }

  function Bit(b: bool): nat { if b then 1 else 0 }

  predicate Differs(a: real, b: real) { (if a >= b then a - b else b - a) > 0.01 }

  /** A missing fill is one failure; a fill is one pass and has its price and quantity
      checked where the step asks for them. */
  function JudgeFill(step: Step, s: Seen): Tally {
    var price, qty := step.expectFillPrice > 0.0, step.expectFillQty > 0;
    var priceOk, qtyOk := !Differs(s.price, step.expectFillPrice), s.qty == step.expectFillQty;
    if !s.fill then Tally(0, 1)
    else Tally(1 + Bit(price && priceOk) + Bit(qty && qtyOk), Bit(price && !priceOk) + Bit(qty && !qtyOk))
  }

  /** A failed query is one failure, however many level counts were asked for. */
  function JudgeBook(step: Step, query: Option<(int, int)>): Tally {
    var bids, asks := step.expectBids >= 0, step.expectAsks >= 0;
    if !bids && !asks then Tally(0, 0)
    else if query.None? then Tally(0, 1)
    else
      var bidsOk, asksOk := query.value.0 == step.expectBids, query.value.1 == step.expectAsks;
      Tally(Bit(bids && bidsOk) + Bit(asks && asksOk), Bit(bids && !bidsOk) + Bit(asks && !asksOk))
  }

  function Judge(step: Step, s: Seen, query: Option<(int, int)>): Tally {
    var cancel, reject := step.kind == CancelOrder, step.expectReject;
    var fill := if step.expectFill then JudgeFill(step, s) else Tally(0, 0);
    var book := JudgeBook(step, query);
    Tally(Bit(cancel && s.cancelAck) + fill.passed + Bit(reject && s.reject) + book.passed,
          Bit(cancel && !s.cancelAck) + fill.failed + Bit(reject && !s.reject) + book.failed)
  }

  /** The score of steps i.., given the tags placed so far. */
  function Play(steps: seq<Step>, io: nat -> StepIO, i: nat, tags: set<string>): Tally
    requires i <= |steps|
    decreases |steps| - i
  {
    if i == |steps| then Tally(0, 0)
    else
      var step, x := steps[i], io(i);
      if step.kind == CancelOrder && step.cancelTag !in tags then
        Tally(0, 1).Plus(Play(steps, io, i + 1, tags))
      else if !x.writeOk then Tally(0, 1)
      else
        var seen := Listen(step, x.readings, NOTHING);
        if seen.None? then Tally(0, 1)
        else
          Judge(step, seen.value, x.query)
          .Plus(Play(steps, io, i + 1, if step.kind == PlaceOrder then tags + {step.tag} else tags))
  }

  /** A failed write or an ended run is one failure and ends the sequence, whatever would have
      followed; a cancel without its order is one failure, and the sequence goes on. */
  lemma EarlyExits(steps: seq<Step>, io: nat -> StepIO, i: nat, tags: set<string>)
    requires i < |steps|
    ensures var missing := steps[i].kind == CancelOrder && steps[i].cancelTag !in tags;
            && (missing ==> Play(steps, io, i, tags) == Tally(0, 1).Plus(Play(steps, io, i + 1, tags)))
            && (!missing && (!io(i).writeOk || Listen(steps[i], io(i).readings, NOTHING).None?) ==>
                  Play(steps, io, i, tags) == Tally(0, 1))
  {
    hide Listen, Judge;
  }

  function PlaySession(steps: seq<Step>, s: Session): Tally {
    if !s.dialOk then Tally(0, 1) else Play(steps, s.io, 0, {})
  }

  function PlayAll(seqs: seq<seq<Step>>, env: nat -> Session): Tally {
    if seqs == [] then Tally(0, 0)
    else PlayAll(seqs[..|seqs| - 1], env).Plus(PlaySession(seqs[|seqs| - 1], env(|seqs| - 1)))
  }

  function Score(t: Tally): real {
    if t.Sum() == 0 then 1.0 else t.passed as real / t.Sum() as real
  }

  /** The share of the counted assertions that passed; full marks if none was counted. */
  predicate IsShare(score: real, t: Tally) {
    if t.Sum() == 0 then score == 1.0 else score * t.Sum() as real == t.passed as real
  }

  // ---------- The bot itself ----------

  datatype Failure = Failure(step: nat)

  /** All replies among the readings, noted. */
  function Noted(rs: seq<Reading>): Seen {
    if rs == [] then NOTHING
    else
      var s, last := Noted(rs[..|rs| - 1]), rs[|rs| - 1];
      if last.Got? then Note(s, last.reply) else s
  }

  /** The read loop stops at reading j: a read error, or a reply that makes enough. */
  predicate Stops(step: Step, rs: seq<Reading>, j: nat)
    requires j < |rs|
  {
    rs[j].Failed? || (rs[j].Got? && Enough(step, Noted(rs[..j + 1])))
  }

  lemma {:induction false} ListenFrom(step: Step, rs: seq<Reading>, n: nat)
    requires n <= |rs| && forall j :: 0 <= j < n ==> !Stops(step, rs, j)
    ensures Listen(step, rs, NOTHING) == Listen(step, rs[n..], Noted(rs[..n]))
  {
    if n == 0 {
      assert rs[0..] == rs;
    } else {
      ListenFrom(step, rs, n - 1);
      assert !Stops(step, rs, n - 1);
      assert rs[..n][..n - 1] == rs[..n - 1] && rs[n - 1..][1..] == rs[n..];
    }
  }

  /** The loop sees every reply up to where it first stops: up to and including the reply
      that makes enough, or up to an error, which is fatal only if the run has ended. */
  lemma ListenExact(step: Step, rs: seq<Reading>, k: nat)
    requires k <= |rs| && (forall j :: 0 <= j < k ==> !Stops(step, rs, j)) && (k < |rs| ==> Stops(step, rs, k))
    ensures Listen(step, rs, NOTHING) ==
            if k == |rs| then Some(Noted(rs))
            else if rs[k].Failed? then (if rs[k].ended then None else Some(Noted(rs[..k])))
            else Some(Noted(rs[..k + 1]))
  {
    ListenFrom(step, rs, k);
    assert k == |rs| ==> rs[..k] == rs;
    assert k < |rs| ==> rs[..k + 1][..k] == rs[..k];
  }

  /** When a step has heard enough. */
  lemma EnoughMeans(step: Step, s: Seen)
    ensures step.kind.CancelOrder? && !step.expectFill && !step.expectReject ==>
              (Enough(step, s) <==> s.cancelAck || s.ack)
    ensures step.kind.PlaceOrder? && step.expectFill && !step.expectReject ==> (Enough(step, s) <==> s.ack && s.fill)
    ensures step.kind.PlaceOrder? && step.expectReject && !step.expectFill ==> (Enough(step, s) <==> s.reject)
    ensures step.kind.PlaceOrder? && !step.expectReject && !step.expectFill ==> (Enough(step, s) <==> s.ack)
  {
  }

  /** The read loop of one step. */
  method ReadReplies(step: Step, rs: seq<Reading>) returns (seen: Option<Seen>)
    ensures seen == Listen(step, rs, NOTHING)
  {
    var s, j := NOTHING, 0;
    while j < |rs|
      invariant 0 <= j <= |rs|
      invariant Listen(step, rs, NOTHING) == Listen(step, rs[j..], s)
    {
      if rs[j].Failed? {
        if rs[j].ended {
          return None;
        }
        return Some(s);
      }
      if rs[j].Garbled? {
        j := j + 1;
        continue;
      }
      s := Note(s, rs[j].reply);
      if Enough(step, s) {
        return Some(s);
      }
      j := j + 1;
    }
    return Some(s);
  }

  method CheckFill(i: nat, step: Step, s: Seen) returns (passed: nat, failures: seq<Failure>)
    ensures var t := JudgeFill(step, s); passed == t.passed && |failures| == t.failed
    ensures !s.fill ==> passed == 0 && |failures| == 1
    ensures s.fill ==>
              var price, qty := step.expectFillPrice > 0.0, step.expectFillQty > 0;
              var close := -0.01 <= s.price - step.expectFillPrice <= 0.01;
              && passed == 1 + Bit(price && close) + Bit(qty && s.qty == step.expectFillQty)
              && |failures| == Bit(price && !close) + Bit(qty && s.qty != step.expectFillQty)
  {
    passed, failures := 0, [];
    if s.fill {
      passed := passed + 1;
      if step.expectFillPrice > 0.0 && Differs(s.price, step.expectFillPrice) {
        failures := failures + [Failure(i)];
      } else if step.expectFillPrice > 0.0 {
        passed := passed + 1;
      }
      if step.expectFillQty > 0 && s.qty != step.expectFillQty {
        failures := failures + [Failure(i)];
      } else if step.expectFillQty > 0 {
        passed := passed + 1;
      }
    } else {
      failures := failures + [Failure(i)];
    }
  }

  method CheckBook(i: nat, step: Step, query: Option<(int, int)>) returns (passed: nat, failures: seq<Failure>)
    ensures var t := JudgeBook(step, query); passed == t.passed && |failures| == t.failed
    ensures step.expectBids < 0 && step.expectAsks < 0 ==> passed == 0 && failures == []
    ensures (step.expectBids >= 0 || step.expectAsks >= 0) && query.None? ==> passed == 0 && |failures| == 1
    ensures query.Some? ==>
              var bids, asks := query.value.0 == step.expectBids, query.value.1 == step.expectAsks;
              && passed == Bit(step.expectBids >= 0 && bids) + Bit(step.expectAsks >= 0 && asks)
              && |failures| == Bit(step.expectBids >= 0 && !bids) + Bit(step.expectAsks >= 0 && !asks)
  {
    passed, failures := 0, [];
    if step.expectBids >= 0 || step.expectAsks >= 0 {
      if query.None? {
        failures := failures + [Failure(i)];
      } else {
        if step.expectBids >= 0 {
          if query.value.0 == step.expectBids { passed := passed + 1; } else { failures := failures + [Failure(i)]; }
        }
        if step.expectAsks >= 0 {
          if query.value.1 == step.expectAsks { passed := passed + 1; } else { failures := failures + [Failure(i)]; }
        }
      }
    }
  }

  /** The assertions of one step. */
  method CheckStep(i: nat, step: Step, s: Seen, query: Option<(int, int)>) returns (passed: nat, failures: seq<Failure>)
    ensures var t := Judge(step, s, query); passed == t.passed && |failures| == t.failed
    ensures var fill, book := JudgeFill(step, s), JudgeBook(step, query);
            && passed == Bit(step.kind == CancelOrder && s.cancelAck) + Bit(step.expectReject && s.reject) + book.passed
                       + (if step.expectFill then fill.passed else 0)
            && |failures| == Bit(step.kind == CancelOrder && !s.cancelAck) + Bit(step.expectReject && !s.reject)
                           + book.failed + (if step.expectFill then fill.failed else 0)
  {
    hide JudgeFill, JudgeBook;
    passed, failures := 0, [];
    if step.kind == CancelOrder {
      if s.cancelAck { passed := passed + 1; } else { failures := failures + [Failure(i)]; }
    }
    if step.expectFill {
      var p, f := CheckFill(i, step, s);
      passed, failures := passed + p, failures + f;
    }
    if step.expectReject {
      if s.reject { passed := passed + 1; } else { failures := failures + [Failure(i)]; }
    }
    var p, f := CheckBook(i, step, query);
    passed, failures := passed + p, failures + f;
  }

  function StepOrderId(i: nat, tag: string): string {
    "cx-s" + Decimal.Render(i) + "-" + tag
  }

  lemma StepOrderIdFormat()
    ensures StepOrderId(0, "bid") == "cx-s0-bid" && StepOrderId(12, "ask") == "cx-s12-ask"
  {
    assert Decimal.Render(12) == "12";
  }

  /** `runSequence`: stops early on a failed write or an ended context. */
  method RunSequence(steps: seq<Step>, session: Session) returns (passed: nat, failures: seq<Failure>)
    ensures var t := PlaySession(steps, session); passed == t.passed && |failures| == t.failed
  {
    hide Listen, Judge, JudgeFill, JudgeBook, Bit, Enough, StepOrderId;
    passed, failures := 0, [];
    if !session.dialOk {
      return 0, [Failure(0)];
    }
    var tagToId: map<string, string> := map[];
    assert tagToId.Keys == {};
    for i := 0 to |steps|
      invariant PlaySession(steps, session) == Tally(passed, |failures|).Plus(Play(steps, session.io, i, tagToId.Keys))
    {
      ghost var before := tagToId.Keys;
      var step, x := steps[i], session.io(i);
      if step.kind == CancelOrder {
        if step.cancelTag !in tagToId {
          failures := failures + [Failure(i)];
          continue;
        }
      } else {
        tagToId := tagToId[step.tag := StepOrderId(i, step.tag)];
        assert tagToId.Keys == before + {step.tag};
      }
      if !x.writeOk {
        failures := failures + [Failure(i)];
        return;
      }
      var seen := ReadReplies(step, x.readings);
      if seen.None? {
        failures := failures + [Failure(i)];
        return;
      }
      var p, f := CheckStep(i, step, seen.value, x.query);
      passed, failures := passed + p, failures + f;
    }
  }

  /** `Run`: all sequences, then the share of assertions that passed. */
  method Run(seqs: seq<seq<Step>>, env: nat -> Session) returns (passed: nat, failed: nat, score: real)
    ensures Tally(passed, failed) == PlayAll(seqs, env) && score == Score(PlayAll(seqs, env))
    ensures IsShare(score, Tally(passed, failed))
  {
    hide IsShare, Play;
    passed, failed := 0, 0;
    for k := 0 to |seqs|
      invariant Tally(passed, failed) == PlayAll(seqs[..k], env)
    {
      var p, f := RunSequence(seqs[k], env(k));
      assert seqs[..k + 1][..k] == seqs[..k];
      passed, failed := passed + p, failed + |f|;
    }
    assert seqs[..|seqs|] == seqs;
    if passed + failed == 0 {
      score := 1.0;
    } else {
      score := passed as real / (passed + failed) as real;
    }
    ShareOf(Tally(passed, failed));
  }

  // ---------- Soundness of the score for any engine ----------

  /** How many assertions a step makes when every one of them can be evaluated. */
  function Asserts(step: Step): nat {
    Bit(step.kind == CancelOrder)
    + (if step.expectFill then 1 + Bit(step.expectFillPrice > 0.0) + Bit(step.expectFillQty > 0) else 0)
    + Bit(step.expectReject) + Bit(step.expectBids >= 0) + Bit(step.expectAsks >= 0)
  }

  function TotalFrom(steps: seq<Step>, i: nat): nat
    requires i <= |steps|
    decreases |steps| - i
  {
    if i == |steps| then 0 else Asserts(steps[i]) + TotalFrom(steps, i + 1)
  }

  function TotalAll(seqs: seq<seq<Step>>): nat {
    if seqs == [] then 0 else TotalAll(seqs[..|seqs| - 1]) + TotalFrom(seqs[|seqs| - 1], 0)
  }

  /** Every step asserts something and there is at least one step. */
  predicate Testing(steps: seq<Step>) {
    steps != [] && forall i :: 0 <= i < |steps| ==> Asserts(steps[i]) >= 1
  }

  /** The tally never exceeds the assertions, is never empty, and has no failure exactly
      when every assertion passed. */
  ghost predicate Fair(t: Tally, total: nat) {
    t.passed + t.failed <= total && (t.failed == 0 ==> t.passed == total)
  }

  lemma FairPlus(a: Tally, m: nat, b: Tally, n: nat)
    requires Fair(a, m) && Fair(b, n)
    ensures Fair(a.Plus(b), m + n)
  {
  }

  lemma FillFair(step: Step, s: Seen)
    ensures Fair(JudgeFill(step, s), 1 + Bit(step.expectFillPrice > 0.0) + Bit(step.expectFillQty > 0))
    ensures JudgeFill(step, s).Sum() >= 1
  {
  }

  lemma BookFair(step: Step, query: Option<(int, int)>)
    ensures Fair(JudgeBook(step, query), Bit(step.expectBids >= 0) + Bit(step.expectAsks >= 0))
    ensures step.expectBids >= 0 || step.expectAsks >= 0 ==> JudgeBook(step, query).Sum() >= 1
  {
  }

  lemma JudgeFair(step: Step, s: Seen, query: Option<(int, int)>)
    ensures Fair(Judge(step, s, query), Asserts(step))
    ensures Asserts(step) >= 1 ==> Judge(step, s, query).Sum() >= 1
  {
    hide JudgeFill, JudgeBook;
    FillFair(step, s);
    BookFair(step, query);
  }

  lemma {:induction false} PlayFair(steps: seq<Step>, io: nat -> StepIO, i: nat, tags: set<string>)
    requires Testing(steps) && i <= |steps|
    ensures Fair(Play(steps, io, i, tags), TotalFrom(steps, i))
    ensures i < |steps| ==> Play(steps, io, i, tags).Sum() >= 1
    decreases |steps| - i
  {
    hide Judge, Listen, Asserts;
    if i < |steps| {
      var step, x := steps[i], io(i);
      assert Asserts(step) >= 1;
      var seen := Listen(step, x.readings, NOTHING);
      if step.kind == CancelOrder && step.cancelTag !in tags {
        PlayFair(steps, io, i + 1, tags);
      } else if x.writeOk && seen.Some? {
        var tags' := if step.kind == PlaceOrder then tags + {step.tag} else tags;
        PlayFair(steps, io, i + 1, tags');
        JudgeFair(step, seen.value, x.query);
        FairPlus(Judge(step, seen.value, x.query), Asserts(step),
                 Play(steps, io, i + 1, tags'), TotalFrom(steps, i + 1));
      }
    }
  }

  lemma {:induction false} TotalPositive(steps: seq<Step>)
    requires Testing(steps)
    ensures TotalFrom(steps, 0) >= 1
  {
  }

  lemma {:induction false} PlayAllFair(seqs: seq<seq<Step>>, env: nat -> Session)
    requires forall k :: 0 <= k < |seqs| ==> Testing(seqs[k])
    ensures Fair(PlayAll(seqs, env), TotalAll(seqs)) && PlayAll(seqs, env).Sum() >= |seqs|
  {
    if seqs != [] {
      var last := seqs[|seqs| - 1];
      PlayAllFair(seqs[..|seqs| - 1], env);
      TotalPositive(last);
      PlayFair(last, env(|seqs| - 1).io, 0, {});
      hide Play, TotalFrom, Testing;
      FairPlus(PlayAll(seqs[..|seqs| - 1], env), TotalAll(seqs[..|seqs| - 1]),
               PlaySession(last, env(|seqs| - 1)), TotalFrom(last, 0));
    }
  }

  /** For any sequences that test something and any engine: the score is the share of the
      counted assertions that passed, so in [0, 1], and it is 1 exactly when every assertion
      of every sequence passed. */
  lemma ScoreSound(seqs: seq<seq<Step>>, env: nat -> Session)
    requires seqs != [] && forall k :: 0 <= k < |seqs| ==> Testing(seqs[k])
    ensures var t := PlayAll(seqs, env);
            && |seqs| <= t.Sum() <= TotalAll(seqs)
            && IsShare(Score(t), t) && 0.0 <= Score(t) <= 1.0
            && (Score(t) == 1.0 <==> t.passed == TotalAll(seqs))
  {
    PlayAllFair(seqs, env);
    ShareOf(PlayAll(seqs, env));
    hide PlayAll, TotalAll, Score, IsShare;
  }

  /** One failure turned into a pass raises the score. */
  lemma EveryPassCounts(t: Tally)
    requires t.failed > 0
    ensures Score(Tally(t.passed + 1, t.failed - 1)) > Score(t)
  {
    var n := t.Sum() as real;
    ShareOf(t);
    ShareOf(Tally(t.passed + 1, t.failed - 1));
    var a, b := Score(Tally(t.passed + 1, t.failed - 1)), Score(t);
    assert (a - b) * n == 1.0;
  }

  lemma ShareOf(t: Tally)
    ensures IsShare(Score(t), t) && 0.0 <= Score(t) <= 1.0 && (Score(t) == 1.0 <==> t.failed == 0)
  {
    if t.Sum() > 0 {
      Ratio(t.passed as real, t.Sum() as real);
    }
  }

  lemma Ratio(p: real, n: real)
    requires 0.0 <= p <= n && n > 0.0
    ensures 0.0 <= p / n <= 1.0 && (p / n == 1.0 <==> p == n) && p / n * n == p
  {
    var q := p / n;
    assert q * n == p;
    assert n / n == 1.0;
  }

  // ---------- The shipped sequences ----------

  const BASE := 500.0

  function Limit(tag: string, side: string, price: real, qty: int, bids: int, asks: int): Step {
    Step(PlaceOrder, side, "limit", price, qty, tag, "", false, 0.0, 0, false, bids, asks)
  }

  function Filling(s: Step, price: real, qty: int): Step {
    s.(expectFill := true, expectFillPrice := price, expectFillQty := qty)
  }

  function Cancelling(tag: string): Step {
    Step(CancelOrder, "", "", 0.0, 0, "", tag, false, 0.0, 0, false, 0, 0)
  }

  const BASIC_MATCH := [
    Limit("bid", "buy", BASE, 10, 1, -1),
    Filling(Limit("ask", "sell", BASE, 10, 0, 0), BASE, 10)]

  const PRIORITY_FILL := [
    Limit("bid-lo", "buy", BASE, 5, 1, -1),
    Limit("bid-hi", "buy", BASE + 1.0, 5, 2, -1),
    Filling(Limit("sell", "sell", BASE, 10, 0, 0), BASE + 1.0, 0)]

  const PARTIAL_FILL := [
    Limit("bid", "buy", BASE + 10.0, 10, 1, -1),
    Filling(Limit("ask", "sell", BASE + 10.0, 3, 1, 0), BASE + 10.0, 3),
    Cancelling("bid")]

  const CANCEL_FLOW := [
    Limit("bid", "buy", BASE + 20.0, 10, 1, -1),
    Cancelling("bid"),
    Limit("ask", "sell", BASE + 20.0, 10, 0, 1),
    Cancelling("ask")]

  const REJECT_MARKET := [
    Step(PlaceOrder, "sell", "market", 0.0, 10, "mkt", "", false, 0.0, 0, true, 0, 0)]

  const SEQUENCES := [BASIC_MATCH, PRIORITY_FILL, PARTIAL_FILL, CANCEL_FLOW, REJECT_MARKET]

  lemma SequenceTotals()
    ensures TotalFrom(BASIC_MATCH, 0) == 6 && TotalFrom(PRIORITY_FILL, 0) == 6 && TotalFrom(PARTIAL_FILL, 0) == 9
    ensures TotalFrom(CANCEL_FLOW, 0) == 9 && TotalFrom(REJECT_MARKET, 0) == 3
    ensures forall k :: 0 <= k < |SEQUENCES| ==> Testing(SEQUENCES[k])
  {
    assert TotalFrom(BASIC_MATCH, 1) == 5;
    assert TotalFrom(PRIORITY_FILL, 2) == 4;
    assert TotalFrom(PRIORITY_FILL, 1) == 5;
    assert TotalFrom(PARTIAL_FILL, 2) == 3;
    assert TotalFrom(PARTIAL_FILL, 1) == 8;
    assert TotalFrom(CANCEL_FLOW, 3) == 3;
    assert TotalFrom(CANCEL_FLOW, 2) == 5;
    assert TotalFrom(CANCEL_FLOW, 1) == 8;
  }

  lemma ThirtyThree()
    ensures TotalAll(SEQUENCES) == 33
  {
    SequenceTotals();
    hide TotalFrom, BASIC_MATCH, PRIORITY_FILL, PARTIAL_FILL, CANCEL_FLOW, REJECT_MARKET;
    var s := SEQUENCES;
    assert TotalAll(s[..0]) == 0;
    assert s[..1][..0] == s[..0] && TotalAll(s[..1]) == 6;
    assert s[..2][..1] == s[..1] && TotalAll(s[..2]) == 12;
    assert s[..3][..2] == s[..2] && TotalAll(s[..3]) == 21;
    assert s[..4][..3] == s[..3] && TotalAll(s[..4]) == 30;
    assert s[..5] == s;
  }

  /** Whatever the engine replies, fails to reply or breaks: between 5 and 33 assertions
      are counted, the score is in [0, 1], and it is 1 exactly when all 33 passed. */
  lemma ShippedScoreSound(env: nat -> Session)
    ensures var t := PlayAll(SEQUENCES, env);
            && 5 <= t.Sum() <= 33 && IsShare(Score(t), t) && 0.0 <= Score(t) <= 1.0
            && (Score(t) == 1.0 <==> t.passed == 33)
  {
    SequenceTotals();
    ThirtyThree();
    hide Testing, TotalAll, PlayAll, TotalFrom, IsShare;
    ScoreSound(SEQUENCES, env);
  }
}
