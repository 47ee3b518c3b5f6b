/** The load bot: one writer, the readers of all its connections and a stale-order
    collector share the `pending` map and the in-flight counter. Every step below is one
    critical section, atomic operation or network call of `Bot.Run`. */
module LoadBot {
  import Decimal

  // ---------- Order ids ----------

  function OrderId(bot: nat, iteration: nat, tag: string): string {
    "b" + Decimal.Render(bot) + "-i" + Decimal.Render(iteration) + "-" + tag
  }

  /** A number and what follows its dash are read back from the text they start. */
  lemma NumberThenDash(m: nat, s: string, n: nat, t: string)
    requires Decimal.Render(m) + ['-'] + s == Decimal.Render(n) + ['-'] + t
    ensures m == n && s == t
  {
    hide Decimal.Render;
    Decimal.SplitAtNonDigit(Decimal.Render(m), '-', s, Decimal.Render(n), '-', t);
    Decimal.ParseRender(m);
    Decimal.ParseRender(n);
  }

  lemma OrderIdNested(b: nat, i: nat, tag: string)
    ensures OrderId(b, i, tag)
         == ['b'] + (Decimal.Render(b) + ['-'] + (['i'] + (Decimal.Render(i) + ['-'] + tag)))
  {
  }

  lemma TailsEqual(c: char, s: string, t: string)
    requires [c] + s == [c] + t
    ensures s == t
  {
    assert ([c] + s)[1..] == s && ([c] + t)[1..] == t;
  }

  /** Order ids are injective in bot, iteration and tag. */
  lemma OrderIdInjective(b: nat, i: nat, s: string, c: nat, j: nat, t: string)
    requires OrderId(b, i, s) == OrderId(c, j, t)
    ensures b == c && i == j && s == t
  {
    hide Decimal.Render, OrderId;
    OrderIdNested(b, i, s);
    OrderIdNested(c, j, t);
    var u, v := Decimal.Render(i) + ['-'] + s, Decimal.Render(j) + ['-'] + t;
    TailsEqual('b', Decimal.Render(b) + ['-'] + (['i'] + u), Decimal.Render(c) + ['-'] + (['i'] + v));
    NumberThenDash(b, ['i'] + u, c, ['i'] + v);
    TailsEqual('i', u, v);
    NumberThenDash(i, s, j, t);
  }

  lemma OrderIdFormat()
    ensures OrderId(3, 12, "bid1") == "b3-i12-bid1"
  {
    assert Decimal.Render(12) == "12";
  }

  // ---------- The protocol ----------

  datatype Template = Place(tag: string) | Cancel(tag: string)

  datatype Config = Config(bot: nat, templates: seq<Template>)

  /** Where the writer is. `i` is the index of the template it is working on. */
  datatype Writer =
    | Dialing                    // outer loop, no connection
    | Top                        // top of the writer loop
    | At(i: nat)                 // about to prepare template i
    | Waiting(i: nat, id: string) // backpressure loop for order id
    | Cleared(i: nat, id: string) // saw inFlight at most 20
    | Writing(i: nat)            // about to write to the connection
    | Stopped

  datatype Metrics = Metrics(ordersSent: int, acksRecv: int, fillsRecv: int, rejectsRecv: int, staleOrders: int)

  /** What happened, for the ledger: orders sent, matched acks, fills and rejects, orders
      closed by a full fill, a reject or a cancel ack, orders expired, ids sent again while
      still pending, and connection errors seen by the writer. */
  datatype Tally = Tally(
    sent: nat, acks: nat, fills: nat, rejects: nat, closed: nat, expired: nat, overwritten: nat,
    readErrors: nat, writeErrors: nat)

  datatype State = State(
    pending: map<string, int>, inFlight: int, m: Metrics, iteration: nat, tagToId: map<string, string>,
    writer: Writer, tally: Tally)

  datatype Reply =
    | Ack(id: string) | Fill(id: string, remaining: int) | Reject(id: string) | CancelAck(id: string)
    | Other(id: string)

  datatype Action =
    | Dial | ReadError | Continue   // top of the loops
    | Prepare                       // take the next template
    | Check                         // one look at inFlight
    | Send(now: int)                // register the order under the lock
    | WriteOk | WriteError
    | Receive(msg: Reply)           // a reader, under the lock
    | Expire(id: string, now: int)  // the collector drops one stale order
    | Stop

  const LIMIT := 20
  const STALE := 5_000_000_000

  const NONE := Tally(0, 0, 0, 0, 0, 0, 0, 0, 0)

  const INITIAL := State(map[], 0, Metrics(0, 0, 0, 0, 0), 0, map[], Dialing, NONE)

  function Close(s: State, id: string): State
    requires id in s.pending
  {
    s.(pending := s.pending - {id}, inFlight := s.inFlight - 1)
  }

  function OnReply(s: State, msg: Reply): State {
    if msg.id !in s.pending then s
    else match msg
      case Ack(_) => s.(m := s.m.(acksRecv := s.m.acksRecv + 2), tally := s.tally.(acks := s.tally.acks + 1))
      case Fill(id, remaining) =>
        var t := s.(m := s.m.(fillsRecv := s.m.fillsRecv + 2), tally := s.tally.(fills := s.tally.fills + 1));
        if remaining == 0 then Close(t, id).(tally := t.tally.(closed := t.tally.closed + 1)) else t
      case Reject(id) =>
        Close(s, id).(m := s.m.(rejectsRecv := s.m.rejectsRecv + 1),
                      tally := s.tally.(closed := s.tally.closed + 1, rejects := s.tally.rejects + 1))
      case CancelAck(id) => Close(s, id).(tally := s.tally.(closed := s.tally.closed + 1))
      case Other(_) => s
  }

  function OnPrepare(c: Config, s: State): State
    requires s.writer.At?
  {
    var i := s.writer.i;
    if i >= |c.templates| then s.(iteration := s.iteration + 1, writer := Top)
    else match c.templates[i]
      case Cancel(tag) => if tag in s.tagToId then s.(writer := Writing(i)) else s.(writer := At(i + 1))
      case Place(tag) =>
        var id := OrderId(c.bot, s.iteration, tag);
        s.(tagToId := s.tagToId[tag := id], writer := Waiting(i, id))
  }

  function OnSend(s: State, now: int): State
    requires s.writer.Cleared?
  {
    var id := s.writer.id;
    State(s.pending[id := now], s.inFlight + 1, s.m.(ordersSent := s.m.ordersSent + 1), s.iteration, s.tagToId,
          Writing(s.writer.i),
          s.tally.(sent := s.tally.sent + 1,
                   overwritten := s.tally.overwritten + (if id in s.pending then 1 else 0)))
  }

  /** One step; a step whose thread is elsewhere changes nothing. */
  function Next(c: Config, s: State, a: Action): State {
    match a
    case Dial => if s.writer.Dialing? then s.(writer := Top) else s
    case ReadError =>
      if s.writer.Top? then
        s.(writer := Dialing, m := s.m.(staleOrders := s.m.staleOrders + 1),
           tally := s.tally.(readErrors := s.tally.readErrors + 1))
      else s
    case Continue => if s.writer.Top? then s.(writer := At(0)) else s
    case Prepare => if s.writer.At? then OnPrepare(c, s) else s
    case Check =>
      if s.writer.Waiting? && s.inFlight <= LIMIT then s.(writer := Cleared(s.writer.i, s.writer.id)) else s
    case Send(now) => if s.writer.Cleared? then OnSend(s, now) else s
    case WriteOk => if s.writer.Writing? then s.(writer := At(s.writer.i + 1)) else s
    case WriteError =>
      if s.writer.Writing? then
        s.(writer := Dialing, m := s.m.(staleOrders := s.m.staleOrders + 1),
           tally := s.tally.(writeErrors := s.tally.writeErrors + 1))
      else s
    case Receive(msg) => OnReply(s, msg)
    case Expire(id, now) =>
      if id in s.pending && now - s.pending[id] > STALE then
        Close(s, id).(m := s.m.(staleOrders := s.m.staleOrders + 1),
                      tally := s.tally.(expired := s.tally.expired + 1))
      else s
    case Stop => s.(writer := Stopped)
  }

  function Run(c: Config, actions: seq<Action>): State {
    if actions == [] then INITIAL else Next(c, Run(c, actions[..|actions| - 1]), actions[|actions| - 1])
  }

  /** The replies that end an order: a fill with nothing remaining, a reject, a cancel ack. */
  predicate Final(msg: Reply) { msg.Reject? || msg.CancelAck? || (msg.Fill? && msg.remaining == 0) }

  /** A reply closes exactly the pending order it is final for, and frees its slot. */
  lemma ReplyEffect(s: State, msg: Reply)
    ensures var r := OnReply(s, msg);
            && r.pending == (if Final(msg) then s.pending - {msg.id} else s.pending)
            && r.inFlight == s.inFlight - (if Final(msg) && msg.id in s.pending then 1 else 0)
            && r.writer == s.writer && r.iteration == s.iteration && r.tagToId == s.tagToId
  {
    assert msg.id !in s.pending ==> s.pending - {msg.id} == s.pending;
  }

  // ---------- Accounting ----------

  ghost predicate Ledger(s: State) {
    && s.inFlight == |s.pending| + s.tally.overwritten
    && s.m.ordersSent == s.tally.sent && s.m.rejectsRecv == s.tally.rejects
    && s.m.ordersSent == |s.pending| + s.tally.closed + s.tally.expired + s.tally.overwritten
    && s.m.staleOrders == s.tally.expired + s.tally.readErrors + s.tally.writeErrors
    && s.m.acksRecv == 2 * s.tally.acks && s.m.fillsRecv == 2 * s.tally.fills
  }

  ghost predicate Bounded(s: State) {
    && s.inFlight <= LIMIT + 1 && s.tally.overwritten <= LIMIT
    && (s.writer.Cleared? ==> s.inFlight <= LIMIT)
  }

  lemma ReplyKeepsLedger(s: State, msg: Reply)
    requires Ledger(s) && Bounded(s)
    ensures Ledger(OnReply(s, msg)) && Bounded(OnReply(s, msg))
  {
  }

  lemma SendKeepsLedger(s: State, now: int)
    requires Ledger(s) && Bounded(s) && s.writer.Cleared?
    ensures Ledger(OnSend(s, now)) && Bounded(OnSend(s, now))
  {
  }

  lemma ExpireKeepsLedger(c: Config, s: State, id: string, now: int)
    requires Ledger(s) && Bounded(s)
    ensures Ledger(Next(c, s, Expire(id, now))) && Bounded(Next(c, s, Expire(id, now)))
  {
  }

  lemma PrepareKeepsLedger(c: Config, s: State)
    requires Ledger(s) && Bounded(s) && s.writer.At?
    ensures Ledger(OnPrepare(c, s)) && Bounded(OnPrepare(c, s))
  {
    hide OrderId;
  }

  lemma NextKeepsLedger(c: Config, s: State, a: Action)
    requires Ledger(s) && Bounded(s)
    ensures Ledger(Next(c, s, a)) && Bounded(Next(c, s, a))
  {
    hide OnReply, OnSend, OnPrepare, Close;
    match a
    case Send(now) =>
      if s.writer.Cleared? {
        SendKeepsLedger(s, now);
      }
    case Prepare =>
      if s.writer.At? {
        PrepareKeepsLedger(c, s);
      }
    case Receive(msg) => ReplyKeepsLedger(s, msg);
    case Expire(id, now) => ExpireKeepsLedger(c, s, id, now);
    case _ =>
  }

  lemma {:induction false} RunKeepsLedger(c: Config, actions: seq<Action>)
    ensures Ledger(Run(c, actions)) && Bounded(Run(c, actions))
  {
    if actions != [] {
      RunKeepsLedger(c, actions[..|actions| - 1]);
      NextKeepsLedger(c, Run(c, actions[..|actions| - 1]), actions[|actions| - 1]);
    }
  }

  /** One round of the collector: it visits the pending orders in any order and expires
      the stale ones, so exactly the fresh ones stay pending. */
  method Collect(c: Config, s: State, now: int) returns (r: State)
    requires Ledger(s) && Bounded(s)
    ensures Ledger(r) && Bounded(r) && r.writer == s.writer && r.tally.overwritten == s.tally.overwritten
    ensures r.pending == map id | id in s.pending && now - s.pending[id] <= 5_000_000_000 :: s.pending[id]
    ensures r.inFlight == s.inFlight - (|s.pending| - |r.pending|)
    ensures r.m.staleOrders == s.m.staleOrders + (|s.pending| - |r.pending|)
  {
    r := s;
    var todo := s.pending.Keys;
    while todo != {}
      invariant todo <= s.pending.Keys
      invariant Ledger(r) && Bounded(r) && r.writer == s.writer
      invariant r.tally == s.tally.(expired := r.tally.expired)
      invariant r.pending == map id | id in s.pending && (id in todo || now - s.pending[id] <= STALE) :: s.pending[id]
      invariant r.inFlight - |r.pending| == s.inFlight - |s.pending|
      invariant r.m.staleOrders + |r.pending| == s.m.staleOrders + |s.pending|
    {
      var id :| id in todo;
      todo := todo - {id};
      NextKeepsLedger(c, r, Expire(id, now));
      r := Next(c, r, Expire(id, now));
    }
  }

  // ---------- How many ids are sent again while pending ----------

  /** Order steps of one iteration carry distinct tags. */
  predicate DistinctTags(templates: seq<Template>) {
    forall i, j :: 0 <= i < j < |templates| && templates[i].Place? && templates[j].Place? ==>
      templates[i].tag != templates[j].tag
  }

  /** `id` was made for an earlier iteration, or for a template before `i` of this one. */
  ghost predicate MadeBefore(c: Config, id: string, iteration: nat, i: nat) {
    exists it: nat, j: nat :: Made(c, id, it, j) && (it < iteration || (it == iteration && j < i))
  }

  ghost predicate Made(c: Config, id: string, it: nat, j: nat) {
    j < |c.templates| && c.templates[j].Place? && id == OrderId(c.bot, it, c.templates[j].tag)
  }

  /** How many templates of this iteration may already have an order pending. */
  function Progress(w: Writer): nat {
    match w
    case At(i) => i
    case Waiting(i, _) => i
    case Cleared(i, _) => i
    case Writing(i) => i + 1
    case _ => 0
  }

  /** Order steps among the first n templates. */
  function Places(templates: seq<Template>, n: nat): nat
    requires n <= |templates|
  {
    if n == 0 then 0 else Places(templates, n - 1) + (if templates[n - 1].Place? then 1 else 0)
  }

  ghost predicate AllMade(c: Config, s: State, iteration: nat, i: nat) {
    forall id :: id in s.pending ==> MadeBefore(c, id, iteration, i)
  }

  /** The first pass over the templates of an iteration: no id of it is pending ahead of time. */
  ghost predicate FirstPass(c: Config, s: State) {
    && s.tally.overwritten <= s.tally.writeErrors * Places(c.templates, |c.templates|)
    && AllMade(c, s, s.iteration, Progress(s.writer))
  }

  /** A pass repeated after a failed write: its ids so far may all have been pending. */
  ghost predicate Repeated(c: Config, s: State) {
    && s.tally.writeErrors >= 1 && Progress(s.writer) <= |c.templates|
    && s.tally.overwritten
       <= (s.tally.writeErrors - 1) * Places(c.templates, |c.templates|) + Places(c.templates, Progress(s.writer))
    && AllMade(c, s, s.iteration + 1, 0)
  }

  ghost predicate WriterOk(c: Config, s: State) {
    && (s.writer.Waiting? || s.writer.Cleared? ==> Made(c, s.writer.id, s.iteration, s.writer.i))
    && Progress(s.writer) <= |c.templates|
  }

  /** Each failed write costs at most one slot per order step. */
  ghost predicate Paced(c: Config, s: State) {
    && WriterOk(c, s)
    && s.tally.overwritten <= s.tally.writeErrors * Places(c.templates, |c.templates|)
    && (!s.writer.Stopped? ==> FirstPass(c, s) || Repeated(c, s))
  }

  lemma NotMadeBefore(c: Config, id: string, iteration: nat, i: nat)
    requires DistinctTags(c.templates) && Made(c, id, iteration, i)
    ensures !MadeBefore(c, id, iteration, i)
  {
    if MadeBefore(c, id, iteration, i) {
      var it: nat, j: nat :| Made(c, id, it, j) && (it < iteration || (it == iteration && j < i));
      OrderIdInjective(c.bot, iteration, c.templates[i].tag, c.bot, it, c.templates[j].tag);
    }
  }

  lemma MadeEarlier(c: Config, id: string, iteration: nat, i: nat, iteration': nat, i': nat)
    requires MadeBefore(c, id, iteration, i)
    requires iteration < iteration' || (iteration == iteration' && i <= i')
    ensures MadeBefore(c, id, iteration', i')
  {
  }

  lemma JustMade(c: Config, id: string, iteration: nat, i: nat)
    requires Made(c, id, iteration, i)
    ensures MadeBefore(c, id, iteration, i + 1)
  {
  }

  lemma ReplyOnlyCloses(s: State, msg: Reply)
    ensures var r := OnReply(s, msg);
            && r.pending.Keys <= s.pending.Keys && r.writer == s.writer && r.iteration == s.iteration
            && r.tally.overwritten == s.tally.overwritten && r.tally.writeErrors == s.tally.writeErrors
  {
  }

  lemma {:induction false} PlacesGrow(templates: seq<Template>, n: nat, m: nat)
    requires n <= m <= |templates|
    ensures Places(templates, n) <= Places(templates, m)
  {
    if n < m {
      PlacesGrow(templates, n, m - 1);
    }
  }

  lemma AllMadeLater(c: Config, s: State, r: State, it: nat, i: nat, it': nat, i': nat)
    requires AllMade(c, s, it, i) && r.pending.Keys <= s.pending.Keys
    requires it < it' || (it == it' && i <= i')
    ensures AllMade(c, r, it', i')
  {
    hide MadeBefore;
    forall id | id in r.pending
      ensures MadeBefore(c, id, it', i')
    {
      MadeEarlier(c, id, it, i, it', i');
    }
  }

  /** Threads that only close orders, or move the writer within its pass. */
  lemma QuietPaced(c: Config, s: State, r: State)
    requires Paced(c, s) && WriterOk(c, r) && r.pending.Keys <= s.pending.Keys && r.iteration == s.iteration
    requires r.tally.overwritten == s.tally.overwritten && r.tally.writeErrors == s.tally.writeErrors
    requires s.writer.Stopped? ==> r.writer.Stopped?
    requires !r.writer.Stopped? ==> Progress(s.writer) <= Progress(r.writer)
    ensures Paced(c, r)
  {
    hide MadeBefore, Made, AllMade;
    if !r.writer.Stopped? {
      PlacesGrow(c.templates, Progress(s.writer), Progress(r.writer));
      if FirstPass(c, s) {
        AllMadeLater(c, s, r, s.iteration, Progress(s.writer), r.iteration, Progress(r.writer));
      } else {
        AllMadeLater(c, s, r, s.iteration + 1, 0, r.iteration + 1, 0);
      }
    }
  }

  lemma PlacesStep(c: Config, id: string, it: nat, i: nat)
    requires Made(c, id, it, i)
    ensures i < |c.templates| && Places(c.templates, i + 1) == Places(c.templates, i) + 1
  {
    hide OrderId;
  }

  lemma AllMadeWith(c: Config, s: State, r: State, id: string, it: nat, i: nat)
    requires AllMade(c, s, it, i) && MadeBefore(c, id, it, i) && r.pending.Keys == s.pending.Keys + {id}
    ensures AllMade(c, r, it, i)
  {
    hide MadeBefore;
  }

  lemma SendPaced(c: Config, s: State, now: int)
    requires DistinctTags(c.templates) && Paced(c, s) && s.writer.Cleared?
    ensures Paced(c, OnSend(s, now))
  {
    hide OrderId, MadeBefore, Made, Places, AllMade, DistinctTags;
    var r, i, id := OnSend(s, now), s.writer.i, s.writer.id;
    PlacesStep(c, id, s.iteration, i);
    PlacesGrow(c.templates, i + 1, |c.templates|);
    JustMade(c, id, s.iteration, i);
    if FirstPass(c, s) {
      NotMadeBefore(c, id, s.iteration, i);
      NotPending(c, s, id);
      AllMadeLater(c, s, s, s.iteration, i, s.iteration, i + 1);
      AllMadeWith(c, s, r, id, s.iteration, i + 1);
    } else {
      MadeEarlier(c, id, s.iteration, i + 1, s.iteration + 1, 0);
      AllMadeWith(c, s, r, id, s.iteration + 1, 0);
      var p := Places(c.templates, |c.templates|);
      assert s.tally.writeErrors * p == (s.tally.writeErrors - 1) * p + p;
    }
  }

  lemma NotPending(c: Config, s: State, id: string)
    requires AllMade(c, s, s.iteration, Progress(s.writer)) && !MadeBefore(c, id, s.iteration, Progress(s.writer))
    ensures id !in s.pending
  {
    hide MadeBefore;
  }

  /** A failed write sends the writer back to the first template of the same iteration. */
  lemma WriteErrorPaced(c: Config, s: State)
    requires Paced(c, s) && s.writer.Writing?
    ensures Paced(c, Next(c, s, WriteError))
  {
    hide MadeBefore, Made, AllMade;
    var r, p := Next(c, s, WriteError), Places(c.templates, |c.templates|);
    PlacesGrow(c.templates, Progress(s.writer), |c.templates|);
    assert (s.tally.writeErrors + 1) * p == s.tally.writeErrors * p + p;
    if FirstPass(c, s) {
      AllMadeLater(c, s, r, s.iteration, Progress(s.writer), s.iteration + 1, 0);
    } else {
      AllMadeLater(c, s, r, s.iteration + 1, 0, s.iteration + 1, 0);
    }
  }

  lemma PreparePaced(c: Config, s: State)
    requires Paced(c, s) && s.writer.At?
    ensures Paced(c, OnPrepare(c, s))
  {
    hide OrderId;
    var r := OnPrepare(c, s);
    if s.writer.i >= |c.templates| {
      hide MadeBefore, Made, AllMade;
      if FirstPass(c, s) {
        AllMadeLater(c, s, r, s.iteration, Progress(s.writer), r.iteration, 0);
      } else {
        AllMadeLater(c, s, r, s.iteration + 1, 0, r.iteration, 0);
      }
    } else {
      assert r.writer.Waiting? ==> Made(c, r.writer.id, r.iteration, r.writer.i);
      hide MadeBefore, Made, AllMade;
      QuietPaced(c, s, r);
    }
  }

  lemma NextPaced(c: Config, s: State, a: Action)
    requires DistinctTags(c.templates) && Paced(c, s)
    ensures Paced(c, Next(c, s, a))
  {
    hide Made, FirstPass, Repeated, OnReply, OnSend, OnPrepare;
    match a
    case Send(now) =>
      if s.writer.Cleared? {
        SendPaced(c, s, now);
      }
    case Prepare =>
      if s.writer.At? {
        PreparePaced(c, s);
      }
    case WriteError =>
      if s.writer.Writing? {
        WriteErrorPaced(c, s);
      }
    case Receive(msg) =>
      ReplyOnlyCloses(s, msg);
      QuietPaced(c, s, OnReply(s, msg));
    case _ => QuietPaced(c, s, Next(c, s, a));
  }

  lemma {:induction false} RunPaced(c: Config, actions: seq<Action>)
    requires DistinctTags(c.templates)
    ensures Paced(c, Run(c, actions))
  {
    if actions != [] {
      RunPaced(c, actions[..|actions| - 1]);
      NextPaced(c, Run(c, actions[..|actions| - 1]), actions[|actions| - 1]);
    }
  }

  /** A leaked slot is never given back. */
  lemma {:induction false} GapNeverCloses(c: Config, actions: seq<Action>, k: nat)
    requires k <= |actions|
    ensures Run(c, actions[..k]).tally.overwritten <= Run(c, actions).tally.overwritten
  {
    if k == |actions| {
      assert actions[..k] == actions;
    } else {
      var front, a := actions[..|actions| - 1], actions[|actions| - 1];
      GapNeverCloses(c, front, k);
      assert front[..k] == actions[..k];
      hide OnReply, OrderId;
      if a.Receive? {
        ReplyOnlyCloses(Run(c, front), a.msg);
      }
    }
  }

  // ---------- The whole account, over every interleaving ----------

  /** A reply to a pending order, as an observer counts it. */
  function ObserveReply(o: Tally, msg: Reply): Tally {
    match msg
    case Ack(_) => o.(acks := o.acks + 1)
    case Fill(_, remaining) => o.(fills := o.fills + 1, closed := o.closed + (if remaining == 0 then 1 else 0))
    case Reject(_) => o.(rejects := o.rejects + 1, closed := o.closed + 1)
    case CancelAck(_) => o.(closed := o.closed + 1)
    case Other(_) => o
  }

  /** What an observer sees in one step, from the state it is taken in alone. */
  function Observe(o: Tally, s: State, a: Action): Tally {
    match a
    case Receive(msg) => if msg.id in s.pending then ObserveReply(o, msg) else o
    case Send(_) =>
      if !s.writer.Cleared? then o
      else o.(sent := o.sent + 1, overwritten := o.overwritten + (if s.writer.id in s.pending then 1 else 0))
    case Expire(id, now) =>
      if id in s.pending && now - s.pending[id] > 5_000_000_000 then o.(expired := o.expired + 1) else o
    case ReadError => if s.writer.Top? then o.(readErrors := o.readErrors + 1) else o
    case WriteError => if s.writer.Writing? then o.(writeErrors := o.writeErrors + 1) else o
    case _ => o
  }

  function Observed(c: Config, actions: seq<Action>): Tally {
    if actions == [] then NONE
    else Observe(Observed(c, actions[..|actions| - 1]), Run(c, actions[..|actions| - 1]), actions[|actions| - 1])
  }

  lemma StepObserved(c: Config, s: State, a: Action)
    ensures Next(c, s, a).tally == Observe(s.tally, s, a)
  {
    hide OrderId;
  }

  lemma {:induction false} TallyIsObserved(c: Config, actions: seq<Action>)
    ensures Run(c, actions).tally == Observed(c, actions)
  {
    if actions != [] {
      TallyIsObserved(c, actions[..|actions| - 1]);
      hide Next, Observe;
      StepObserved(c, Run(c, actions[..|actions| - 1]), actions[|actions| - 1]);
    }
  }

  /** In-flight slots that no pending order stands for. */
  function Gap(s: State): int { s.inFlight - |s.pending| }

  /** In-flight accounting over every interleaving: the counter never drops below the
      number of pending orders nor rises above 21; the gap between them is exactly the
      number of ids sent again while still pending, never shrinks, and never exceeds 20, so
      backpressure always lets an order through once nothing is pending. With distinct tags
      each failed write costs at most one slot per order step, and a run without a failed
      write has no gap. */
  lemma InFlightAccounting(c: Config, actions: seq<Action>)
    ensures var s, o := Run(c, actions), Observed(c, actions);
            && 0 <= |s.pending| <= s.inFlight <= 21
            && Gap(s) == o.overwritten <= 20 && (|s.pending| == 0 ==> s.inFlight <= 20)
            && (DistinctTags(c.templates) ==> Gap(s) <= o.writeErrors * Places(c.templates, |c.templates|))
            && (DistinctTags(c.templates) && o.writeErrors == 0 ==> Gap(s) == 0)
            && (forall k :: 0 <= k <= |actions| ==> Gap(Run(c, actions[..k])) <= Gap(s))
  {
    hide Run, Places, FirstPass, Repeated, WriterOk, DistinctTags, Observed;
    TallyIsObserved(c, actions);
    RunKeepsLedger(c, actions);
    if DistinctTags(c.templates) {
      RunPaced(c, actions);
    }
    forall k | 0 <= k <= |actions|
      ensures Gap(Run(c, actions[..k])) <= Gap(Run(c, actions))
    {
      RunKeepsLedger(c, actions[..k]);
      GapNeverCloses(c, actions, k);
    }
  }

  /** The ledger over every interleaving: each order sent is pending, closed, expired or
      was overwritten; stale orders are expirations plus connection errors; every matched
      ack and fill is counted twice, every order sent and every matched reject once. */
  lemma OrderLedger(c: Config, actions: seq<Action>)
    ensures var s, o := Run(c, actions), Observed(c, actions);
            && s.m.ordersSent == o.sent == |s.pending| + o.closed + o.expired + o.overwritten
            && s.m.staleOrders == o.expired + o.readErrors + o.writeErrors
            && s.m.acksRecv == 2 * o.acks && s.m.fillsRecv == 2 * o.fills && s.m.rejectsRecv == o.rejects
  {
    TallyIsObserved(c, actions);
    RunKeepsLedger(c, actions);
  }

  /** Backpressure: a look at the counter lets a waiting order through exactly when at most
      20 orders are in flight. */
  lemma CheckDecides(c: Config, s: State)
    requires s.writer.Waiting?
    ensures s.inFlight > 20 ==> Next(c, s, Check) == s
    ensures s.inFlight <= 20 ==> Next(c, s, Check) == s.(writer := Cleared(s.writer.i, s.writer.id))
  {
  }

  lemma RunSnoc(c: Config, actions: seq<Action>, a: Action)
    ensures Run(c, actions + [a]) == Next(c, Run(c, actions), a)
  {
  }

  const ATTEMPT: seq<Action> := [Dial, Continue, Prepare, Check, Send(0)]

  /** Connecting and sending the first order of the iteration. */
  lemma AttemptSends(c: Config, before: seq<Action>)
    requires c.templates != [] && c.templates[0].Place?
    requires var s := Run(c, before); s.writer.Dialing? && s.inFlight <= LIMIT
    ensures var s, r := Run(c, before), Run(c, before + ATTEMPT);
            && r.writer == Writing(0) && r.iteration == s.iteration && r.inFlight == s.inFlight + 1
            && r.pending == s.pending[OrderId(c.bot, s.iteration, c.templates[0].tag) := 0]
  {
    hide OrderId, Run, OnReply;
    RunSnoc(c, before, Dial);
    RunSnoc(c, before + [Dial], Continue);
    RunSnoc(c, before + [Dial] + [Continue], Prepare);
    RunSnoc(c, before + [Dial] + [Continue] + [Prepare], Check);
    RunSnoc(c, before + [Dial] + [Continue] + [Prepare] + [Check], Send(0));
    assert before + ATTEMPT == before + [Dial] + [Continue] + [Prepare] + [Check] + [Send(0)];
  }

  /** One failed write is enough for a gap: the same id is sent again after the reconnect,
      is pending once and counted twice. */
  lemma GapAfterFailedWrite()
    ensures var s := Run(Config(0, BASIC_MATCH), ATTEMPT + [WriteError] + ATTEMPT);
            |s.pending| == 1 && s.inFlight == 2
  {
    var c := Config(0, BASIC_MATCH);
    RunNothing(c);
    hide OrderId, Run, OnReply;
    AttemptSends(c, []);
    assert [] + ATTEMPT == ATTEMPT;
    RunSnoc(c, ATTEMPT, WriteError);
    AttemptSends(c, ATTEMPT + [WriteError]);
    var id := OrderId(0, 0, "bid1");
    assert Run(c, ATTEMPT + [WriteError] + ATTEMPT).pending == map[id := 0];
  }

  lemma RunNothing(c: Config)
    ensures Run(c, []) == INITIAL
  {
  }

  /** The first order of an iteration sent n times, each write failing. */
  function Retries(n: nat): seq<Action> {
    if n == 0 then [] else Retries(n - 1) + ATTEMPT + [WriteError]
  }

  /** The bounds are reached: the writer can have 21 orders in flight, 20 of them slots that
      no pending order stands for. */
  lemma {:induction false} BoundsReached(c: Config, n: nat)
    requires c.templates != [] && c.templates[0].Place? && n <= 21
    ensures var s := Run(c, Retries(n));
            && s.writer.Dialing? && s.iteration == 0 && s.inFlight == n
            && s.pending == (if n == 0 then map[] else map[OrderId(c.bot, 0, c.templates[0].tag) := 0])
            && (n == 21 ==> Gap(s) == 20)
  {
    hide OrderId, Run, OnReply;
    if n == 0 {
      RunNothing(c);
    } else {
      BoundsReached(c, n - 1);
      AttemptSends(c, Retries(n - 1));
      RunSnoc(c, Retries(n - 1) + ATTEMPT, WriteError);
      assert |map[OrderId(c.bot, 0, c.templates[0].tag) := 0]| == 1;
    }
  }

  /** A connection error sends the writer back to dialing; orders, ids and the iteration stay,
      and the next dial starts the iteration over. */
  lemma ConnectionLost(c: Config, s: State, a: Action)
    requires (a.ReadError? && s.writer.Top?) || (a.WriteError? && s.writer.Writing?)
    ensures var r := Next(c, s, a);
            && r.writer == Dialing && r.pending == s.pending && r.inFlight == s.inFlight
            && r.iteration == s.iteration && r.tagToId == s.tagToId
            && Next(c, Next(c, r, Dial), Continue).writer == At(0)
  {
  }

  /** A cancel is written exactly when an order with its tag was made before, which an order
      step sees to. */
  lemma CancelFollowsOrder(c: Config, s: State)
    requires s.writer.At? && s.writer.i < |c.templates|
    ensures var r, t := Next(c, s, Prepare), c.templates[s.writer.i];
            if t.Place? then
              && r.writer == Waiting(s.writer.i, OrderId(c.bot, s.iteration, t.tag))
              && t.tag in r.tagToId && r.tagToId[t.tag] == OrderId(c.bot, s.iteration, t.tag)
            else if t.tag in s.tagToId then r == s.(writer := Writing(s.writer.i))
            else r == s.(writer := At(s.writer.i + 1))
  {
  }

  // ---------- One iteration without failures ----------

  function PassFrom(c: Config, i: nat): seq<Action>
    requires i <= |c.templates|
    decreases |c.templates| - i
  {
    if i == |c.templates| then [Prepare]
    else (if c.templates[i].Place? then [Prepare, Check, Send(0), WriteOk] else [Prepare, WriteOk]) + PassFrom(c, i + 1)
  }

  function IdsFrom(c: Config, iteration: nat, i: nat): set<string> {
    set j | i <= j < |c.templates| && c.templates[j].Place? :: OrderId(c.bot, iteration, c.templates[j].tag)
  }

  lemma RunFour(c: Config, before: seq<Action>, a: Action, b: Action, d: Action, e: Action)
    ensures Run(c, before + [a, b]) == Next(c, Next(c, Run(c, before), a), b)
    ensures Run(c, before + [a, b, d, e])
         == Next(c, Next(c, Next(c, Next(c, Run(c, before), a), b), d), e)
  {
    hide Next;
    RunSnoc(c, before, a);
    RunSnoc(c, before + [a], b);
    RunSnoc(c, before + [a] + [b], d);
    RunSnoc(c, before + [a] + [b] + [d], e);
    assert before + [a] + [b] == before + [a, b];
    assert before + [a] + [b] + [d] + [e] == before + [a, b, d, e];
  }

  lemma TemplateSends(c: Config, before: seq<Action>, i: nat)
    requires i < |c.templates| && Run(c, before).writer == At(i)
    requires c.templates[i].Place? ==> Run(c, before).inFlight <= 20
    ensures var s := Run(c, before);
            if c.templates[i].Place? then
              var r := Run(c, before + [Prepare, Check, Send(0), WriteOk]);
              && r.writer == At(i + 1) && r.iteration == s.iteration && r.inFlight == s.inFlight + 1
              && r.m.ordersSent == s.m.ordersSent + 1
              && r.pending == s.pending[OrderId(c.bot, s.iteration, c.templates[i].tag) := 0]
            else
              Run(c, before + [Prepare, WriteOk]) == s.(writer := At(i + 1))
  {
    hide OrderId, OnReply, Run;
    RunFour(c, before, Prepare, Check, Send(0), WriteOk);
    RunFour(c, before, Prepare, WriteOk, WriteOk, WriteOk);
  }

  /** With slots to spare the writer sends every order of an iteration, once and in order,
      and goes on to the next iteration. */
  lemma {:induction false} IterationSends(c: Config, before: seq<Action>, i: nat)
    requires i <= |c.templates| && Run(c, before).writer == At(i)
    requires Run(c, before).inFlight + Places(c.templates, |c.templates|) - Places(c.templates, i) <= 21
    ensures var s, r, k := Run(c, before), Run(c, before + PassFrom(c, i)),
                           Places(c.templates, |c.templates|) - Places(c.templates, i);
            && r.writer == Top && r.iteration == s.iteration + 1 && r.inFlight == s.inFlight + k
            && r.m.ordersSent == s.m.ordersSent + k && r.pending.Keys == s.pending.Keys + IdsFrom(c, s.iteration, i)
    decreases |c.templates| - i
  {
    hide OrderId, OnReply, Run;
    if i == |c.templates| {
      RunSnoc(c, before, Prepare);
      assert IdsFrom(c, Run(c, before).iteration, i) == {};
    } else {
      PlacesGrow(c.templates, i + 1, |c.templates|);
      TemplateSends(c, before, i);
      var head := if c.templates[i].Place? then [Prepare, Check, Send(0), WriteOk] else [Prepare, WriteOk];
      IterationSends(c, before + head, i + 1);
      assert before + head + PassFrom(c, i + 1) == before + PassFrom(c, i);
      IdsSplit(c, Run(c, before).iteration, i);
    }
  }

  lemma IdsSplit(c: Config, iteration: nat, i: nat)
    requires i < |c.templates|
    ensures IdsFrom(c, iteration, i) == IdsFrom(c, iteration, i + 1) +
            if c.templates[i].Place? then {OrderId(c.bot, iteration, c.templates[i].tag)} else {}
  {
    hide OrderId;
  }

  // ---------- The load sequences ----------

  const BASIC_MATCH := [Place("bid1"), Place("ask1")]
  const PARTIAL_FILL_LADDER := [Place("bid-0"), Place("bid-1"), Place("bid-2"), Place("sweep")]
  const CANCEL_CORRECTNESS := [Place("resting"), Cancel("resting"), Place("probe"), Cancel("probe")]

  /** Each load sequence tags its orders distinctly, so a load bot leaks at most four
      in-flight slots per failed write (two where it places two orders), and none without. */
  lemma LoadSequencesLeak(bot: nat, templates: seq<Template>, actions: seq<Action>)
    requires templates in {BASIC_MATCH, PARTIAL_FILL_LADDER, CANCEL_CORRECTNESS}
    ensures var c := Config(bot, templates);
            Gap(Run(c, actions))
            <= Observed(c, actions).writeErrors * if templates == PARTIAL_FILL_LADDER then 4 else 2
  {
    hide Run;
    InFlightAccounting(Config(bot, templates), actions);
    var n, ladder := |templates|, templates == PARTIAL_FILL_LADDER;
    assert Places(templates, 2) == if n == 2 || ladder then 2 else 1;
    assert n > 2 ==> Places(templates, 3) == if ladder then 3 else 2;
    assert Places(templates, n) == if ladder then 4 else 2;
  }
}
