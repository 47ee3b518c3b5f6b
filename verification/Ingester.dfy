/** The ingester's event buffer: handlers append under a lock, one flush loop copies the
    buffer out, reuses its backing array, and writes the copy with up to three attempts. */
module Ingester {
  import opened Options
  import opened Scoring
  import opened ScoreTable

  // ---------- The buffer in memory ----------

  class Buffer {
    var backing: array<Scored>
    var count: nat

    ghost predicate Valid()
      reads this
    {
      count <= backing.Length
    }

    function Contents(): seq<Scored>
      reads this, backing
      requires Valid()
    {
      backing[..count]
    }

    constructor (capacity: nat)
      ensures Valid() && Contents() == [] && fresh(backing)
    {
      backing := new Scored[capacity];
      count := 0;
    }

    /** `append` under the lock: in place while there is room, else in a larger array. */
    method Append(e: Scored)
      requires Valid()
      modifies this, backing
      ensures Valid() && Contents() == old(Contents()) + [e]
      ensures backing == old(backing) || fresh(backing)
    {
      if count == backing.Length {
        var bigger := new Scored[2 * count + 1];
        for i := 0 to count
          modifies bigger
          invariant bigger[..i] == old(backing[..i]) && count == old(count) && backing == old(backing)
        {
          bigger[i] := backing[i];
        }
        backing := bigger;
      }
      backing[count] := e;
      count := count + 1;
    }

    /** The locked part of `flush`: copy the buffer, then empty it in place. */
    method TakeBatch() returns (batch: array<Scored>)
      requires Valid()
      modifies this
      ensures Valid() && fresh(batch) && batch[..] == old(Contents()) && Contents() == []
      ensures backing == old(backing)
    {
      batch := new Scored[count];
      for i := 0 to count
        modifies batch
        invariant batch[..i] == backing[..i]
      {
        batch[i] := backing[i];
      }
      count := 0;
    }

    /** Later appends go to the reused backing array and never reach a copied batch. */
    method AppendAll(es: seq<Scored>, batch: array<Scored>)
      requires Valid() && batch != backing
      modifies this, backing
      ensures Valid() && Contents() == old(Contents()) + es
      ensures batch != backing && batch[..] == old(batch[..])
    {
      for i := 0 to |es|
        invariant Valid() && Contents() == old(Contents()) + es[..i]
        invariant backing == old(backing) || fresh(backing)
        invariant batch != backing && batch[..] == old(batch[..])
      {
        Append(es[i]);
        assert es[..i + 1] == es[..i] + [es[i]];
      }
      assert es[..|es|] == es;
    }
  }

  // ---------- All interleavings of handlers and the flush loop ----------

  datatype Flusher = Idle | Flushing(batch: seq<Scored>, attempt: nat)

  datatype Finished = Written(batch: seq<Scored>) | Dropped(batch: seq<Scored>)

  datatype State = State(
    handled: seq<Scored>, buffer: seq<Scored>, flusher: Flusher, finished: seq<Finished>, table: Table)

  const ATTEMPTS := 3

  datatype Action =
    | Handle(e: Event)   // score the event and append it under the lock
    | Take               // the flush loop empties the buffer
    | Write              // an attempt that succeeds
    | Fail(reached: nat) // an attempt that fails after some statements took effect
    | Cancel             // the context ends during the back-off

  /** The composite score under the platform's ceilings. */
  type Scorer = Metrics -> real

  const INITIAL := State([], [], Idle, [], map[])

  function Next(score: Scorer, s: State, a: Action): State {
    match a
    case Handle(e) =>
      var p := Scored(e, score(e.m));
      s.(handled := s.handled + [p], buffer := s.buffer + [p])
    case Take =>
      if s.flusher.Idle? && s.buffer != [] then s.(flusher := Flushing(s.buffer, 0), buffer := []) else s
    case Write =>
      if s.flusher.Idle? then s
      else
        s.(flusher := Idle, finished := s.finished + [Written(s.flusher.batch)],
           table := Apply(s.table, s.flusher.batch))
    case Fail(reached) =>
      if s.flusher.Idle? then s
      else
        var batch := s.flusher.batch;
        var t := s.(table := Apply(s.table, batch[..if reached <= |batch| then reached else |batch|]));
        if s.flusher.attempt + 1 < ATTEMPTS then t.(flusher := Flushing(batch, s.flusher.attempt + 1))
        else t.(flusher := Idle, finished := s.finished + [Dropped(batch)])
    case Cancel =>
      if s.flusher.Idle? || s.flusher.attempt == 0 then s
      else s.(flusher := Idle, finished := s.finished + [Dropped(s.flusher.batch)])
  }

  function Run(score: Scorer, actions: seq<Action>): State {
    if actions == [] then INITIAL else Next(score, Run(score, actions[..|actions| - 1]), actions[|actions| - 1])
  }

  function Events(fs: seq<Finished>): seq<Scored> {
    if fs == [] then [] else Events(fs[..|fs| - 1]) + fs[|fs| - 1].batch
  }

  function InProgress(f: Flusher): seq<Scored> { if f.Idle? then [] else f.batch }

  ghost predicate Conserves(s: State) {
    && s.handled == Events(s.finished) + InProgress(s.flusher) + s.buffer
    && (s.flusher.Flushing? ==> s.flusher.batch != [] && s.flusher.attempt < ATTEMPTS)
    && (forall i :: 0 <= i < |s.finished| ==> s.finished[i].batch != [])
  }

  lemma EventsSnoc(fs: seq<Finished>, f: Finished)
    ensures Events(fs + [f]) == Events(fs) + f.batch
  {
  }

  lemma NextConserves(score: Scorer, s: State, a: Action)
    requires Conserves(s)
    ensures Conserves(Next(score, s, a))
  {
    hide Apply, Events;
    var done, cur := Events(s.finished), InProgress(s.flusher);
    match a
    case Handle(e) =>
      var p := Scored(e, score(e.m));
      assert done + cur + (s.buffer + [p]) == (done + cur + s.buffer) + [p];
    case Take => assert done + [] + s.buffer == done + s.buffer + [];
    case _ =>
      if s.flusher.Flushing? {
        EventsSnoc(s.finished, Written(s.flusher.batch));
        EventsSnoc(s.finished, Dropped(s.flusher.batch));
        assert done + cur + [] + s.buffer == done + cur + s.buffer;
      }
  }

  lemma {:induction false} RunConserves(score: Scorer, actions: seq<Action>)
    ensures Conserves(Run(score, actions))
  {
    if actions != [] {
      RunConserves(score, actions[..|actions| - 1]);
      hide Next;
      NextConserves(score, Run(score, actions[..|actions| - 1]), actions[|actions| - 1]);
    }
  }

  /** The events that came in, in order, told from the actions alone. */
  function EventsOf(actions: seq<Action>): seq<Event> {
    if actions == [] then []
    else
      var a := actions[|actions| - 1];
      EventsOf(actions[..|actions| - 1]) + (if a.Handle? then [a.e] else [])
  }

  function AllScored(score: Scorer, es: seq<Event>): (r: seq<Scored>)
    ensures |r| == |es| && forall i :: 0 <= i < |r| ==> r[i] == Scored(es[i], score(es[i].m))
  {
    seq(|es|, i requires 0 <= i < |es| => Scored(es[i], score(es[i].m)))
  }

  lemma {:induction false} HandledIs(score: Scorer, actions: seq<Action>)
    ensures Run(score, actions).handled == AllScored(score, EventsOf(actions))
  {
    if actions != [] {
      HandledIs(score, actions[..|actions| - 1]);
      hide Apply;
    }
  }

  /** For all interleavings the events that came in, each with its score and in order, are
      the finished batches (each written or dropped whole), then the batch in progress, then
      the buffer. */
  lemma EventsConserved(score: Scorer, actions: seq<Action>)
    ensures var s, es := Run(score, actions), EventsOf(actions);
            var all := Events(s.finished) + InProgress(s.flusher) + s.buffer;
            && |all| == |es|
            && forall i :: 0 <= i < |all| ==> all[i].event == es[i] && all[i].score == score(es[i].m)
  {
    RunConserves(score, actions);
    HandledIs(score, actions);
    hide Run, Events;
  }

  // ---------- What becomes of a batch ----------

  /** Failed attempts at the batch in progress. */
  function FailsSince(score: Scorer, actions: seq<Action>): nat {
    if actions == [] then 0
    else
      var front, a := actions[..|actions| - 1], actions[|actions| - 1];
      if a.Take? && Run(score, front).flusher.Idle? then 0
      else FailsSince(score, front) + (if a.Fail? && Run(score, front).flusher.Flushing? then 1 else 0)
  }

  lemma {:induction false} AttemptsCounted(score: Scorer, actions: seq<Action>)
    ensures var f := Run(score, actions).flusher; f.Flushing? ==> f.attempt == FailsSince(score, actions) <= 2
  {
    if actions != [] {
      AttemptsCounted(score, actions[..|actions| - 1]);
      hide Apply;
    }
  }

  /** In every reachable state: a flush takes the whole buffer; a batch is written by an
      attempt that succeeds, and dropped by the third that fails or by a cancelled back-off
      after the first or second; a failed attempt leaves the rows it reached; and nothing
      else touches batch or table. */
  lemma BatchFate(score: Scorer, actions: seq<Action>, a: Action)
    ensures var s, t, fails := Run(score, actions), Next(score, Run(score, actions), a), FailsSince(score, actions);
            if s.flusher.Idle? then
              && t.finished == s.finished && t.table == s.table
              && t.flusher == (if a.Take? && s.buffer != [] then Flushing(s.buffer, 0) else Idle)
              && (t.flusher.Flushing? ==> t.buffer == [])
            else
              var batch := s.flusher.batch;
              var dropped := (a.Fail? && fails == 2) || (a.Cancel? && fails >= 1);
              && t.finished
                 == s.finished + (if a.Write? then [Written(batch)] else if dropped then [Dropped(batch)] else [])
              && (t.flusher.Idle? <==> a.Write? || dropped)
              && (t.flusher.Flushing? ==> t.flusher.batch == batch)
              && (a.Write? ==> t.table == Apply(s.table, batch))
              && (a.Fail? && a.reached <= |batch| ==> t.table == Apply(s.table, batch[..a.reached]))
              && (!a.Write? && !a.Fail? ==> t.table == s.table)
              && (!a.Handle? ==> t.buffer == s.buffer)
  {
    hide Apply;
    AttemptsCounted(score, actions);
  }

  /** A flush that succeeds at once leaves nothing behind: every event that came in is in a
      finished batch. */
  lemma FlushWritesAll(score: Scorer, actions: seq<Action>)
    requires Run(score, actions).flusher.Idle?
    ensures var s := Next(score, Next(score, Run(score, actions), Take), Write);
            && s.buffer == [] && s.flusher.Idle? && Events(s.finished) == AllScored(score, EventsOf(actions))
            && (NoDrops(Run(score, actions).finished) ==> s.table == Apply(map[], AllScored(score, EventsOf(actions))))
  {
    hide Run, Events, Apply, NoDrops, EventsOf, TableOk;
    var s := Run(score, actions);
    RunConserves(score, actions);
    HandledIs(score, actions);
    EventsSnoc(s.finished, Written(s.buffer));
    assert Events(s.finished) + [] + s.buffer == Events(s.finished) + s.buffer;
    assert s.buffer == [] ==> Events(s.finished) + s.buffer == Events(s.finished);
    if NoDrops(s.finished) {
      RetriesLeaveNoTrace(score, actions);
      ApplyConcat(map[], Events(s.finished), s.buffer);
    }
  }

  // ---------- The score table ----------

  ghost predicate NoDrops(fs: seq<Finished>) {
    forall i :: 0 <= i < |fs| ==> fs[i].Written?
  }

  /** Completing the batch in progress would give what one write of everything gives. */
  ghost predicate TableOk(s: State) {
    Apply(s.table, InProgress(s.flusher)) == Apply(map[], Events(s.finished) + InProgress(s.flusher))
  }

  lemma TakeKeepsTable(score: Scorer, s: State)
    requires TableOk(s)
    ensures TableOk(Next(score, s, Take))
  {
    if s.flusher.Idle? && s.buffer != [] {
      var done := Events(s.finished);
      assert done + [] == done && Apply(s.table, []) == s.table;
      ApplyConcat(map[], done, s.buffer);
    }
  }

  lemma WriteKeepsTable(score: Scorer, s: State)
    requires TableOk(s)
    ensures TableOk(Next(score, s, Write))
  {
    if s.flusher.Flushing? {
      EventsSnoc(s.finished, Written(s.flusher.batch));
      var all := Events(s.finished) + s.flusher.batch;
      assert all + [] == all && Apply(Next(score, s, Write).table, []) == Next(score, s, Write).table;
      hide Events;
    }
  }

  lemma DropIsSeen(fs: seq<Finished>, batch: seq<Scored>)
    ensures !NoDrops(fs + [Dropped(batch)])
  {
    assert (fs + [Dropped(batch)])[|fs|] == Dropped(batch);
  }

  lemma FailKeepsTable(score: Scorer, s: State, reached: nat)
    requires TableOk(s) && NoDrops(Next(score, s, Fail(reached)).finished)
    ensures TableOk(Next(score, s, Fail(reached)))
  {
    hide Apply, Events;
    if s.flusher.Flushing? {
      var batch := s.flusher.batch;
      DropIsSeen(s.finished, batch);
      PrefixThenAll(s.table, batch, if reached <= |batch| then reached else |batch|);
    }
  }

  lemma NextKeepsTable(score: Scorer, s: State, a: Action)
    requires TableOk(s) && NoDrops(Next(score, s, a).finished)
    ensures TableOk(Next(score, s, a))
  {
    hide Apply, Events;
    match a
    case Handle(_) =>
    case Take => TakeKeepsTable(score, s);
    case Write => WriteKeepsTable(score, s);
    case Fail(reached) => FailKeepsTable(score, s, reached);
    case Cancel =>
      if s.flusher.Flushing? {
        DropIsSeen(s.finished, s.flusher.batch);
      }
  }

  lemma StepOnlyAdds(score: Scorer, s: State, a: Action)
    ensures s.finished <= Next(score, s, a).finished
  {
  }

  /** However often attempts fail part-way, as long as no batch is dropped the table of an
      idle ingester is what one write of every flushed event in order gives. */
  lemma {:induction false} RetriesLeaveNoTrace(score: Scorer, actions: seq<Action>)
    requires NoDrops(Run(score, actions).finished)
    ensures TableOk(Run(score, actions))
    ensures var s := Run(score, actions); s.flusher.Idle? ==> s.table == Apply(map[], Events(s.finished))
  {
    if actions != [] {
      var front, a := actions[..|actions| - 1], actions[|actions| - 1];
      StepOnlyAdds(score, Run(score, front), a);
      RetriesLeaveNoTrace(score, front);
      NextKeepsTable(score, Run(score, front), a);
      hide Next;
    }
    assert Events(Run(score, actions).finished) + [] == Events(Run(score, actions).finished);
  }

  // ---------- Every row, whatever is dropped ----------

  /** The last finished batch that has an event of this submission. */
  function LastNaming(fs: seq<Finished>, id: string): Option<Finished> {
    if fs == [] then None
    else if Last(fs[|fs| - 1].batch, id).Some? then Some(fs[|fs| - 1])
    else LastNaming(fs[..|fs| - 1], id)
  }

  /** The row has the metrics and the score of this event. */
  predicate Shows(t: Table, id: string, e: Scored) {
    id in t && t[id] == RowFor(t[id].team, e)
  }

  ghost predicate RowOk(s: State, id: string) {
    && (id in s.table ==> exists e :: e in s.handled && e.Id() == id && Shows(s.table, id, e))
    && (Last(InProgress(s.flusher), id).None? ==>
          match LastNaming(s.finished, id)
          case None => id !in s.table
          case Some(Written(batch)) => Last(batch, id).Some? && Shows(s.table, id, Last(batch, id).value)
          case Some(Dropped(_)) => true)
  }

  lemma NamingSnoc(fs: seq<Finished>, f: Finished, id: string)
    ensures LastNaming(fs + [f], id) == if Last(f.batch, id).Some? then Some(f) else LastNaming(fs, id)
  {
  }

  /** An attempt writes only rows of handled events, and none that its batch does not name. */
  lemma AttemptKeepsRow(s: State, id: string, n: nat)
    requires s.flusher.Flushing? && n <= |s.flusher.batch| && Conserves(s) && RowOk(s, id)
    ensures var t := Apply(s.table, s.flusher.batch[..n]);
            && (id in t ==> exists e :: e in s.handled && e.Id() == id && Shows(t, id, e))
            && (Last(s.flusher.batch, id).None? ==> Lookup(t, id) == Lookup(s.table, id))
            && (n == |s.flusher.batch| && Last(s.flusher.batch, id).Some? ==>
                  Shows(t, id, Last(s.flusher.batch, id).value))
  {
    var prefix := s.flusher.batch[..n];
    RowAfter(s.table, prefix, id);
    hide Apply, First, Last, Events, LastNaming;
    assert n == |s.flusher.batch| ==> prefix == s.flusher.batch;
    assert Last(prefix, id).Some? ==> Last(prefix, id).value in s.flusher.batch;
  }

  lemma NextKeepsRow(score: Scorer, s: State, a: Action, id: string)
    requires Conserves(s) && RowOk(s, id)
    ensures RowOk(Next(score, s, a), id)
  {
    hide Apply, Events, LastNaming, Last, First;
    if s.flusher.Flushing? {
      var batch := s.flusher.batch;
      NamingSnoc(s.finished, Written(batch), id);
      NamingSnoc(s.finished, Dropped(batch), id);
      assert batch[..|batch|] == batch;
      AttemptKeepsRow(s, id, |batch|);
      match a
      case Fail(reached) => AttemptKeepsRow(s, id, if reached <= |batch| then reached else |batch|);
      case _ =>
    }
  }

  lemma {:induction false} RunKeepsRow(score: Scorer, actions: seq<Action>, id: string)
    ensures RowOk(Run(score, actions), id)
  {
    if actions != [] {
      var front := actions[..|actions| - 1];
      RunKeepsRow(score, front, id);
      RunConserves(score, front);
      hide Next, RowOk, Conserves;
      NextKeepsRow(score, Run(score, front), actions[|actions| - 1], id);
    }
  }

  /** Over every run, with batches written or dropped: a row always shows the metrics of one
      event that came in for its submission, and its score; a submission that no finished
      batch and no batch in progress names has no row; and when the last finished batch
      naming it was written, and none in progress does, its row shows the last event of that
      batch. */
  lemma RowsOfEveryRun(score: Scorer, actions: seq<Action>, id: string)
    ensures var s, naming := Run(score, actions), LastNaming(Run(score, actions).finished, id);
            && (id in s.table ==>
                  exists e :: e in EventsOf(actions) && e.submission == id
                              && s.table[id].m == e.m && s.table[id].composite == score(e.m))
            && (Last(InProgress(s.flusher), id).None? && naming.None? ==> id !in s.table)
            && (Last(InProgress(s.flusher), id).None? && naming.Some? && naming.value.Written? ==>
                  var last := Last(naming.value.batch, id);
                  && last.Some? && id in s.table
                  && s.table[id].m == last.value.event.m && s.table[id].composite == last.value.score)
  {
    RunKeepsRow(score, actions, id);
    HandledIs(score, actions);
    hide Run, LastNaming, Last;
    var s, es := Run(score, actions), EventsOf(actions);
    if id in s.table {
      var x :| x in s.handled && x.Id() == id && Shows(s.table, id, x);
      var i :| 0 <= i < |s.handled| && s.handled[i] == x;
      assert es[i] in es && es[i] == x.event;
    }
  }
}
