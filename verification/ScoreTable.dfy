/** The `submission_scores` upsert (scored_at left out): a new submission is inserted with
    its team name, a known one has its metrics replaced but keeps its team name. */
module ScoreTable {
  import opened Options
  import opened Scoring

  /** An event with the composite score computed for it. */
  datatype Scored = Scored(event: Event, score: real) {
    function Id(): string { event.submission }
  }

  datatype Row = Row(team: string, m: Metrics, composite: real)

  type Table = map<string, Row>

  function Upsert(t: Table, e: Scored): Table {
    var team := if e.Id() in t then t[e.Id()].team else e.event.team;
    t[e.Id() := Row(team, e.event.m, e.score)]
  }

  /** All statements of a batch, in order. */
  function Apply(t: Table, batch: seq<Scored>): Table {
    if batch == [] then t else Upsert(Apply(t, batch[..|batch| - 1]), batch[|batch| - 1])
  }

  function First(batch: seq<Scored>, id: string): Option<Scored> {
    if batch == [] then None
    else
      var f := First(batch[..|batch| - 1], id);
      if f.Some? then f else if batch[|batch| - 1].Id() == id then Some(batch[|batch| - 1]) else None
  }

  function Last(batch: seq<Scored>, id: string): (r: Option<Scored>)
    ensures r.Some? ==> r.value in batch && r.value.Id() == id
    ensures r.None? ==> forall e :: e in batch ==> e.Id() != id
  {
    if batch == [] then None
    else if batch[|batch| - 1].Id() == id then Some(batch[|batch| - 1])
    else Last(batch[..|batch| - 1], id)
  }

  function Lookup(t: Table, id: string): Option<Row> { if id in t then Some(t[id]) else None }

  function RowFor(team: string, e: Scored): Row {
    Row(team, e.event.m, e.score)
  }

  /** One row after a batch: the metrics of its last event, the team of its first
      appearance ever. */
  lemma {:induction false} RowAfter(t: Table, batch: seq<Scored>, id: string)
    ensures First(batch, id).Some? <==> Last(batch, id).Some?
    ensures Lookup(Apply(t, batch), id) ==
            if Last(batch, id).None? then Lookup(t, id)
            else
              var first, last := First(batch, id).value.event, Last(batch, id).value;
              Some(Row(if id in t then t[id].team else first.team, last.event.m, last.score))
  {
    if batch != [] {
      RowAfter(t, batch[..|batch| - 1], id);
    }
  }

  lemma {:induction false} FirstOfPrefix(batch: seq<Scored>, n: nat, id: string)
    requires n <= |batch|
    ensures First(batch[..n], id).Some? ==> First(batch, id) == First(batch[..n], id)
    ensures First(batch[..n], id).Some? ==> Last(batch, id).Some?
  {
    if n == |batch| {
      assert batch[..n] == batch;
      RowAfter(map[], batch, id);
    } else {
      var front := batch[..|batch| - 1];
      FirstOfPrefix(front, n, id);
      assert front[..n] == batch[..n];
    }
  }

  lemma TablesEqual(a: Table, b: Table)
    requires forall id :: Lookup(a, id) == Lookup(b, id)
    ensures a == b
  {
    forall id
      ensures id in a <==> id in b
      ensures id in a ==> a[id] == b[id]
    {
      assert Lookup(a, id) == Lookup(b, id);
    }
  }

  /** Writing any prefix of a batch and then all of it leaves the table as one write would. */
  lemma PrefixThenAll(t: Table, batch: seq<Scored>, n: nat)
    requires n <= |batch|
    ensures Apply(Apply(t, batch[..n]), batch) == Apply(t, batch)
  {
    var mid := Apply(t, batch[..n]);
    forall id
      ensures Lookup(Apply(mid, batch), id) == Lookup(Apply(t, batch), id)
    {
      RowAfter(t, batch[..n], id);
      RowAfter(mid, batch, id);
      RowAfter(t, batch, id);
      FirstOfPrefix(batch, n, id);
      hide Apply, First, Last;
      assert Lookup(mid, id).Some? <==> id in mid;
    }
    TablesEqual(Apply(mid, batch), Apply(t, batch));
  }

  lemma {:induction false} ApplyConcat(t: Table, a: seq<Scored>, b: seq<Scored>)
    ensures Apply(t, a + b) == Apply(Apply(t, a), b)
  {
    if b == [] {
      assert a + b == a;
    } else {
      ApplyConcat(t, a, b[..|b| - 1]);
      assert (a + b)[..|a + b| - 1] == a + b[..|b| - 1];
    }
  }
}
