/** The monotonic clock `now` of the stub engine: a sequential clock with an arbitrary
    wall clock, and the lock-free load / compare-and-swap loop that implements it. */
module Clock {

  /** The i-th wall-clock reading is `wall(i)`; nothing is assumed about it. */
  type Wall = nat -> int

  datatype State = State(last: nat, count: nat)

  const START := State(0, 0)

  function After(reading: int, last: int): (ts: int)
    ensures ts >= reading && ts > last && (ts == reading || ts == last + 1)
  {
    if reading <= last then last + 1 else reading
  }

  /** One call of `now`: the new `last` is also the returned timestamp. */
  function Tick(wall: Wall, c: State): (r: State)
    ensures r.last > c.last && r.last >= wall(c.count)
  {
    State(After(wall(c.count), c.last), c.count + 1)
  }

  class Sequential {
    const wall: Wall
    var state: State

    constructor (wall: Wall)
      ensures this.wall == wall && state == START
    {
      this.wall := wall;
      state := START;
    }

    method Now() returns (ts: int)
      modifies this
      ensures state == Tick(wall, old(state)) && ts == state.last
    {
      ts := wall(state.count);
      if ts <= state.last {
        ts := state.last + 1;
      }
      state := State(ts, state.count + 1);
    }
  }

  // ---------- The lock-free implementation ----------

  /** A thread inside `now`: it has read the wall clock and is about to load
      `lastTimestamp`, or has loaded it and is about to compare-and-swap.
      `began` is the number of calls that had returned when this one started. */
  datatype Thread =
    | Loading(reading: int, ts: int, began: nat)
    | Swapping(reading: int, ts: int, began: nat, seen: int)

  datatype Call = Call(thread: nat, reading: int, ts: int, began: nat)

  datatype Shared = Shared(last: int, threads: map<nat, Thread>, done: seq<Call>)

  datatype Action = Begin(t: nat, reading: int) | Load(t: nat) | Swap(t: nat)

  const IDLE := Shared(0, map[], [])

  /** One atomic step of thread `a.t`; a step the thread is not ready for does nothing. */
  function Next(s: Shared, a: Action): Shared {
    match a
    case Begin(t, reading) =>
      if t in s.threads then s
      else s.(threads := s.threads[t := Loading(reading, reading, |s.done|)])
    case Load(t) =>
      if t !in s.threads || !s.threads[t].Loading? then s
      else
        var th := s.threads[t];
        var ts := if th.ts <= s.last then s.last + 1 else th.ts;
        s.(threads := s.threads[t := Swapping(th.reading, ts, th.began, s.last)])
    case Swap(t) =>
      if t !in s.threads || !s.threads[t].Swapping? then s
      else
        var th := s.threads[t];
        if th.seen == s.last then
          Shared(th.ts, s.threads - {t}, s.done + [Call(t, th.reading, th.ts, th.began)])
        else
          s.(threads := s.threads[t := Loading(th.reading, th.ts, th.began)])
  }

  function Run(actions: seq<Action>): Shared {
    if actions == [] then IDLE else Next(Run(actions[..|actions| - 1]), actions[|actions| - 1])
  }

  function LastOf(done: seq<Call>): int {
    if done == [] then 0 else done[|done| - 1].ts
  }

  ghost predicate ThreadInv(s: Shared, th: Thread) {
    && th.began <= |s.done|
    && match th
       case Loading(reading, ts, _) => After(ts, s.last) == After(reading, s.last) && reading <= ts
       case Swapping(reading, ts, _, seen) => seen <= s.last && ts == After(reading, seen)
  }

  /** Every finished call is one sequential tick of the clock with the caller's own reading. */
  ghost predicate Sequentialized(done: seq<Call>) {
    forall i :: 0 <= i < |done| ==> done[i].ts == After(done[i].reading, LastOf(done[..i])) && done[i].began <= i
  }

  ghost predicate Inv(s: Shared) {
    && s.last == LastOf(s.done)
    && (forall t :: t in s.threads ==> ThreadInv(s, s.threads[t]))
    && Sequentialized(s.done)
  }

  lemma SequentializedSnoc(done: seq<Call>, call: Call)
    requires Sequentialized(done) && call.ts == After(call.reading, LastOf(done)) && call.began <= |done|
    ensures Sequentialized(done + [call])
  {
    var r := done + [call];
    forall i | 0 <= i < |r|
      ensures r[i].ts == After(r[i].reading, LastOf(r[..i])) && r[i].began <= i
    {
      assert r[..i] == if i < |done| then done[..i] else done;
    }
  }

  lemma NextKeepsInv(s: Shared, a: Action)
    requires Inv(s)
    ensures Inv(Next(s, a))
  {
    hide Sequentialized;
    if a.Swap? && a.t in s.threads && s.threads[a.t].Swapping? && s.threads[a.t].seen == s.last {
      var th := s.threads[a.t];
      SequentializedSnoc(s.done, Call(a.t, th.reading, th.ts, th.began));
    }
  }

  lemma {:induction false} RunKeepsInv(actions: seq<Action>)
    ensures Inv(Run(actions))
  {
    if actions != [] {
      RunKeepsInv(actions[..|actions| - 1]);
      NextKeepsInv(Run(actions[..|actions| - 1]), actions[|actions| - 1]);
    }
  }

  lemma {:induction false} SwapOrderIncreases(done: seq<Call>, i: nat, j: nat)
    requires Sequentialized(done) && i < j < |done|
    ensures done[i].ts < done[j].ts
  {
    assert done[..j][j - 1] == done[j - 1];
    if i < j - 1 {
      SwapOrderIncreases(done, i, j - 1);
    }
  }

  /** The sequential clock after its first n readings. */
  function Ticks(wall: Wall, n: nat): (c: State)
    ensures c.count == n
  {
    if n == 0 then START else Tick(wall, Ticks(wall, n - 1))
  }

  /** The wall clock that hands the finished calls their own readings, in swap order. */
  function ReadingsOf(done: seq<Call>): Wall {
    (i: nat) => if i < |done| then done[i].reading else 0
  }

  lemma FinishedCall(done: seq<Call>, i: nat)
    requires Sequentialized(done) && i < |done|
    ensures done[i].ts == Ticks(ReadingsOf(done), i + 1).last
    ensures done[i].ts >= done[i].reading && done[i].ts >= 1 && done[i].began <= i
  {
  }

  /** The clock is linearizable: over every interleaving of any number of threads the
      returned timestamps are those of the sequential clock fed the callers' readings in
      swap order; they are pairwise distinct, strictly increase in swap order, are never
      below the caller's reading, and a call that returned before another began is smaller. */
  lemma Linearizable(actions: seq<Action>)
    ensures var done := Run(actions).done;
            && (forall i :: 0 <= i < |done| ==>
                  && done[i].ts == Ticks(ReadingsOf(done), i + 1).last
                  && done[i].ts >= done[i].reading
                  && done[i].ts >= 1
                  && done[i].began <= i)
            && (forall i, j :: 0 <= i < j < |done| ==> done[i].ts < done[j].ts)
            && (forall i, j :: 0 <= j < |done| && 0 <= i < done[j].began ==> done[i].ts < done[j].ts)
  {
    RunKeepsInv(actions);
    var done := Run(actions).done;
    forall i | 0 <= i < |done| {
      FinishedCall(done, i);
    }
    forall i, j | 0 <= i < j < |done| {
      SwapOrderIncreases(done, i, j);
    }
  }

  lemma RunSnoc(actions: seq<Action>, a: Action)
    ensures Run(actions + [a]) == Next(Run(actions), a)
  {
    assert (actions + [a])[..|actions|] == actions;
  }

  /** A compare-and-swap fails only if some other call returned since this thread's load,
      so the retry loop is lock-free: some call completes in every round of failures. */
  lemma FailedSwapMeansProgress(before: seq<Action>, t: nat, between: seq<Action>)
    requires t in Run(before).threads && Run(before).threads[t].Loading?
    requires forall i :: 0 <= i < |between| ==> between[i].t != t
    requires var u := Run(before + [Load(t)] + between);
             t in u.threads && u.threads[t].Swapping? && u.threads[t].seen != u.last
    ensures |Run(before + [Load(t)] + between).done| > |Run(before).done|
  {
    hide Run, Sequentialized, ThreadInv;
    RunSnoc(before, Load(t));
    QuietThread(before + [Load(t)], t, between);
    RunKeepsInv(before + [Load(t)]);
    RunKeepsInv(before + [Load(t)] + between);
  }

  lemma {:induction false} QuietThread(before: seq<Action>, t: nat, between: seq<Action>)
    requires t in Run(before).threads
    requires forall i :: 0 <= i < |between| ==> between[i].t != t
    ensures t in Run(before + between).threads
    ensures Run(before + between).threads[t] == Run(before).threads[t]
    ensures Run(before).done <= Run(before + between).done
  {
    if between == [] {
      assert before + between == before;
    } else {
      var init := between[..|between| - 1];
      QuietThread(before, t, init);
      assert (before + between)[..|before + between| - 1] == before + init;
    }
  }

  /** A call that nobody disturbs takes one round: it returns its reading, or one past the
      last stamp if that is later. */
  lemma UndisturbedCall(s: Shared, t: nat, reading: int)
    requires t !in s.threads
    ensures var r := Next(Next(Next(s, Begin(t, reading)), Load(t)), Swap(t));
            var ts := if reading > s.last then reading else s.last + 1;
            r.last == ts && r.threads == s.threads && r.done == s.done + [Call(t, reading, ts, |s.done|)]
  {
  }

  /** A call that lost its swap tries again: the next undisturbed round completes it after
      the stamp that beat it. */
  lemma LostSwapRetries(s: Shared, t: nat)
    requires Inv(s) && t in s.threads && s.threads[t].Swapping? && s.threads[t].seen != s.last
    ensures var r, th := Next(Next(Next(s, Swap(t)), Load(t)), Swap(t)), s.threads[t];
            && Next(s, Swap(t)).done == s.done && Next(s, Swap(t)).last == s.last
            && r.done == s.done + [Call(t, th.reading, r.last, th.began)] && r.last > s.last
  {
  }
}
