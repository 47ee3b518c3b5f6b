/** The bot-orchestrator's per-submission lock: the HTTP handler and the Kafka consumer
    both check and set `activeTests` under one mutex, and clear it when the test returns. */
module TestLock {

  datatype Trigger = Http | Kafka

  /** `active` is the map's key set; `running` are the tests under way, by run number. */
  datatype State = State(active: set<string>, running: map<nat, string>, runs: nat)

  datatype Action = Start(trigger: Trigger, submission: string) | Finish(run: nat)

  const INITIAL := State({}, map[], 0)

  /** One critical section. A start that finds the submission active is refused. */
  function Next(s: State, a: Action): State {
    match a
    case Start(_, id) =>
      if id in s.active then s else State(s.active + {id}, s.running[s.runs := id], s.runs + 1)
    case Finish(run) =>
      if run !in s.running then s else State(s.active - {s.running[run]}, s.running - {run}, s.runs)
  }

  function Run(actions: seq<Action>): State {
    if actions == [] then INITIAL else Next(Run(actions[..|actions| - 1]), actions[|actions| - 1])
  }

  ghost predicate Exclusive(s: State) {
    && (forall r :: r in s.running ==> r < s.runs && s.running[r] in s.active)
    && (forall id :: id in s.active ==> exists r :: r in s.running && s.running[r] == id)
    && (forall r, q :: r in s.running && q in s.running && s.running[r] == s.running[q] ==> r == q)
  }

  lemma StartKeeps(s: State, trigger: Trigger, id: string)
    requires Exclusive(s)
    ensures Exclusive(Next(s, Start(trigger, id)))
  {
    var t := Next(s, Start(trigger, id));
    forall x | x in t.active
      ensures exists r :: r in t.running && t.running[r] == x
    {
      if x in s.active {
        var r :| r in s.running && s.running[r] == x;
        assert t.running[r] == x;
      } else {
        assert t.running[s.runs] == x;
      }
    }
  }

  lemma FinishKeeps(s: State, run: nat)
    requires Exclusive(s)
    ensures Exclusive(Next(s, Finish(run)))
  {
    var t := Next(s, Finish(run));
    forall x | x in t.active
      ensures exists r :: r in t.running && t.running[r] == x
    {
      var r :| r in s.running && s.running[r] == x;
      assert r in t.running && t.running[r] == x;
    }
  }

  /** At most one running test per submission across both triggers, and the map's keys are
      exactly the submissions being tested, in every interleaving. */
  lemma {:induction false} OneTestPerSubmission(actions: seq<Action>)
    ensures var s := Run(actions);
            && (forall r, q :: r in s.running && q in s.running && s.running[r] == s.running[q] ==> r == q)
            && s.active == s.running.Values
    ensures Exclusive(Run(actions))
  {
    hide Next;
    if actions != [] {
      OneTestPerSubmission(actions[..|actions| - 1]);
      var s, a := Run(actions[..|actions| - 1]), actions[|actions| - 1];
      if a.Start? {
        StartKeeps(s, a.trigger, a.submission);
      } else {
        FinishKeeps(s, a.run);
      }
    }
  }

  // ---------- Which tests run, told from the actions alone ----------

  /** The submissions of the tests started so far, by run number. */
  function Started(actions: seq<Action>): seq<string>
    decreases |actions|, 0
  {
    if actions == [] then []
    else
      var front, a := actions[..|actions| - 1], actions[|actions| - 1];
      Started(front) + (if a.Start? && Idle(front, a.submission) then [a.submission] else [])
  }

  /** The runs that have ended. */
  function Ended(actions: seq<Action>): set<nat>
    decreases |actions|, 0
  {
    if actions == [] then {}
    else
      var front, a := actions[..|actions| - 1], actions[|actions| - 1];
      Ended(front) + (if a.Finish? && a.run < |Started(front)| then {a.run} else {})
  }

  /** No test of this submission is under way. */
  predicate Idle(actions: seq<Action>, id: string)
    decreases |actions|, 1
  {
    forall r :: 0 <= r < |Started(actions)| && r !in Ended(actions) ==> Started(actions)[r] != id
  }

  ghost predicate Tells(actions: seq<Action>, s: State) {
    && s.runs == |Started(actions)|
    && (forall r: nat :: r in s.running <==> r < s.runs && r !in Ended(actions))
    && (forall r :: r in s.running ==> s.running[r] == Started(actions)[r])
    && (forall r :: r in Ended(actions) ==> r < s.runs)
  }

  lemma ActiveIsBusy(actions: seq<Action>, s: State, id: string)
    requires Tells(actions, s) && Exclusive(s)
    ensures id in s.active <==> !Idle(actions, id)
  {
    hide Started, Ended;
    if id in s.active {
      var r :| r in s.running && s.running[r] == id;
      assert Started(actions)[r] == id;
    }
    if !Idle(actions, id) {
      var r: nat :| r < |Started(actions)| && r !in Ended(actions) && Started(actions)[r] == id;
      assert r in s.running;
    }
  }

  lemma TellsOn(front: seq<Action>, a: Action)
    requires Tells(front, Run(front)) && Exclusive(Run(front))
    ensures Tells(front + [a], Run(front + [a]))
  {
    var actions := front + [a];
    assert actions[..|actions| - 1] == front;
    if a.Start? {
      ActiveIsBusy(front, Run(front), a.submission);
    }
    hide Exclusive, Idle;
    assert Started(actions) == Started(front) + (if a.Start? && Idle(front, a.submission) then [a.submission] else []);
    assert Ended(actions) == Ended(front) + (if a.Finish? && a.run < |Started(front)| then {a.run} else {});
    assert Run(actions) == Next(Run(front), a);
    hide Started, Ended, Run;
  }

  /** A request starts a test exactly when no test of its submission is under way, whichever
      trigger it came from, and a test runs from its start until it finishes. */
  lemma {:induction false} StartsWhenIdle(actions: seq<Action>)
    ensures Tells(actions, Run(actions))
    ensures forall id :: id in Run(actions).active <==> !Idle(actions, id)
  {
    OneTestPerSubmission(actions);
    if actions != [] {
      var front, a := actions[..|actions| - 1], actions[|actions| - 1];
      StartsWhenIdle(front);
      OneTestPerSubmission(front);
      hide Exclusive, Tells, Idle;
      TellsOn(front, a);
      assert front + [a] == actions;
    }
    forall id {
      ActiveIsBusy(actions, Run(actions), id);
    }
  }
}
