/** The leaderboard hub: an event loop that owns the client set, handlers that register,
    send a snapshot and unregister, and lossy fan-out to every registered client. Go's
    `select` picks any ready channel, so the order of service is arbitrary. */
module Hub {

  datatype Msg = Snapshot(body: string) | Live(body: string)

  const SEND_CAP := 256
  const REG_CAP := 64
  const MSG_CAP := 256

  /** Where a connection's handler is. */
  datatype Phase = Connecting | Registering | Serving | Leaving | Gone

  /** One client: its handler, its send channel (what the writer already took, then what
      waits), and how often the channel was closed. */
  datatype Client = Client(phase: Phase, got: seq<Msg>, queue: seq<Msg>, closed: bool, closes: nat)

  /** The hub's loop: in its select, or in the middle of a fan-out with some members to go. */
  datatype Loop = Selecting | Sending(msg: string, todo: set<nat>)

  datatype State = State(
    clients: map<nat, Client>, members: set<nat>, regCh: seq<nat>, unregCh: seq<nat>, msgCh: seq<string>,
    loop: Loop, quit: bool, panicked: bool)

  datatype Action =
    | Accept(c: nat)                  // a new connection and its client object
    | Register(c: nat)                // non-blocking send on regCh
    | SendSnapshot(c: nat, snap: string) // non-blocking send on the client's own channel
    | SkipSnapshot(c: nat)            // the snapshot could not be built
    | Hangup(c: nat)                  // the handler returns
    | Unregister(c: nat)              // deferred non-blocking send on unregCh
    | Broadcast(msg: string)          // non-blocking send on msgCh
    | ServeReg | ServeUnreg | ServeMsg | Quit // the hub's select
    | Give(c: nat)                    // the fan-out reaches one member, in any order
    | Drain(c: nat)                   // the client's writer takes one message

  const INITIAL := State(map[], {}, [], [], [], Selecting, false, false)

  /** A non-blocking send on a client's channel is dropped when the channel is full. */
  function Offer(cl: Client, msg: Msg): Client {
    if |cl.queue| < SEND_CAP then cl.(queue := cl.queue + [msg]) else cl
  }

  function With(s: State, c: nat, cl: Client): State { s.(clients := s.clients[c := cl]) }

  /** `close(c.send)`: a second close panics. */
  function CloseSend(s: State, c: nat): State
    requires c in s.clients
  {
    var cl := s.clients[c];
    With(s, c, cl.(closed := true, closes := cl.closes + 1)).(
      members := s.members - {c}, panicked := s.panicked || cl.closed)
  }

  function Fan(msg: string, todo: set<nat>): Loop { if todo == {} then Selecting else Sending(msg, todo) }

  /** The hub is in its select and may serve a channel. */
  predicate Free(s: State) { !s.quit && s.loop.Selecting? }

  /** The fan-out is about to reach client c. */
  predicate Turn(s: State, c: nat) { s.loop.Sending? && c in s.loop.todo && c in s.clients }

  /** One step; a step whose actor is elsewhere changes nothing. */
  function Next(s: State, a: Action): State {
    match a
    case Accept(c) =>
      if c in s.clients then s else With(s, c, Client(Connecting, [], [], false, 0))
    case Register(c) =>
      if c !in s.clients || s.clients[c].phase != Connecting then s
      else if |s.regCh| < REG_CAP then
        With(s, c, s.clients[c].(phase := Registering)).(regCh := s.regCh + [c])
      else With(s, c, s.clients[c].(phase := Leaving))
    case SendSnapshot(c, snap) =>
      if c !in s.clients || s.clients[c].phase != Registering then s
      else
        With(s, c, Offer(s.clients[c], Snapshot(snap)).(phase := Serving)).(
          panicked := s.panicked || s.clients[c].closed)
    case SkipSnapshot(c) =>
      if c !in s.clients || s.clients[c].phase != Registering then s
      else With(s, c, s.clients[c].(phase := Serving))
    case Hangup(c) =>
      if c !in s.clients || s.clients[c].phase != Serving then s
      else With(s, c, s.clients[c].(phase := Leaving))
    case Unregister(c) =>
      if c !in s.clients || s.clients[c].phase != Leaving then s
      else
        var t := With(s, c, s.clients[c].(phase := Gone));
        if |s.unregCh| < REG_CAP then t.(unregCh := s.unregCh + [c]) else t
    case Broadcast(msg) => if |s.msgCh| < MSG_CAP then s.(msgCh := s.msgCh + [msg]) else s
    case ServeReg =>
      if !Free(s) || s.regCh == [] then s else s.(members := s.members + {s.regCh[0]}, regCh := s.regCh[1..])
    case ServeUnreg =>
      if !Free(s) || s.unregCh == [] then s
      else
        var c, t := s.unregCh[0], s.(unregCh := s.unregCh[1..]);
        if c in s.members && c in s.clients then CloseSend(t, c) else t
    case ServeMsg =>
      if !Free(s) || s.msgCh == [] then s else s.(msgCh := s.msgCh[1..], loop := Fan(s.msgCh[0], s.members))
    case Quit => if Free(s) then s.(quit := true) else s
    case Give(c) =>
      if !Turn(s, c) then s
      else
        With(s, c, Offer(s.clients[c], Live(s.loop.msg))).(
          loop := Fan(s.loop.msg, s.loop.todo - {c}), panicked := s.panicked || s.clients[c].closed)
    case Drain(c) =>
      if c !in s.clients || s.clients[c].queue == [] then s
      else
        var cl := s.clients[c];
        With(s, c, cl.(got := cl.got + [cl.queue[0]], queue := cl.queue[1..]))
  }

  function Run(actions: seq<Action>): State {
    if actions == [] then INITIAL else Next(Run(actions[..|actions| - 1]), actions[|actions| - 1])
  }

  // ---------- Channels are closed once and never used afterwards ----------

  ghost predicate Once(q: seq<nat>) {
    forall i, j :: 0 <= i < j < |q| ==> q[i] != q[j]
  }

  ghost predicate ClientOk(s: State, c: nat, cl: Client) {
    && cl.closes == (if cl.closed then 1 else 0)
    && (cl.closed ==> cl.phase == Gone && c !in s.members && c !in s.regCh && c !in s.unregCh)
    && (c in s.members ==> c !in s.regCh)
    && (c in s.unregCh ==> cl.phase == Gone)
    && (cl.phase == Connecting ==> c !in s.members && c !in s.regCh)
  }

  ghost predicate Safe(s: State) {
    && !s.panicked
    && Once(s.regCh) && Once(s.unregCh) && (s.loop.Sending? ==> s.loop.todo <= s.members)
    && (forall c :: c in s.members || c in s.regCh || c in s.unregCh ==> c in s.clients)
    && (forall c :: c in s.clients ==> ClientOk(s, c, s.clients[c]))
  }

  lemma OnceTail(q: seq<nat>)
    requires Once(q) && q != []
    ensures Once(q[1..]) && q[0] !in q[1..] && forall x :: x in q <==> x == q[0] || x in q[1..]
  {
  }

  lemma OnceAppend(q: seq<nat>, c: nat)
    requires Once(q) && c !in q
    ensures Once(q + [c])
  {
  }

  lemma WithSafe(s: State, c: nat, cl: Client)
    requires Safe(s) && ClientOk(s, c, cl)
    ensures Safe(With(s, c, cl))
  {
  }

  lemma ServeUnregSafe(s: State)
    requires Safe(s)
    ensures Safe(Next(s, ServeUnreg))
  {
    if s.unregCh != [] {
      OnceTail(s.unregCh);
      hide Once;
    }
  }

  lemma ServeRegSafe(s: State)
    requires Safe(s)
    ensures Safe(Next(s, ServeReg))
  {
  }

  lemma RegisterSafe(s: State, c: nat)
    requires Safe(s)
    ensures Safe(Next(s, Register(c)))
  {
  }

  lemma UnregisterSafe(s: State, c: nat)
    requires Safe(s)
    ensures Safe(Next(s, Unregister(c)))
  {
    if c in s.clients && s.clients[c].phase == Leaving {
      assert ClientOk(s, c, s.clients[c]);
      OnceAppend(s.unregCh, c);
      hide Once;
    }
  }

  lemma QuietSafe(s: State, msgCh: seq<string>, loop: Loop, quit: bool)
    requires Safe(s) && (loop.Sending? ==> loop.todo <= s.members)
    ensures Safe(s.(msgCh := msgCh, loop := loop, quit := quit))
  {
  }

  /** A step of one handler or writer that leaves the hub's channels alone. */
  lemma ClientStepSafe(s: State, a: Action)
    requires Safe(s)
    requires a.Accept? || a.SendSnapshot? || a.SkipSnapshot? || a.Hangup? || a.Drain?
    ensures Safe(Next(s, a))
  {
    if a.c in s.clients {
      assert ClientOk(s, a.c, s.clients[a.c]);
    }
    assert a.c in Next(s, a).clients ==> ClientOk(s, a.c, Next(s, a).clients[a.c]);
    hide Once;
    if a.c in Next(s, a).clients {
      WithSafe(s, a.c, Next(s, a).clients[a.c]);
    }
  }

  lemma GiveSafe(s: State, c: nat)
    requires Safe(s)
    ensures Safe(Next(s, Give(c)))
  {
    hide Once;
    if Turn(s, c) {
      assert ClientOk(s, c, s.clients[c]);
      WithSafe(s, c, Offer(s.clients[c], Live(s.loop.msg)));
      QuietSafe(With(s, c, Offer(s.clients[c], Live(s.loop.msg))), s.msgCh, Fan(s.loop.msg, s.loop.todo - {c}), s.quit);
    }
  }

  lemma NextSafe(s: State, a: Action)
    requires Safe(s)
    ensures Safe(Next(s, a))
  {
    match a
    case Register(c) => RegisterSafe(s, c);
    case Unregister(c) => UnregisterSafe(s, c);
    case ServeReg => ServeRegSafe(s);
    case ServeUnreg => ServeUnregSafe(s);
    case Broadcast(msg) => QuietSafe(s, s.msgCh + [msg], s.loop, s.quit);
    case ServeMsg =>
      if s.msgCh != [] {
        QuietSafe(s, s.msgCh[1..], Fan(s.msgCh[0], s.members), s.quit);
      }
    case Quit => QuietSafe(s, s.msgCh, s.loop, true);
    case Give(c) => GiveSafe(s, c);
    case _ => ClientStepSafe(s, a);
  }

  lemma {:induction false} RunSafe(actions: seq<Action>)
    ensures Safe(Run(actions))
  {
    if actions != [] {
      RunSafe(actions[..|actions| - 1]);
      NextSafe(Run(actions[..|actions| - 1]), actions[|actions| - 1]);
    }
  }

  /** Over every order of service: no channel is closed twice or sent to after its close. */
  lemma ChannelSafety(actions: seq<Action>)
    ensures var s := Run(actions);
            && !s.panicked
            && (forall c :: c in s.clients ==> s.clients[c].closes <= 1)
            && (forall c :: c in s.clients && s.clients[c].closed ==> s.clients[c].phase == Gone && c !in s.members)
  {
    RunSafe(actions);
    hide Run;
    forall c | c in Run(actions).clients
      ensures ClientOk(Run(actions), c, Run(actions).clients[c])
    {
    }
  }

  // ---------- Who is registered ----------

  datatype Stage = Outside | Inside | Closed

  /** Told from the requests the hub served: a client is in from the moment its registration
      is served until an unregistration of it is served; one served earlier has no effect. */
  function StageOf(actions: seq<Action>, c: nat): Stage {
    if actions == [] then Outside
    else
      var front, a := actions[..|actions| - 1], actions[|actions| - 1];
      var s, stage := Run(front), StageOf(front, c);
      if a.ServeReg? && Free(s) && s.regCh != [] && s.regCh[0] == c then Inside
      else if a.ServeUnreg? && Free(s) && s.unregCh != [] && s.unregCh[0] == c && stage == Inside then Closed
      else stage
  }

  ghost predicate Placed(s: State, c: nat, stage: Stage) {
    && (c in s.members <==> stage == Inside)
    && (c in s.clients && s.clients[c].closed <==> stage == Closed)
  }

  lemma OthersKeepPlace(s: State, a: Action, c: nat, stage: Stage)
    requires Safe(s) && Placed(s, c, stage) && !a.ServeReg? && !a.ServeUnreg?
    ensures Placed(Next(s, a), c, stage)
  {
    hide Once;
    if c in s.clients {
      assert ClientOk(s, c, s.clients[c]);
    }
  }

  lemma RegistrationPlaces(s: State, c: nat, stage: Stage)
    requires Safe(s) && Placed(s, c, stage)
    ensures Placed(Next(s, ServeReg), c,
                   if Free(s) && s.regCh != [] && s.regCh[0] == c then Inside else stage)
  {
    if s.regCh != [] {
      assert s.regCh[0] in s.regCh;
      assert ClientOk(s, s.regCh[0], s.clients[s.regCh[0]]);
    }
  }

  lemma UnregistrationPlaces(s: State, c: nat, stage: Stage)
    requires Safe(s) && Placed(s, c, stage)
    ensures Placed(Next(s, ServeUnreg), c,
                   if Free(s) && s.unregCh != [] && s.unregCh[0] == c && stage == Inside then Closed else stage)
  {
    if s.unregCh != [] {
      assert s.unregCh[0] in s.unregCh;
    }
  }

  /** Over every run the member set and the closed channels are exactly what the served
      registrations and unregistrations say. */
  lemma {:induction false} MembershipHistory(actions: seq<Action>, c: nat)
    ensures var s := Run(actions);
            && (c in s.members <==> StageOf(actions, c) == Inside)
            && (c in s.clients && s.clients[c].closed <==> StageOf(actions, c) == Closed)
  {
    if actions != [] {
      var front, a := actions[..|actions| - 1], actions[|actions| - 1];
      MembershipHistory(front, c);
      RunSafe(front);
      hide Next, Safe;
      if a.ServeReg? {
        RegistrationPlaces(Run(front), c, StageOf(front, c));
      } else if a.ServeUnreg? {
        UnregistrationPlaces(Run(front), c, StageOf(front, c));
      } else {
        OthersKeepPlace(Run(front), a, c, StageOf(front, c));
      }
    }
  }

  // ---------- Live messages arrive in order ----------

  /** The broadcast messages the hub took while client c was registered, in order. */
  function TakenFor(actions: seq<Action>, c: nat): seq<string> {
    if actions == [] then []
    else
      var front, a := actions[..|actions| - 1], actions[|actions| - 1];
      var s := Run(front);
      TakenFor(front, c) + (if a.ServeMsg? && Free(s) && s.msgCh != [] && c in s.members then [s.msgCh[0]] else [])
  }

  function LiveOnly(ms: seq<Msg>): seq<string> {
    if ms == [] then []
    else LiveOnly(ms[..|ms| - 1]) + (if ms[|ms| - 1].Live? then [ms[|ms| - 1].body] else [])
  }

  /** a is b with some elements left out. */
  ghost predicate Subsequence(a: seq<string>, b: seq<string>) {
    if b == [] then a == []
    else
      || Subsequence(a, b[..|b| - 1])
      || (a != [] && a[|a| - 1] == b[|b| - 1] && Subsequence(a[..|a| - 1], b[..|b| - 1]))
  }

  lemma SubsequenceSkip(a: seq<string>, b: seq<string>, x: string)
    requires Subsequence(a, b)
    ensures Subsequence(a, b + [x])
  {
  }

  lemma SubsequenceKeep(a: seq<string>, b: seq<string>, x: string)
    requires Subsequence(a, b)
    ensures Subsequence(a + [x], b + [x])
  {
  }

  lemma LiveSnoc(ms: seq<Msg>, m: Msg)
    ensures LiveOnly(ms + [m]) == LiveOnly(ms) + (if m.Live? then [m.body] else [])
  {
  }

  /** Everything put into a client's channel, delivered or still waiting. */
  function Channel(s: State, c: nat): seq<Msg> {
    if c in s.clients then s.clients[c].got + s.clients[c].queue else []
  }

  /** How one step can change a client's channel. */
  lemma ChannelStep(s: State, a: Action, c: nat)
    ensures var before, after := Channel(s, c), Channel(Next(s, a), c);
            || after == before
            || (a.SendSnapshot? && a.c == c && after == before + [Snapshot(a.snap)])
            || (a == Give(c) && Turn(s, c) && after == before + [Live(s.loop.msg)])
  {
    hide Next, Channel;
    assert Channel(s, c) + [] == Channel(s, c);
    match a
    case Drain(d) => DrainKeepsChannel(s, c, d);
    case SendSnapshot(d, snap) => SnapshotJoins(s, c, d, snap);
    case Give(d) => GiveJoins(s, c, d);
    case _ => OtherKeepsChannel(s, a, c);
  }

  lemma DrainKeepsChannel(s: State, c: nat, d: nat)
    ensures Channel(Next(s, Drain(d)), c) == Channel(s, c)
  {
    if c in s.clients && s.clients[c].queue != [] {
      var cl := s.clients[c];
      assert cl.got + [cl.queue[0]] + cl.queue[1..] == cl.got + cl.queue;
    }
  }

  lemma SnapshotJoins(s: State, c: nat, d: nat, snap: string)
    ensures var room := c in s.clients && |s.clients[c].queue| < 256;
            Channel(Next(s, SendSnapshot(d, snap)), c) == Channel(s, c) +
            if room && d == c && s.clients[c].phase == Registering then [Snapshot(snap)] else []
  {
    if c in s.clients {
      var cl := s.clients[c];
      assert cl.got + (cl.queue + [Snapshot(snap)]) == (cl.got + cl.queue) + [Snapshot(snap)];
    }
  }

  lemma GiveJoins(s: State, c: nat, d: nat)
    ensures var room := c in s.clients && |s.clients[c].queue| < 256;
            Channel(Next(s, Give(d)), c) == Channel(s, c) +
            if room && d == c && Turn(s, c) then [Live(s.loop.msg)] else []
  {
    if Turn(s, c) {
      var cl := s.clients[c];
      assert cl.got + (cl.queue + [Live(s.loop.msg)]) == (cl.got + cl.queue) + [Live(s.loop.msg)];
    }
  }

  lemma OtherKeepsChannel(s: State, a: Action, c: nat)
    requires !a.Drain? && !a.SendSnapshot? && !a.Give?
    ensures Channel(Next(s, a), c) == Channel(s, c)
  {
  }

  /** The messages whose fan-out has reached client c, in order. */
  function TurnsOf(actions: seq<Action>, c: nat): seq<string> {
    if actions == [] then []
    else
      var front, a := actions[..|actions| - 1], actions[|actions| - 1];
      var s := Run(front);
      TurnsOf(front, c) + (if a == Give(c) && Turn(s, c) then [s.loop.msg] else [])
  }

  /** The message on its way to client c. */
  function Owed(s: State, c: nat): seq<string> { if Turn(s, c) then [s.loop.msg] else [] }

  lemma OwedStep(s: State, a: Action, c: nat)
    requires Safe(s)
    ensures var taken := a.ServeMsg? && Free(s) && s.msgCh != [] && c in s.members;
            Owed(Next(s, a), c) == if taken then [s.msgCh[0]] else if a == Give(c) then [] else Owed(s, c)
  {
    hide Once, ClientOk;
    match a
    case Give(d) =>
      if Turn(s, d) {
        assert c in s.loop.todo - {d} <==> c in s.loop.todo && c != d;
      }
    case ServeMsg => assert c in s.members ==> s.members != {};
    case _ =>
  }

  /** Every message taken while a client is registered comes to that client in turn. */
  lemma {:induction false} TakenInTurn(actions: seq<Action>, c: nat)
    ensures TakenFor(actions, c) == TurnsOf(actions, c) + Owed(Run(actions), c)
  {
    if actions != [] {
      var front, a := actions[..|actions| - 1], actions[|actions| - 1];
      TakenInTurn(front, c);
      RunSafe(front);
      hide Next, Safe;
      OwedStep(Run(front), a, c);
    }
  }

  lemma {:induction false} LiveInTurn(actions: seq<Action>, c: nat)
    ensures Subsequence(LiveOnly(Channel(Run(actions), c)), TurnsOf(actions, c))
  {
    if actions != [] {
      var front, a := actions[..|actions| - 1], actions[|actions| - 1];
      var s := Run(front);
      LiveInTurn(front, c);
      hide Subsequence, LiveOnly, Next, Channel;
      ChannelStep(s, a, c);
      var before, turns := Channel(s, c), TurnsOf(front, c);
      assert turns + [] == turns && LiveOnly(before) + [] == LiveOnly(before);
      if a.SendSnapshot? {
        LiveSnoc(before, Snapshot(a.snap));
      } else if a == Give(c) && Turn(s, c) {
        LiveSnoc(before, Live(s.loop.msg));
        SubsequenceSkip(LiveOnly(before), turns, s.loop.msg);
        SubsequenceKeep(LiveOnly(before), turns, s.loop.msg);
      }
    }
  }

  /** The live messages a client is given form an in-order subsequence of the messages the
      hub took from the broadcast channel while the client was registered. */
  lemma LiveInOrder(actions: seq<Action>, c: nat)
    ensures Subsequence(LiveOnly(Channel(Run(actions), c)), TakenFor(actions, c))
  {
    LiveInTurn(actions, c);
    TakenInTurn(actions, c);
    hide Run, Subsequence, LiveOnly, Channel, TurnsOf, TakenFor;
    var live, turns, s := LiveOnly(Channel(Run(actions), c)), TurnsOf(actions, c), Run(actions);
    assert turns + [] == turns;
    if Turn(s, c) {
      SubsequenceSkip(live, turns, s.loop.msg);
    }
  }

  /** A client with room in its channel gets the message whose turn it is. */
  lemma RoomMeansDelivery(s: State, c: nat)
    requires Turn(s, c) && |s.clients[c].queue| < SEND_CAP
    ensures Channel(Next(s, Give(c)), c) == Channel(s, c) + [Live(s.loop.msg)]
  {
    var cl := s.clients[c];
    assert cl.got + (cl.queue + [Live(s.loop.msg)]) == (cl.got + cl.queue) + [Live(s.loop.msg)];
  }

  lemma {:induction false} GetsEveryTurn(actions: seq<Action>, c: nat)
    requires forall k :: 0 <= k < |actions| && c in Run(actions[..k]).clients ==>
               |Run(actions[..k]).clients[c].queue| < SEND_CAP
    ensures LiveOnly(Channel(Run(actions), c)) == TurnsOf(actions, c)
  {
    if actions != [] {
      var front, a := actions[..|actions| - 1], actions[|actions| - 1];
      var s := Run(front);
      assert forall k :: 0 <= k < |front| ==> front[..k] == actions[..k];
      GetsEveryTurn(front, c);
      hide LiveOnly, Next, Channel;
      ChannelStep(s, a, c);
      var before := Channel(s, c);
      if a == Give(c) && Turn(s, c) {
        RoomMeansDelivery(s, c);
        LiveSnoc(before, Live(s.loop.msg));
      } else if a.SendSnapshot? {
        LiveSnoc(before, Snapshot(a.snap));
      }
    }
  }

  /** A client whose channel always has room is given every message taken while it is
      registered, but for the one whose fan-out has not reached it yet. */
  lemma KeepsUp(actions: seq<Action>, c: nat)
    requires forall k :: 0 <= k < |actions| && c in Run(actions[..k]).clients ==>
               |Run(actions[..k]).clients[c].queue| < SEND_CAP
    ensures LiveOnly(Channel(Run(actions), c)) + Owed(Run(actions), c) == TakenFor(actions, c)
  {
    GetsEveryTurn(actions, c);
    TakenInTurn(actions, c);
  }

  // ---------- Every channel is a queue ----------

  /** The broadcasts that found room, in order. */
  function Broadcasts(actions: seq<Action>): seq<string> {
    if actions == [] then []
    else
      var front, a := actions[..|actions| - 1], actions[|actions| - 1];
      Broadcasts(front) + (if a.Broadcast? && |Run(front).msgCh| < 256 then [a.msg] else [])
  }

  /** The messages the hub took, whoever was registered. */
  function Taken(actions: seq<Action>): seq<string> {
    if actions == [] then []
    else
      var front, a := actions[..|actions| - 1], actions[|actions| - 1];
      var s := Run(front);
      Taken(front) + (if a.ServeMsg? && Free(s) && s.msgCh != [] then [s.msgCh[0]] else [])
  }

  /** The registrations and unregistrations that found room, in order. */
  function Requests(actions: seq<Action>, reg: bool): seq<nat> {
    if actions == [] then []
    else
      var front, a := actions[..|actions| - 1], actions[|actions| - 1];
      var s := Run(front);
      var put :=
        if reg then a.Register? && a.c in s.clients && s.clients[a.c].phase == Connecting && |s.regCh| < 64
        else a.Unregister? && a.c in s.clients && s.clients[a.c].phase == Leaving && |s.unregCh| < 64;
      Requests(front, reg) + (if put then [a.c] else [])
  }

  /** The registrations and unregistrations the hub served. */
  function Served(actions: seq<Action>, reg: bool): seq<nat> {
    if actions == [] then []
    else
      var front, a := actions[..|actions| - 1], actions[|actions| - 1];
      var s := Run(front);
      Served(front, reg) +
      (if reg && a.ServeReg? && Free(s) && s.regCh != [] then [s.regCh[0]]
       else if !reg && a.ServeUnreg? && Free(s) && s.unregCh != [] then [s.unregCh[0]] else [])
  }

  lemma QueueStep<T>(before: seq<T>, ch: seq<T>)
    requires ch != []
    ensures before + ch == before + [ch[0]] + ch[1..]
  {
  }

  /** No broadcast that found room is lost, repeated or reordered on its way to the hub. */
  lemma {:induction false} BroadcastsInOrder(actions: seq<Action>)
    ensures Broadcasts(actions) == Taken(actions) + Run(actions).msgCh
  {
    hide Next;
    if actions != [] {
      var front, a := actions[..|actions| - 1], actions[|actions| - 1];
      var s := Run(front);
      BroadcastsInOrder(front);
      MessagesStep(s, a);
      if s.msgCh != [] {
        QueueStep(Taken(front), s.msgCh);
      }
    }
  }

  /** Neither is a registration or an unregistration. */
  lemma {:induction false} RequestsInOrder(actions: seq<Action>, reg: bool)
    ensures Requests(actions, reg) == Served(actions, reg) + if reg then Run(actions).regCh else Run(actions).unregCh
  {
    hide Next;
    if actions != [] {
      var front, a := actions[..|actions| - 1], actions[|actions| - 1];
      var s := Run(front);
      RequestsInOrder(front, reg);
      RequestsStep(s, a);
      var ch := if reg then s.regCh else s.unregCh;
      if ch != [] {
        QueueStep(Served(front, reg), ch);
      }
    }
  }

  lemma MessagesStep(s: State, a: Action)
    ensures Next(s, a).msgCh == (if a.Broadcast? && |s.msgCh| < 256 then s.msgCh + [a.msg]
                                 else if a.ServeMsg? && Free(s) && s.msgCh != [] then s.msgCh[1..] else s.msgCh)
  {
    hide Offer, Fan, Turn;
  }

  lemma RequestsStep(s: State, a: Action)
    ensures var t := Next(s, a);
            && t.regCh == (if a.Register? && a.c in s.clients && s.clients[a.c].phase == Connecting && |s.regCh| < 64
                           then s.regCh + [a.c]
                           else if a.ServeReg? && Free(s) && s.regCh != [] then s.regCh[1..] else s.regCh)
            && t.unregCh == (if a.Unregister? && a.c in s.clients && s.clients[a.c].phase == Leaving && |s.unregCh| < 64
                             then s.unregCh + [a.c]
                             else if a.ServeUnreg? && Free(s) && s.unregCh != [] then s.unregCh[1..] else s.unregCh)
  {
    hide Offer, Fan, Turn;
  }

  /** What was put into a client's channel: its snapshot, and each message whose turn came,
      when fewer than 256 were waiting. */
  function Given(actions: seq<Action>, c: nat): seq<Msg> {
    if actions == [] then []
    else
      var front, a := actions[..|actions| - 1], actions[|actions| - 1];
      var s := Run(front);
      var room := c in s.clients && |s.clients[c].queue| < 256;
      Given(front, c) +
      (if room && a.SendSnapshot? && a.c == c && s.clients[c].phase == Registering then [Snapshot(a.snap)]
       else if room && a == Give(c) && Turn(s, c) then [Live(s.loop.msg)] else [])
  }

  /** How many messages the client's writer has taken. */
  function Drained(actions: seq<Action>, c: nat): nat {
    if actions == [] then 0
    else
      var front, a := actions[..|actions| - 1], actions[|actions| - 1];
      var s := Run(front);
      Drained(front, c) + (if a == Drain(c) && c in s.clients && s.clients[c].queue != [] then 1 else 0)
  }

  lemma GivenStep(s: State, a: Action, c: nat)
    ensures var room := c in s.clients && |s.clients[c].queue| < 256;
            Channel(Next(s, a), c) == Channel(s, c) +
            (if room && a.SendSnapshot? && a.c == c && s.clients[c].phase == Registering then [Snapshot(a.snap)]
             else if room && a == Give(c) && Turn(s, c) then [Live(s.loop.msg)] else [])
  {
    hide Next, Channel, Turn;
    match a
    case Drain(d) => DrainKeepsChannel(s, c, d);
    case SendSnapshot(d, snap) => SnapshotJoins(s, c, d, snap);
    case Give(d) => GiveJoins(s, c, d);
    case _ => OtherKeepsChannel(s, a, c);
  }

  function Got(s: State, c: nat): nat { if c in s.clients then |s.clients[c].got| else 0 }

  lemma GotStep(s: State, a: Action, c: nat)
    ensures Got(Next(s, a), c) == Got(s, c) +
            if a == Drain(c) && c in s.clients && s.clients[c].queue != [] then 1 else 0
  {
    hide Fan;
  }

  /** A client's channel holds exactly what was given to it, in order, and its writer takes
      from the front. */
  lemma {:induction false} ChannelIsQueue(actions: seq<Action>, c: nat)
    ensures Channel(Run(actions), c) == Given(actions, c) && Drained(actions, c) <= |Given(actions, c)|
    ensures c in Run(actions).clients ==> Run(actions).clients[c].got == Given(actions, c)[..Drained(actions, c)]
  {
    ChannelAndCount(actions, c);
  }

  lemma {:induction false} ChannelAndCount(actions: seq<Action>, c: nat)
    ensures Channel(Run(actions), c) == Given(actions, c)
    ensures Drained(actions, c) == Got(Run(actions), c)
  {
    if actions != [] {
      var front, a := actions[..|actions| - 1], actions[|actions| - 1];
      ChannelAndCount(front, c);
      hide Next, Channel, Turn;
      hide Got;
      GivenStep(Run(front), a, c);
      GotStep(Run(front), a, c);
    }
  }

  // ---------- The life of a client ----------

  /** A new connection becomes a member once its registration is served. */
  lemma ClientJoins(s: State, c: nat)
    requires c !in s.clients && s.regCh == [] && Free(s)
    ensures Next(Next(Next(s, Accept(c)), Register(c)), ServeReg)
         == s.(clients := s.clients[c := Client(Registering, [], [], false, 0)], members := s.members + {c})
  {
  }

  /** The snapshot goes into the handler's own channel, whether or not it is registered yet. */
  lemma ClientIsGreeted(s: State, c: nat, snap: string)
    requires c in s.clients && s.clients[c].phase == Registering && !s.clients[c].closed
    requires |s.clients[c].queue| < 256
    ensures var cl := s.clients[c];
            Next(s, SendSnapshot(c, snap))
            == s.(clients := s.clients[c := cl.(phase := Serving, queue := cl.queue + [Snapshot(snap)])])
  {
  }

  /** A broadcast reaches a lone member with room behind what already waits. */
  lemma ClientIsTold(s: State, c: nat, msg: string)
    requires Free(s) && s.msgCh == [] && s.members == {c} && c in s.clients && |s.clients[c].queue| < 256
    requires !s.clients[c].closed
    ensures var cl := s.clients[c];
            Next(Next(Next(s, Broadcast(msg)), ServeMsg), Give(c))
            == s.(clients := s.clients[c := cl.(queue := cl.queue + [Live(msg)])])
  {
    var t := Next(Next(s, Broadcast(msg)), ServeMsg);
    assert t == s.(loop := Sending(msg, {c}));
    assert {c} - {c} == {} && Turn(t, c);
  }

  /** The writer takes the message that waited longest. */
  lemma ClientReads(s: State, c: nat)
    requires c in s.clients && s.clients[c].queue != []
    ensures var cl := s.clients[c];
            Next(s, Drain(c))
            == s.(clients := s.clients[c := cl.(got := cl.got + [cl.queue[0]], queue := cl.queue[1..])])
  {
  }

  /** Without a snapshot the handler goes on all the same. */
  lemma ClientUngreeted(s: State, c: nat)
    requires c in s.clients && s.clients[c].phase == Registering
    ensures Next(s, SkipSnapshot(c)) == s.(clients := s.clients[c := s.clients[c].(phase := Serving)])
  {
  }

  /** A connection whose registration finds no room is turned away. */
  lemma ClientTurnedAway(s: State, c: nat)
    requires c !in s.clients && |s.regCh| == 64
    ensures Next(Next(s, Accept(c)), Register(c)) == s.(clients := s.clients[c := Client(Leaving, [], [], false, 0)])
  {
  }

  /** After it has quit the hub serves nothing. */
  lemma QuitStops(s: State, a: Action)
    requires Free(s) && (a.ServeReg? || a.ServeUnreg? || a.ServeMsg? || a.Give?)
    ensures Next(s, Quit) == s.(quit := true) && Next(Next(s, Quit), a) == Next(s, Quit)
  {
  }

  /** A client that hangs up leaves the members and has its channel closed. */
  lemma ClientLeaves(s: State, c: nat)
    requires c in s.clients && s.clients[c].phase == Serving && c in s.members && s.unregCh == [] && Free(s)
    requires !s.clients[c].closed && s.clients[c].closes == 0
    ensures Next(Next(Next(s, Hangup(c)), Unregister(c)), ServeUnreg)
         == s.(clients := s.clients[c := s.clients[c].(phase := Gone, closed := true, closes := 1)],
               members := s.members - {c})
  {
  }

  // ---------- Slow clients do not disturb others ----------

  /** The run without the reading done by other clients' writers. */
  function Without(actions: seq<Action>, c: nat): seq<Action> {
    if actions == [] then []
    else
      var a := actions[|actions| - 1];
      Without(actions[..|actions| - 1], c) + (if a.Drain? && a.c != c then [] else [a])
  }

  /** The two states differ at most in the channels of clients other than c. */
  ghost predicate SameFor(s: State, t: State, c: nat) {
    && s.members == t.members && s.regCh == t.regCh && s.unregCh == t.unregCh && s.msgCh == t.msgCh
    && s.loop == t.loop && s.quit == t.quit && s.panicked == t.panicked && s.clients.Keys == t.clients.Keys
    && (forall d :: d in s.clients ==> SameClient(s.clients[d], t.clients[d]))
    && (c in s.clients ==> s.clients[c] == t.clients[c])
  }

  ghost predicate SameClient(a: Client, b: Client) {
    a.phase == b.phase && a.closed == b.closed && a.closes == b.closes
  }

  lemma SameWith(s: State, t: State, c: nat, d: nat, x: Client, y: Client)
    requires SameFor(s, t, c) && SameClient(x, y) && (d == c ==> x == y)
    ensures SameFor(With(s, d, x), With(t, d, y), c)
  {
  }

  lemma SameHub(s: State, t: State, c: nat, a: Action)
    requires SameFor(s, t, c) && (a.Broadcast? || a.Quit? || a.ServeReg? || a.ServeMsg?)
    ensures SameFor(Next(s, a), Next(t, a), c)
  {
    hide CloseSend, SameClient;
  }

  lemma SameUnreg(s: State, t: State, c: nat)
    requires SameFor(s, t, c)
    ensures SameFor(Next(s, ServeUnreg), Next(t, ServeUnreg), c)
  {
    if s.unregCh != [] && s.unregCh[0] in s.clients {
      assert SameClient(s.clients[s.unregCh[0]], t.clients[s.unregCh[0]]);
    }
  }

  lemma SameQueues(s: State, t: State, c: nat, regCh: seq<nat>, unregCh: seq<nat>, panicked: bool)
    requires SameFor(s, t, c)
    ensures SameFor(s.(regCh := regCh, unregCh := unregCh, panicked := panicked),
                    t.(regCh := regCh, unregCh := unregCh, panicked := panicked), c)
  {
  }

  lemma SameAt(s: State, t: State, c: nat, d: nat)
    requires SameFor(s, t, c)
    ensures d in s.clients <==> d in t.clients
    ensures d in s.clients ==> SameClient(s.clients[d], t.clients[d]) && (d == c ==> s.clients[d] == t.clients[d])
    ensures s.regCh == t.regCh && s.unregCh == t.unregCh && s.panicked == t.panicked
  {
  }

  lemma SameHandler(s: State, t: State, c: nat, a: Action)
    requires SameFor(s, t, c)
    requires a.Accept? || a.Register? || a.SendSnapshot? || a.SkipSnapshot? || a.Hangup? || a.Unregister?
    ensures SameFor(Next(s, a), Next(t, a), c)
  {
    hide CloseSend, SameFor;
    var d := a.c;
    SameAt(s, t, c, d);
    if a.Accept? {
      var blank := Client(Connecting, [], [], false, 0);
      SameWith(s, t, c, d, blank, blank);
    } else if d in s.clients {
      var x, y := s.clients[d], t.clients[d];
      forall p: Phase
        ensures SameFor(With(s, d, x.(phase := p)), With(t, d, y.(phase := p)), c)
      {
        SameWith(s, t, c, d, x.(phase := p), y.(phase := p));
      }
      match a
      case Register(_) =>
        SameQueues(With(s, d, x.(phase := Registering)), With(t, d, y.(phase := Registering)), c,
                   s.regCh + [d], s.unregCh, s.panicked);
      case Unregister(_) =>
        SameQueues(With(s, d, x.(phase := Gone)), With(t, d, y.(phase := Gone)), c,
                   s.regCh, s.unregCh + [d], s.panicked);
      case SendSnapshot(_, snap) =>
        var x', y' := Offer(x, Snapshot(snap)).(phase := Serving), Offer(y, Snapshot(snap)).(phase := Serving);
        SameWith(s, t, c, d, x', y');
        SameQueues(With(s, d, x'), With(t, d, y'), c, s.regCh, s.unregCh, s.panicked || x.closed);
      case _ =>
    }
  }

  lemma SameGive(s: State, t: State, c: nat, d: nat)
    requires SameFor(s, t, c)
    ensures SameFor(Next(s, Give(d)), Next(t, Give(d)), c)
  {
    if Turn(s, d) {
      assert SameClient(s.clients[d], t.clients[d]);
      SameWith(s, t, c, d, Offer(s.clients[d], Live(s.loop.msg)), Offer(t.clients[d], Live(s.loop.msg)));
    }
  }

  lemma SameDrain(s: State, t: State, c: nat, d: nat)
    requires SameFor(s, t, c)
    ensures d == c ==> SameFor(Next(s, Drain(d)), Next(t, Drain(d)), c)
    ensures d != c ==> SameFor(Next(s, Drain(d)), t, c)
  {
  }

  lemma SameNext(s: State, t: State, a: Action, c: nat)
    requires SameFor(s, t, c)
    ensures !(a.Drain? && a.c != c) ==> SameFor(Next(s, a), Next(t, a), c)
    ensures a.Drain? && a.c != c ==> SameFor(Next(s, a), t, c)
  {
    match a
    case Drain(d) => SameDrain(s, t, c, d);
    case Give(d) => SameGive(s, t, c, d);
    case ServeMsg => SameHub(s, t, c, a);
    case Broadcast(_) => SameHub(s, t, c, a);
    case Quit => SameHub(s, t, c, a);
    case ServeReg => SameHub(s, t, c, a);
    case ServeUnreg => SameUnreg(s, t, c);
    case _ => SameHandler(s, t, c, a);
  }

  lemma SameChannel(s: State, t: State, c: nat)
    requires SameFor(s, t, c)
    ensures Channel(s, c) == Channel(t, c)
  {
  }

  lemma SameInit(c: nat)
    ensures SameFor(INITIAL, INITIAL, c)
  {
  }

  lemma RunSnoc(actions: seq<Action>, a: Action)
    ensures Run(actions + [a]) == Next(Run(actions), a)
  {
    assert (actions + [a])[..|actions|] == actions;
  }

  /** What a client is given does not depend on whether, or how fast, others read. */
  lemma {:induction false} SlowClientsDoNotDisturb(actions: seq<Action>, c: nat)
    ensures SameFor(Run(actions), Run(Without(actions, c)), c)
    ensures Channel(Run(actions), c) == Channel(Run(Without(actions, c)), c)
  {
    hide Next, SameFor, Channel;
    if actions == [] {
      SameInit(c);
    } else {
      var front, a := actions[..|actions| - 1], actions[|actions| - 1];
      SlowClientsDoNotDisturb(front, c);
      SameNext(Run(front), Run(Without(front, c)), a, c);
      RunSnoc(Without(front, c), a);
      assert Without(front, c) + [] == Without(front, c);
    }
    SameChannel(Run(actions), Run(Without(actions, c)), c);
  }
}
