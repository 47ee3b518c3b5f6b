# Verification of the OBARENA platform's core

This project models the parts of the OBARENA order-book arena whose correctness is hard to
see from the code, and proves what they promise for every input, every run and every
interleaving. `dafny verify dfyconfig.toml` checks everything.

## What is modelled

**The stub matching engine** (`services/stub/main.go`).

- `OrderHeaps.dfy` is the indexed binary heap of shared order objects under the sift-up,
  sift-down, push, pop, fix and remove of Go's `container/heap`. `StubBook.dfy` is the book
  on top of it (two heaps and an id map, changed together), and `Engine.dfy` the sessions and
  handlers around the book.
- `ListBook.dfy` is a second, deliberately plain engine that keeps each side as a list sorted
  by price and entry time. The central theorem, `Engine.Simulate`, is that over every sequence
  of connects, orders, cancels and disconnects and every wall clock the heap engine sends the
  same messages with the same stamps, keeps the same sessions and holds the same orders.
  `Engine.Serve` hands out the server object after any run, and
  `Engine.Server.EveryOrderAccounted` says where each of its order objects then is.
- `Interleaving.dfy` takes the requests apart: one step per stamp, with other sessions taking
  stamps while an order holds the lock. Every interleaving moves the book, and answers every
  session, as if the requests had run one after the other. `SharedServer.dfy` runs the same
  interleavings on the heaps and order objects, in step with the sorted lists throughout, and
  `Schedules.dfy` shows that every sequential run is one of them.
- The plain engine is then proved right without reference to how it runs: price-time priority
  (`PriceTime.dfy`), the invariants of every run (`BookInvariants.dfy`), conservation of
  quantity per order and overall (`Conservation.dfy`, `EngineRuns.dfy`), and the price-level
  snapshot (`Snapshot.dfy`). `Clock.dfy` shows the lock-free clock linearizable.

**The protocols around it.** `LoadBot.dfy` (pending orders, in-flight counter, backpressure,
stale collector, reconnects), `Hub.dfy` (registration and lossy fan-out over Go channels),
`Ingester.dfy` and `ScoreTable.dfy` (buffer, flush, retries, upsert) and `TestLock.dfy` are
state machines whose steps are the critical sections, atomic operations and channel operations
of the code, taken in any order. `Ingester.dfy` also has the buffer as an object with a reused
backing array.

**Scoring.** `CorrectnessBot.dfy` scores a correctness run against an engine that may reply,
stall or fail in any way; `BotSession.dfy` connects it to the engine model, and
`ReferenceRun.dfy` shows exactly when the engine then passes all 33 assertions. `Scoring.dfy` and `Leaderboard.dfy` follow a
score through the update script into the two listings. `Truncate.dfy` is UTF-8-safe truncation.

Prices, rates and scores are reals. The wall clock is an arbitrary function from the number of
the reading to its value. Network replies, failures, connection addresses and map iteration
orders are arbitrary inputs or arbitrary choices.

## Where the code and its documentation differ

The model follows the code.

- Only the incoming order gets fill messages; a resting order that is hit is told nothing,
  although `docs/api-contract.md` promises fills to resting orders
  (`services/stub/main.go:203-210`).
- A market order that cannot fully fill is acknowledged, partly filled and then rejected;
  `docs/api-contract.md` says a reject is sent instead of an ack
  (`services/stub/main.go:387-399`).
- A cancel of another session's order is answered `unauthorized`, which the contract also
  lists under `unknown_order` (`services/stub/main.go:423-430`).
- Backpressure admits one order when 20 are in flight, so the ceiling is 21, not the 20 of
  `docs/scoring.md` (`services/bot-runner/bot.go:200-210`).
- After a failed write the same order ids are sent again and an id still pending is counted
  twice in flight. `LoadBot.GapAfterFailedWrite` is such a run; the gap never shrinks, never
  exceeds 20, and is at most one slot per order step and failed write.
- Each matched ack and fill is counted twice (`services/bot-runner/bot.go:144-148`,
  `services/bot-runner/metrics.go:33-41`).
- A listed entry is looked up under its member up to the first colon, although members carry
  no team name any more: `Leaderboard.EntryNamesPrefix` shows that an entry names its own
  submission exactly when the submission id has no colon.
- `NewIngester` checks that the latency ceiling is positive but not the throughput ceiling.
  `Scoring.MonotoneExactly` shows that the score is monotone exactly when that ceiling is not
  negative; with a zero ceiling and no throughput the score is not a number.

## Model

| member | source | states |
|---|---|---|
| `Clock.Sequential.Now` | services/stub/main.go:31-42 | one call advances the clock to the reading or to one past the last stamp, whichever is later, and returns it |
| `Clock.NextKeepsInv` | services/stub/main.go:33-41 | every load or compare-and-swap of any thread keeps the finished calls a sequence of sequential ticks |
| `Clock.Linearizable` | services/stub/main.go:29-42 | over every interleaving the stamps are those of the sequential clock in swap order, strictly increasing, at least 1, never below the caller's reading, and smaller for a call that ended before another began |
| `Clock.FailedSwapMeansProgress` | services/stub/main.go:38-40 | a compare-and-swap fails only if another call completed since this thread's load |
| `Clock.UndisturbedCall` | services/stub/main.go:31-42 | a call that nobody disturbs returns its reading, or one past the last stamp if that is later |
| `Clock.LostSwapRetries` | services/stub/main.go:33-41 | a call that lost its swap leaves no trace and completes in its next undisturbed round |
| `Orders.Order.constructor` | services/stub/main.go:371-381 | a new order has its whole quantity remaining and heap index -1 |
| `OrderHeaps.OrderHeap.Swap` | services/stub/main.go:115-119 | swapping exchanges exactly two slots and keeps every stored index right |
| `OrderHeaps.OrderHeap.Up` | services/stub/main.go:107-119 | sift-up turns a heap with one disordered upward edge into a heap with the same orders and right indices |
| `OrderHeaps.OrderHeap.Down` | services/stub/main.go:107-119 | sift-down repairs the heap, or reports that nothing moved and only the upward edge may be wrong; orders and indices are kept |
| `OrderHeaps.OrderHeap.Push` | services/stub/main.go:121-126 | push keeps heap order and indices and adds exactly that order |
| `OrderHeaps.OrderHeap.DropLast` | services/stub/main.go:128-136 | the slice pop detaches the last slot and sets its index to -1 |
| `OrderHeaps.OrderHeap.Pop` | services/stub/main.go:211-213 | pop removes exactly the root, sets its index to -1 and keeps heap order and indices |
| `OrderHeaps.OrderHeap.Fix` | services/stub/main.go:214-216 | fix restores a heap disordered around one slot, keeping orders and indices |
| `OrderHeaps.OrderHeap.Remove` | services/stub/main.go:265-273 | removal at an index removes exactly that order from anywhere in the heap |
| `OrderHeaps.RootIsBest` | services/stub/main.go:108-113 | the root of a heap has the best price in it and, at that price, the earliest entry |
| `StubBook.Orderbook.constructor` | services/stub/main.go:179-186 | a new book stands for the two empty lists |
| `StubBook.Orderbook.RootIsHead` | services/stub/main.go:195-196 | the root of each heap is the head of the sorted list it stands for, and is the order mapped under its id |
| `StubBook.Orderbook.MappedIndex` | services/stub/main.go:265-273 | a mapped order's stored index is its position in its own side's heap, so the index guards never fail |
| `StubBook.Orderbook.TradePart` | services/stub/main.go:200-216 | a trade that leaves part of the best order shrinks the head of the sorted list in place |
| `StubBook.Orderbook.TradeAll` | services/stub/main.go:200-213 | a trade that exhausts the best order removes it from heap, map and sorted list together and leaves it with index -1 |
| `StubBook.Orderbook.Trade` | services/stub/main.go:196-216 | one round of the matching loop is one step of the sorted-list match, with the same fill message |
| `StubBook.Orderbook.Match` | services/stub/main.go:191-245 | the matching loop ends and its fills, remaining quantity, clock and book are exactly those of the sorted-list match |
| `StubBook.Orderbook.Rest` | services/stub/main.go:249-256 | resting an order is insertion into the sorted list of its side |
| `StubBook.Orderbook.Remove` | services/stub/main.go:258-274 | removal by id through the stored index is removal from the sorted lists, leaves the order with index -1, and does nothing for an unknown id |
| `StubBook.Orderbook.SessionOrders` | services/stub/main.go:280-285 | the collected orders are exactly the session's, in whatever order the map is visited |
| `StubBook.Orderbook.CancelSession` | services/stub/main.go:276-290 | cancelling a session drops exactly its ids from the sorted lists, whatever the map order |
| `Engine.Server.Refuse` | services/stub/main.go:339-343 | a refusal changes nothing but the clock and adds one stamped reject |
| `Engine.Server.Enter` | services/stub/main.go:371-389 | a stamped new order is matched exactly as the sorted-list engine matches it |
| `Engine.Server.Accept` | services/stub/main.go:371-409 | the locked section acks, fills and then rests or rejects as the sorted-list engine does |
| `Engine.Server.HandleOrder` | services/stub/main.go:330-410 | validation, duplicate check and acceptance agree with the sorted-list engine |
| `Engine.Server.HandleCancel` | services/stub/main.go:412-435 | unknown, foreign and own cancels agree with the sorted-list engine |
| `Engine.Server.HandleDisconnect` | services/stub/main.go:507-514 | a disconnect cancels the session's orders and closes the session |
| `Engine.Server.HandleConnect` | services/stub/main.go:496-503 | a connect stamps and opens a new session id |
| `Engine.Server.Step` | services/stub/main.go:516-535 | every command keeps the heap server equal to the sorted-list engine |
| `Engine.Serve` | services/stub/main.go:172-290 | after every run the server's heaps are in order with right indices, its map holds exactly the orders on the heaps, and it stands for the sorted-list engine |
| `Engine.Server.EveryOrderAccounted` | services/stub/main.go:105-290 | every order object the server ever matched is on its own side's heap at its stored index, mapped under its id, of limit type, with 0 < remaining <= quantity and an open session, or is nowhere and has index -1; there is exactly one object for each accepted order |
| `Agreement.AgreesUnique` | services/stub/main.go:172-177 | a table of resting orders stands for one pair of sorted lists only |
| `Engine.Simulate` | services/stub/main.go:191-290 | refinement over every run: same messages, same stamps, same open sessions, same resting orders, which stand for no other book, and snapshots that describe them |
| `Interleaving.FollowsMatch` | services/stub/main.go:191-245 | rounds of the matching loop taken one at a time, with any stamps in between, add up to the sorted-list match under readings that give those stamps |
| `Interleaving.NextSound` | services/stub/main.go:191-435 | every step of any session, in or out of the lock, keeps the book sorted, live and uncrossed and the locked section consistent |
| `Interleaving.FinishIsStep` | services/stub/main.go:358-409 | a finished locked section leaves the book and hands over the replies of one atomic step on the book it found |
| `Interleaving.AskIsStep` | services/stub/main.go:335-369 | a request answered outside the section has the effect and the answer of one atomic step, whenever its stamp is taken |
| `Interleaving.BookIsAtomic` | services/stub/main.go:330-435 | over every interleaving the book is that of the list engine running the requests one after the other in the order they took effect |
| `Interleaving.RepliesAreAtomic` | services/stub/main.go:330-435 | over every interleaving what a session is told, but for the stamps, is what the list engine tells it when the requests run one after the other in that order |
| `Interleaving.NextGrows` | services/stub/main.go:339-434 | a step leaves a session's stamped replies alone or adds one with a stamp later than every stamp given before |
| `Interleaving.EveryInterleaving` | services/stub/main.go:330-435 | over every interleaving both sides are sorted, live, uncrossed and owned even in mid-match, and each session's messages carry strictly increasing stamps |
| `Schedules.RoundsMatch` | services/stub/main.go:191-245 | as many rounds of the loop as the sorted-list match has hits make the whole match |
| `Schedules.CommandRuns` | services/stub/main.go:330-435 | carrying one request to its end step by step has the effect, the replies and the stamps of one command of the list engine |
| `Schedules.EveryRunIsInterleaving` | services/stub/main.go:330-435 | every run of the list engine is an interleaving with the same book, clock, sessions and messages |
| `StubBook.Orderbook.Strike` | services/stub/main.go:200-216 | one trade under any stamp takes the smaller remaining quantity from both orders and leaves the heaps standing for the sorted side after that trade |
| `SharedServer.Shared.Enter` | services/stub/main.go:358-387 | an order that finds the lock free and its id unused is stamped and holds the lock |
| `SharedServer.Shared.Ask` | services/stub/main.go:330-434 | a request picks its reply, waits for the lock or enters the locked section exactly as on the sorted lists |
| `SharedServer.Shared.Trade` | services/stub/main.go:195-216 | one round of the matching loop on the heaps is one round on the sorted lists |
| `SharedServer.Shared.Finish` | services/stub/main.go:394-409 | the locked section ends by resting or rejecting what is left, unlocking and handing over its messages |
| `SharedServer.Shared.Close` | services/stub/main.go:276-290 | a closed session's orders leave heaps, map and sorted lists together |
| `SharedServer.Shared.Step` | services/stub/main.go:330-435 | every step of every handler keeps the heap server in step with the interleaved sorted-list engine |
| `SharedServer.Serve` | services/stub/main.go:191-435 | over every interleaving of any number of sessions the heap server holds the orders, indices and map of the sorted-list engine and has sent its messages with its stamps |
| `PriceTime.MatchHitsPrefix` | services/stub/main.go:195-216 | the orders hit are a prefix of the opposite side at acceptable prices, all but the last consumed whole, and the side left is the rest behind what is left of the last |
| `PriceTime.MatchAccounts` | services/stub/main.go:200-210 | each fill's remaining is the quantity minus the fills so far, and matching stops only when filled or when the next order is out of reach |
| `PriceTime.MatchStamped` | services/stub/main.go:203-210 | fill stamps strictly increase and lie after the order's entry |
| `PriceTime.MatchFillsAllItCan` | services/stub/main.go:195-217 | the filled quantity is the smaller of the order's quantity and the volume within its limit price, or of the whole side for a market order |
| `PriceTime.MatchConservesVolume` | services/stub/main.go:200-202 | the opposite side loses exactly what the order gains |
| `PriceTime.PriceTimePriority` | services/stub/main.go:191-245 | earlier hits are at better prices or entered earlier at the same price; nothing left is at a better price than an order hit, and what is left at its price entered later or is that order |
| `PriceTime.LimitsRespected` | services/stub/main.go:195-217 | no limit order trades beyond its limit, it stops only when filled or when every price left is beyond it; a market order trades at any price until filled or nothing is left, and gets the smaller of its size and all there is |
| `BookInvariants.MatchKeeps` | services/stub/main.go:191-245 | matching keeps sides sorted, live and uncrossed with distinct ids and entry times |
| `BookInvariants.InsertKeeps` | services/stub/main.go:249-256 | resting an order that crosses nothing keeps the book invariant |
| `BookInvariants.NothingCrosses` | services/stub/main.go:197-199 | nothing on the opposite side is in reach of a limit order that still has something left |
| `BookInvariants.AcceptKeeps` | services/stub/main.go:371-403 | accepting an order keeps the engine invariant |
| `BookInvariants.CancelKeeps` | services/stub/main.go:412-435 | a cancel keeps the engine invariant |
| `BookInvariants.DisconnectRemovesExactly` | services/stub/main.go:276-290 | a disconnect removes exactly the session's orders and leaves all others unchanged |
| `BookInvariants.OrderAnswer` | services/stub/main.go:335-369 | each refusal reason is given exactly for its cause and an ack otherwise; a refused order is answered once and leaves the book as it was |
| `BookInvariants.OrderFate` | services/stub/main.go:386-403 | the ack comes first; with enough crossing volume the order is filled and gone, otherwise a limit order rests with exactly the difference and a market order is rejected and does not rest |
| `BookInvariants.CancelFate` | services/stub/main.go:412-435 | a cancel removes exactly the owner's order, and otherwise changes nothing and gives the right reason |
| `BookInvariants.UnknownKind` | services/stub/main.go:527-533 | a message of an unknown type is refused once and changes nothing |
| `BookInvariants.SessionsStep` | services/stub/main.go:493-535 | a connect opens one session, a disconnect closes one, only the session that asked is answered and always is, and a closed session cannot ask |
| `BookInvariants.StepKeeps` | services/stub/main.go:516-535 | every command keeps the engine invariant |
| `BookInvariants.RunKeeps` | services/stub/main.go:172-177 | the engine invariant holds after every run |
| `BookInvariants.SessionIdUnique` | services/stub/main.go:497 | a session id determines its address and its stamp |
| `BookInvariants.SessionIdsNeverRecur` | services/stub/main.go:496-503 | a new connection never gets the id of any earlier session, open or closed |
| `BookInvariants.ClosedForGood` | services/stub/main.go:507-514 | a session that was closed never reopens and is told nothing any more |
| `BookInvariants.SessionIdFormat` | services/stub/main.go:497 | a session id is the address, a slash and the stamp |
| `BookInvariants.EveryRunIsSound` | services/stub/main.go:191-290 | after every run bids stand by falling and asks by rising price, each price in order of entry; the best bid is below the best ask, every resting order has 0 < remaining <= quantity and an open session, ids are unique, and message stamps strictly increase |
| `Conservation.MatchBalances` | services/stub/main.go:200-216 | each resting order loses exactly what it traded and the incoming order gains the sum |
| `Conservation.AcceptBalances` | services/stub/main.go:371-403 | accepting an order keeps every order's account balanced |
| `Conservation.StepBalances` | services/stub/main.go:371-435 | every command keeps every order's account balanced |
| `Conservation.StepReports` | services/stub/main.go:389-392 | the fill messages sent for an order, and for all, account for exactly the quantity taken, and all taken was made |
| `EngineRuns.RunConserves` | services/stub/main.go:191-290 | accounts balance after every run, for each order and for all together |
| `EngineRuns.RunAcceptsOnce` | services/stub/main.go:378 | entry times identify accepted orders |
| `EngineRuns.RunAcks` | services/stub/main.go:383-387 | every accepted order's entry time is the stamp of an ack that was sent |
| `EngineRuns.Conserved` | services/stub/main.go:371-435 | every accepted quantity is its fills as incoming order, its fills as resting order, what rests, what was cancelled and what was refused; exactly one ack carries its entry time, and the fills sent after it to that session for that order sum to its fills as incoming order; total fills taken, made and reported are equal |
| `EngineRuns.FillsReportRemaining` | services/stub/main.go:203-210 | after every run each fill goes to the session and order of the last ack, and its remaining is the accepted quantity minus all fills sent for that order so far |
| `Snapshot.Aggregate` | services/stub/main.go:453-460 | the per-price sums over a heap slice are the sums over the sorted side, whatever the slice order |
| `Snapshot.SortLevels` | services/stub/main.go:471-472 | the levels come out strictly sorted with the same elements |
| `Snapshot.SideSnapshot` | services/stub/main.go:463-472 | one side of the snapshot is strictly sorted with one level per price, each the whole quantity at its price |
| `Snapshot.Take` | services/stub/main.go:450-476 | both sides of the snapshot describe exactly the resting orders |
| `Snapshot.DescribesUnique` | services/stub/main.go:463-472 | the snapshot is determined by the resting orders |
| `Snapshot.FirstLevel` | services/stub/main.go:471-472 | the first level is at the best price, and there is none only for an empty side |
| `Snapshot.LevelsCountPrices` | services/stub/main.go:463-470 | there are as many levels as distinct resting prices |
| `Snapshot.SnapshotShowsAll` | services/stub/main.go:453-470 | the levels of a side add up to all that remains to trade on it |
| `Snapshot.SnapshotOfRun` | services/stub/main.go:450-476 | after every run level quantities are positive and the first bid is below the first ask |
| `LoadBot.OrderIdInjective` | services/bot-runner/sequence.go:38-40 | order ids are injective in bot, iteration and tag |
| `LoadBot.OrderIdFormat` | services/bot-runner/sequence.go:38-40 | order ids look like b3-i12-bid1 |
| `LoadBot.ReplyEffect` | services/bot-runner/bot.go:140-162 | a reply closes exactly the pending order it is final for and frees one slot; anything else changes neither |
| `LoadBot.NextKeepsLedger` | services/bot-runner/bot.go:77-220 | every step of writer, reader or collector keeps the ledger and the in-flight bound |
| `LoadBot.Collect` | services/bot-runner/bot.go:85-94 | one collector round keeps exactly the orders pending for at most five seconds and lowers the counter by the number expired |
| `LoadBot.NextPaced` | services/bot-runner/bot.go:183-222 | every step keeps the number of ids sent again while pending within one per order step and failed write, and none in a first pass over an iteration |
| `LoadBot.InFlightAccounting` | services/bot-runner/bot.go:72-226 | pending <= in flight <= 21; the gap is exactly the ids sent again while pending, never shrinks, is at most 20 and at most one per order step and failed write, so zero when no write failed; an empty pending map never blocks the writer |
| `LoadBot.OrderLedger` | services/bot-runner/bot.go:77-220 | with every count taken from the actions alone: sent = pending + closed + expired + overwritten; stale = expired + connection errors; acks and fills are counted twice, rejects once |
| `LoadBot.TallyIsObserved` | services/bot-runner/bot.go:77-220 | the counts are those an observer of the steps would make |
| `LoadBot.CheckDecides` | services/bot-runner/bot.go:200-210 | a waiting order is let through exactly when at most 20 are in flight |
| `LoadBot.BoundsReached` | services/bot-runner/bot.go:200-222 | 21 in flight and a gap of 20 are reached |
| `LoadBot.ConnectionLost` | services/bot-runner/bot.go:183-222 | a connection error keeps orders, ids and iteration, and the next connection starts the iteration over |
| `LoadBot.CancelFollowsOrder` | services/bot-runner/bot.go:183-199 | a cancel is written exactly when an order with its tag was made before |
| `LoadBot.IterationSends` | services/bot-runner/bot.go:183-222 | with slots to spare one pass sends every order of the iteration once and goes on to the next iteration |
| `LoadBot.GapAfterFailedWrite` | services/bot-runner/bot.go:214-222 | a run in which one failed write leaves one order pending and two in flight |
| `LoadBot.LoadSequencesLeak` | services/bot-runner/sequence.go:51-155 | the three load sequences tag orders distinctly, so a failed write leaks at most as many slots as the sequence places orders, and nothing leaks without one |
| `Hub.NextSafe` | services/leaderboard-ws/hub.go:43-129 | every step of hub, handler or writer keeps the channel invariant |
| `Hub.ChannelSafety` | services/leaderboard-ws/hub.go:53-70 | over every order of service no send channel is closed twice or sent to after its close |
| `Hub.MembershipHistory` | services/leaderboard-ws/hub.go:48-59 | a client is a member exactly from its served registration to a later served unregistration, and its channel is closed exactly after that |
| `Hub.BroadcastsInOrder` | services/leaderboard-ws/hub.go:76-83 | the broadcasts that found room are, in order, those the hub took and those that wait |
| `Hub.RequestsInOrder` | services/leaderboard-ws/hub.go:102-120 | so are the registrations and the unregistrations |
| `Hub.ChannelStep` | services/leaderboard-ws/hub.go:61-70 | a step leaves a client's channel alone, adds its snapshot, or adds the message whose fan-out has just reached it |
| `Hub.TakenInTurn` | services/leaderboard-ws/hub.go:61-70 | every message taken while a client is registered comes to that client in turn, one at a time and in order |
| `Hub.LiveInOrder` | services/leaderboard-ws/hub.go:61-70 | the live messages given to a client are an in-order subsequence of those taken while it was registered |
| `Hub.KeepsUp` | services/leaderboard-ws/hub.go:61-70 | a client whose channel always has room is given every message taken while it is registered, but for the one on its way to it |
| `Hub.ChannelIsQueue` | services/leaderboard-ws/hub.go:61-70 | a client's channel holds exactly its snapshot and the messages that reached it while fewer than 256 waited, in order, and its writer takes from the front |
| `Hub.ClientJoins` | services/leaderboard-ws/hub.go:115-120 | a new connection is a member once its registration is served |
| `Hub.ClientIsGreeted` | services/leaderboard-ws/hub.go:124-129 | the snapshot goes behind what already waits in the client's channel |
| `Hub.ClientIsTold` | services/leaderboard-ws/hub.go:61-70 | a broadcast reaches a member with room behind what already waits |
| `Hub.ClientReads` | services/leaderboard-ws/hub.go:132-145 | the writer takes the message that waited longest |
| `Hub.ClientLeaves` | services/leaderboard-ws/hub.go:53-59 | a client that hangs up leaves the members and has its channel closed |
| `Hub.ClientUngreeted` | services/leaderboard-ws/hub.go:124-129 | a handler that could not build a snapshot goes on without one |
| `Hub.ClientTurnedAway` | services/leaderboard-ws/hub.go:115-120 | a connection whose registration finds no room is turned away |
| `Hub.QuitStops` | services/leaderboard-ws/hub.go:43-48 | after it has quit the hub serves nothing |
| `Hub.SlowClientsDoNotDisturb` | services/leaderboard-ws/hub.go:63-69 | what a client is given is the same whether or not other clients read |
| `ScoreTable.RowAfter` | services/telemetry-ingester/ingester.go:195-209 | after a batch a row has the metrics of its last event and keeps the team name of its first appearance |
| `ScoreTable.PrefixThenAll` | services/telemetry-ingester/ingester.go:184-231 | writing any prefix of a batch and then all of it leaves the table as one write would |
| `Ingester.Buffer.constructor` | services/telemetry-ingester/ingester.go:54 | a new buffer is empty |
| `Ingester.Buffer.Append` | services/telemetry-ingester/ingester.go:236-238 | an append adds the event at the end, in place or in a fresh array |
| `Ingester.Buffer.TakeBatch` | services/telemetry-ingester/ingester.go:152-160 | the batch is a fresh copy of the buffer, which is emptied over the same backing array |
| `Ingester.Buffer.AppendAll` | services/telemetry-ingester/ingester.go:157-160 | later appends never alter a copied batch |
| `Ingester.NextConserves` | services/telemetry-ingester/ingester.go:151-182 | every step keeps the handled events accounted for |
| `Ingester.EventsConserved` | services/telemetry-ingester/ingester.go:133-250 | for all interleavings the events that came in, each with its score and in order, are the finished batches, the batch in progress and the buffer |
| `Ingester.HandledIs` | services/telemetry-ingester/ingester.go:233-238 | the handled events are those that came in, in order, each with its score |
| `Ingester.BatchFate` | services/telemetry-ingester/ingester.go:151-182 | a flush takes the whole buffer; a batch is written by an attempt that succeeds and dropped by the third failure or a cancelled back-off; a failed attempt leaves the rows it reached |
| `Ingester.FlushWritesAll` | services/telemetry-ingester/ingester.go:151-182 | a flush that succeeds at once leaves every event in a finished batch |
| `Ingester.NextKeepsTable` | services/telemetry-ingester/ingester.go:162-181 | completing the batch in progress would give the table of one write, however attempts failed before |
| `Ingester.RetriesLeaveNoTrace` | services/telemetry-ingester/ingester.go:162-181 | as long as no batch is dropped an idle ingester's table is that of one write of every flushed event |
| `Ingester.NextKeepsRow` | services/telemetry-ingester/ingester.go:162-209 | every step keeps each row that of a handled event, and exact once its last batch is written |
| `Ingester.RowsOfEveryRun` | services/telemetry-ingester/ingester.go:151-231 | over every run, with batches dropped or not, a row shows the metrics and the score of an event that came in for its submission, a submission never flushed has none, and after a written batch that names it the row shows its last event in that batch |
| `Scoring.ScoreInUnit` | services/telemetry-ingester/ingester.go:252-272 | the composite lies in [0, 1] for every throughput ceiling, unless it is zero over zero |
| `Scoring.ScoreMonotone` | services/telemetry-ingester/ingester.go:252-272 | a submission at least as good on every metric never scores lower |
| `Scoring.MonotoneExactly` | services/telemetry-ingester/ingester.go:60-62 | the composite is monotone in all metrics exactly when the unchecked throughput ceiling is not negative |
| `Scoring.PerfectScore` | services/telemetry-ingester/ingester.go:252-272 | for every ceiling the composite is 1 exactly with non-positive weighted latency, throughput at the ceiling on its own side of zero, and full correctness |
| `Scoring.LinearInLatency` | services/telemetry-ingester/ingester.go:256-260 | between the ends the score falls by 0.35 per latency ceiling of 0.2 p50 + 0.3 p90 + 0.5 p99 |
| `Scoring.LinearInRates` | services/telemetry-ingester/ingester.go:262-271 | it rises by 0.35 per throughput ceiling and by 0.30 per unit of correctness |
| `Scoring.LatencyAlone` | services/telemetry-ingester/ingester.go:256-271 | with nothing else to show it is 0.35 without latency, 0.175 at half the ceiling and 0 from the ceiling on |
| `Leaderboard.StoreHoldsLast` | services/telemetry-ingester/ingester.go:293-327 | sorted set and details hash have the same keys, each holding the score and entry of the last update |
| `Leaderboard.OrderedUnique` | services/leaderboard-ws/hub.go:168 | the ranked read is determined by the sorted set |
| `Leaderboard.LexMeans` | services/leaderboard-ws/hub.go:168 | ties are ordered by the first character in which the members differ |
| `Leaderboard.LeaderboardHandler` | services/leaderboard-ws/main.go:134-167 | the handler's loop produces the listing |
| `Leaderboard.BuildSnapshot` | services/leaderboard-ws/hub.go:178-226 | the pipelined reader produces the same listing |
| `Leaderboard.ListingExact` | services/leaderboard-ws/main.go:134-167 | whatever is stored, members whose detail does not decode are left out and all others are listed in order at their rank, with the stored detail or with id, team and score from the member |
| `Leaderboard.SplitJoins` | services/leaderboard-ws/main.go:141-146 | a member is split at its first colon into id and team |
| `Leaderboard.LeaderboardAgreement` | services/leaderboard-ws/hub.go:167-229 | both readers give one entry per submission with every field of its last update, ranks 1 to n, non-increasing score and ties in reverse order of the id |
| `Leaderboard.Dominance` | services/telemetry-ingester/ingester.go:252-327 | a submission at least as good on every metric with a different score is listed strictly above the other in every snapshot, for every throughput ceiling that is not negative |
| `Leaderboard.EntryNamesPrefix` | services/leaderboard-ws/main.go:141-166 | every entry is filed under its member up to the first colon, so it names its submission exactly when the id has no colon |
| `CorrectnessBot.ReadReplies` | services/bot-runner/correctness_bot.go:120-175 | the read loop sees exactly the replies up to the first sufficient one, timeout or end of context |
| `CorrectnessBot.ListenExact` | services/bot-runner/correctness_bot.go:131-175 | the loop notes every reply up to the first that makes enough or the first read error, which is fatal only if the run has ended |
| `CorrectnessBot.EnoughMeans` | services/bot-runner/correctness_bot.go:160-174 | what each kind of step waits for |
| `CorrectnessBot.CheckFill` | services/bot-runner/correctness_bot.go:188-207 | a missing fill is one failure; a fill is one pass, plus a verdict on a price within 0.01 and on an equal quantity where asked |
| `CorrectnessBot.CheckBook` | services/bot-runner/correctness_bot.go:218-241 | a failed query is one failure, else one verdict per level count asked for |
| `CorrectnessBot.CheckStep` | services/bot-runner/correctness_bot.go:177-241 | passes and failures of a step are those of its verdicts |
| `CorrectnessBot.RunSequence` | services/bot-runner/correctness_bot.go:70-246 | the counts of a sequence, with early exits, are those of the score function |
| `CorrectnessBot.EarlyExits` | services/bot-runner/correctness_bot.go:87-145 | a failed write or an ended run is one failure and ends the sequence; a cancel without its order is one failure and the sequence goes on |
| `CorrectnessBot.Run` | services/bot-runner/correctness_bot.go:44-66 | the counts over all sequences, and the score as passed over counted, or 1 if nothing was counted |
| `CorrectnessBot.PlayFair` | services/bot-runner/correctness_bot.go:87-243 | whatever the engine does, at least one and at most all assertions are counted and there is no failure only if all passed |
| `CorrectnessBot.ScoreSound` | services/bot-runner/correctness_bot.go:44-66 | for any sequences that assert something the score is passed over counted, in [0, 1], and 1 exactly when every assertion passed |
| `CorrectnessBot.EveryPassCounts` | services/bot-runner/correctness_bot.go:59-64 | one failure turned into a pass raises the score |
| `CorrectnessBot.StepOrderIdFormat` | services/bot-runner/correctness_bot.go:100 | order ids look like cx-s0-bid |
| `CorrectnessBot.ThirtyThree` | services/bot-runner/sequence.go:164-289 | the shipped sequences make 33 assertions |
| `CorrectnessBot.ShippedScoreSound` | services/bot-runner/correctness_bot.go:44-246 | between 5 and 33 assertions are counted, the score is passed over counted, in [0, 1], and 1 exactly when all 33 passed |
| `BotSession.ServedCounts` | services/bot-runner/correctness_bot.go:218-241 | the level counts the bot queries are those of any snapshot the server may serve |
| `BotSession.FirstFillHeard` | services/bot-runner/correctness_bot.go:131-175 | a step that expects a fill stops reading at the first one after the ack; later replies stay unread for the next step |
| `ReferenceRun.PlaysMatch` | services/bot-runner/sequence.go:175-193 | a bid and an equal ask on an empty book pass every assertion against the engine and leave the book empty |
| `ReferenceRun.MatchExactly` | services/bot-runner/sequence.go:175-193 | a bid and an equal ask, for any tags, price and quantity, fail nothing exactly when the start book is empty |
| `ReferenceRun.PlaysPriority` | services/bot-runner/sequence.go:197-220 | the better bid is filled first although it came second |
| `ReferenceRun.PlaysPartial` | services/bot-runner/sequence.go:223-246 | a partial fill leaves the bid, which can then be cancelled |
| `ReferenceRun.PlaysCancels` | services/bot-runner/sequence.go:249-274 | cancelled orders are gone and do not match |
| `ReferenceRun.PlaysMarket` | services/bot-runner/sequence.go:277-289 | a market order on an empty book is rejected |
| `ReferenceRun.HeardTooLittle` | services/bot-runner/correctness_bot.go:131-175 | a step whose last read runs into the deadline has heard every reply and still not enough |
| `ReferenceRun.ReferenceScoresOne` | services/bot-runner/correctness_bot.go:44-66 | from any state the engine can reach, under any clock and however soon a closed connection is torn down, the run scores 1 exactly when the book is empty, and then all 33 assertions pass |
| `Truncate.TruncateBytes` | services/build-service/publisher.go:99-108 | input that fits is returned; otherwise the longest valid UTF-8 prefix of the first max bytes, for valid input at most three bytes short and cut between two characters |
| `Truncate.ValidIsEncoded` | services/build-service/publisher.go:104-106 | a byte string is valid exactly when it is the UTF-8 encoding of a sequence of scalar values |
| `Truncate.BoundarySplits` | services/build-service/publisher.go:104-106 | a prefix of a valid string is valid exactly when the rest is |
| `Truncate.BoundaryNear` | services/build-service/publisher.go:104-106 | every cut of a valid string is at most three bytes past a character boundary |
| `Truncate.ThreeBytesLost` | services/build-service/publisher.go:104-106 | three bytes can be lost |
| `TestLock.OneTestPerSubmission` | services/bot-orchestrator/main.go:77-96 | at most one running test per submission across both triggers, and the map is exactly the running set |
| `TestLock.StartsWhenIdle` | services/bot-orchestrator/main.go:77-96 | a request starts a test exactly when none of its submission is under way, from either trigger, and a test runs from its start to its finish |

## Left out

- Engine.Server.Step: each request to this server is one step; `SharedServer.Shared.Step` takes them stamp by stamp.
- Ingester.RetriesLeaveNoTrace: says nothing about runs that drop a batch, which `Ingester.RowsOfEveryRun` covers; `scored_at` and the append-only `telemetry_events` rows, which retries can duplicate, are not modelled.
- ReferenceRun.ReferenceScoresOne: no other session trades during the run, and every reply the engine sends arrives before the step's deadline; a read that runs into the deadline closes the connection, as the documentation of `coder/websocket` says of every error.
- LoadBot.InFlightAccounting: after a failed write the gap is bounded, not computed; it stays smaller where a reply or the collector clears an id before it is sent again.
- Go's `heap.Init` on the two empty slices, the bounded send channel of a stub session and its write loop.
- Kubernetes jobs and pods, log streaming, and the Kafka, Redis, Postgres and S3 clients: foreign calls with little logic of their own.
- JSON and WebSocket encoding: messages are values; a stored detail may fail to decode.
- Floating-point rounding and 64-bit overflow of quantities and clocks; latency histograms and wall-clock durations.
- Consumer commit order, eventual delivery to a new browser and eventual removal of a departed one: the code does not guarantee them.
- The browser page, deployment files, scripts, environment parsing and health endpoints.
