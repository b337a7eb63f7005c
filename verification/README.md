# Bacchus core: a verified model

Bacchus carries a user's traffic over an encrypted path through nodes that no one of them can link end to
end. This project models the parts of its `core` engine whose guarantees span several functions or many
concurrent goroutines, and proves those guarantees in Dafny 4.11. `dafny verify dfyconfig.toml` checks it.

What is modelled, module by module:

- **HopSelection, ChainPlan** — choosing an exit and the hops that reach it from the signed directory, by a
  greedy ladder of diversity demands over a shuffled pool.
- **ChainDial** (with **ChainFault**) — telescoping handshakes through the hops, and which node is blamed
  when one fails.
- **ChainSession** — any number of streams dialing over one chained session, rebuilding and swapping its
  chain behind a fixed head.
- **Bytes, NoiseConn, UdpRelay** — the framed encrypted byte stream, nested to any depth, the datagrams
  framed over it, and the SOCKS5 UDP codec.
- **ForwardLimits** — the circuits an intermediate hop will carry, per neighbour and in all.
- **SpliceGate** — admission of reverse-proxied connections: token buckets, a concurrency cap, forgetting.
- **RaceLadder** — the staggered race over transport candidates.
- **CoordLink** — rebuilding a coordinator link under its reader and its close.
- **RealitySessions, RealityListener, EngineLifecycle** — registration against teardown in the reality
  transport and in the engine.
- **ReplayGuard** — admission of sealed session ids within a window.
- **ClientHello** — peeking at a TLS ClientHello, parsing it, and replaying it.
- **Reconnect** — one establish pass over the coordinator pool, and the reconnect loop around it.

Code that updates an object is a class whose methods are proved against functions of the old state; a
protocol of several goroutines is a state machine whose step is one critical section or one blocking call,
and its theorems range over every finite run. The clock, the indices the shuffle draws, the table that places addresses in
autonomous systems, the bytes the network delivers and how it cuts them, and the outcome of each handshake
are parameters. A cipher is a pair of functions indexed by a nonce, with decryption the inverse of
encryption and sixteen bytes of overhead.

## Where the code does not do what one might expect

Each of these is proved: how it happens, and the exact condition under which the expected property holds.

- The greedy choice of hops covers the most autonomous systems on every pool, order, length and pin drawn
  from a directory exactly when the directory holds no loss (`HopSelection.OptimalExactly`). A loss is a
  swap, one node listed at addresses in two systems and another node in the first of them, that the
  operator tags let greedy fall into: the doubled node's first entry shares no operator with the head, or
  the operators of all three entries are taken by a chain the first rung may have built. A node registered
  as both exit and relay is listed twice.
- A failed dial blames the first node that does not carry, with the right fault, exactly unless it is
  misled (`ChainDial.DialChain`). The stream being closed from outside in the middle of a layer, by the
  caller's own deadline or by another stream's head fault that closes the session, gets whichever node is in
  flight blamed, as dead; that is right only if the node was at fault that way
  (`ChainDial.DeadlineBlamesInFlight`). A dial is also misled when the stream is closed between a layer's
  target write and the stop of its guard, when a guard fires between a failure and its stop, when a refusal
  breaks off or comes after the next layer's budget, and when a node answers in the exact shape of a refusal.
  With the shipped timeouts, and where opening the stream takes longer than handling a reply, the deadline
  of a SOCKS dial comes before the guard of any layer, so a stall is never reported as one
  (`ChainDial.ShippedTimeoutsHideStalls`).
- Forgetting idle buckets in the splice gate changes no decision, and the rate of one source is bounded,
  exactly when a bucket refills within the idle period; the shipped limits do
  (`SpliceGate.ForgettingIsUnobservable`, `SpliceGate.RateIsBounded`).
- A session id the replay guard admitted is never admitted again exactly when its sealed timestamp was not
  ahead of the exit's clock (`ReplayGuard.AdmittedForGood`). The comment on the guard, that remembering one
  window is enough, holds for those only.
- The race closes every losing session on all schedules exactly when it is neither cancelled nor stopped;
  only a win drains the losers (`RaceLadder.LosersClosedExactly`). After a stop the engine's own session
  watcher closes what the race left (`EngineLifecycle.WatchersDrain`), so only the cancelled case leaves a
  session open, and that until the engine stops.
- The reconnect delay is min(base·2^k, max) at every k exactly when base ≤ max: the first delay is not
  capped (`Reconnect.BackoffIsExponential`).
- Hops are told apart by their ids as strings, and decoding takes both letter cases: they hold distinct keys
  exactly when no two ids are the same but for case (`ChainPlan.DistinctKeysExactly`).

## Model

| member | source | states |
|---|---|---|
| `HopSelection.SelectIsOptimal` | core/relaychain.go:1071-1177 | for every order of the pool and every lookup, where the pool holds no loss behind the head: no chain of the same length and head drawn from it covers more distinct resolved autonomous systems than the greedy one |
| `HopSelection.OptimalExactly` | core/relaychain.go:1071-1177 | greedy is optimal on every pool, order, length and pin drawn from a directory's entries, with their own operator tags, if and only if those entries hold no loss |
| `HopSelection.LossLoses` | core/relaychain.go:1091-1177 | any loss, whatever its ids, addresses, tags and lookup: the order that meets the doubled node's first entry first returns a chain one system short of another from the same pool |
| `HopSelection.PlainSwapIsLoss` | core/relaychain.go:1091-1177 | a swap whose first entry has no tag, or another than the head's, is a loss whatever the other tags |
| `HopSelection.SelectIsComplete` | core/relaychain.go:1091-1177 | selection succeeds exactly when there is an eligible head and enough distinct ids; then the chain has the length asked for, distinct ids, a proper head, and a truthful report (asRepeated, opRepeated and the counts hold exactly of its hops) |
| `HopSelection.UndegradedIsDiverse` | core/relaychain.go:1242 | any two hops of a chain not reported degraded sit in different, resolved systems |
| `HopSelection.NoTableIsOperatorFill` | core/relaychain.go:1025-1052 | with a lookup that places nothing, the result is the plain two-pass operator-diverse fill of the same order |
| `HopSelection.FillFrom` | core/relaychain.go:1091-1177 | the head search and four passes over its used-id, used-AS and used-operator sets computes Select |
| `HopSelection.TakeHop` | core/relaychain.go:1091-1177 | taking a hop keeps the three used-sets exactly those of the hops taken, and the report that of Take |
| `HopSelection.ShuffleHops` | core/relaychain.go:1269-1282 | the in-place shuffle over the indices drawn computes Shuffled |
| `HopSelection.ShuffledIsPermuted` | core/relaychain.go:1269-1282 | whatever is drawn, the shuffle only changes the order |
| `HopSelection.EveryOrderIsDrawn` | core/relaychain.go:1269-1282 | every order of the pool comes of some draws in range |
| `HopSelection.DrawnOnce` | core/relaychain.go:1269-1282 | no two draws give one order of different entries, so uniform draws make every order equally likely |
| `HopSelection.SelectHopsHeaded` | core/relaychain.go:1071-1177 | whatever the shuffle: fails exactly when the non-excluded candidates do not suffice, and otherwise returns a truthful, duplicate-free chain that is optimal among all rivals unless the candidates hold a loss behind its head; the error says the pinned head is missing exactly when no candidate bears its id |
| `HopSelection.LadderKeepsGood` | core/relaychain.go:1091-1177 | every rung keeps ids distinct, the report truthful and the hops from the pool, and only appends |
| `HopSelection.StrictRungsExhaust` | core/relaychain.go:1091-1177 | the two strict rungs put each hop in a system of its own, and stop short only when every entry left is unplaced, in a covered system, or of a node already taken |
| `HopSelection.AnswersDiffer` | core/relaychain.go:1091-1177 | without a loss, the greedy hops that answer for a rival's systems, by node, by system or by the doubled node's other system, are all different |
| `HopSelection.ExchangeBound` | core/relaychain.go:1091-1177 | so a rival's systems are no more than the greedy systems that answer for them |
| `ChainPlan.IndexEntries` | core/relaychain.go:427-505 | the hops are exactly those of the entries whose id is a 32-byte key and that have an ingress, or are exits with an address; each is dialed at its ingress, and only for want of one at its address; the exit addresses are exactly those of the exit entries that have one, the last of each id; none is loaded exactly when no entry qualifies |
| `ChainPlan.ExitsIn` | core/relaychain.go:349-369 | exactly the pairable exits, not contradicted, in the country asked for if one is, less those avoided |
| `ChainPlan.SelectChain` | core/relaychain.go:871-881 | a returned exit is usable and not avoided; its hops are distinct, properly headed, never the exit and avoided only if pinned, the report on them is true of the directory's own table, and by that table no chain of the same length and head from the same candidates covers more systems unless those hold a loss behind the head; no exit is reported exactly when there is none, and any other error is the right one for an exit drawn that cannot be reached |
| `ChainPlan.BuildChainHeaded` | core/relaychain.go:780-869 | any plan has the depth, country and head asked for, and is as diverse by the directory's table as the nodes it was drawn from allow; those are all the nodes not cooling, or all of them and then the user is told so, only after an attempt without the cooling ones failed; a chain is reported weak exactly when its hops are not all placed in systems of their own, mildly exactly when none is placed; failure only for want of an exit or of hops over the whole directory, and the error is that of the attempt without cooling nodes |
| `ChainPlan.RebuildChain` | core/relaychain.go:1799-1806 | a rebuilt plan has the depth, country and head of the one it replaces, uses nothing cooling but that head while the rest suffices, and is as diverse by the table as the nodes it was drawn from allow; it fails only for want of an exit or of hops over the whole directory, and always when none can be reached; a session without hops is refused |
| `ChainPlan.DegradedExactly` | core/relaychain.go:1242 | a truthful report is of degradation exactly when the hops are not all placed in systems of their own, and counts none resolved exactly when they cover none |
| `ChainPlan.SameKeyExactly` | core/relaychain.go:449-497 | two ids decode to one key exactly when they differ in letter case alone |
| `ChainPlan.DistinctKeysExactly` | core/relaychain.go:449-497 | hops hold pairwise distinct keys exactly when no two of their ids are the same but for letter case |
| `ChainPlan.KeyRoundTrip` | core/relaychain.go:472-475 | every 32-byte key is decoded from its hexadecimal id, written in either letter case |
| `ChainSession.NoSilentDowngrade` | core/relaychain.go:1407-1425 | in every reachable state of every interleaving, every plan the session ever carried keeps the hop count, head and country, has distinct hops, and ends at a usable exit that is none of them |
| `ChainSession.DialsAreBounded` | core/relaychain.go:1844-1899 | over every run, however streams interleave, the steps at which one stream telescopes are at most chainRebuildMax + 1 |
| `ChainSession.RebuildsAreBounded` | core/relaychain.go:1844-1899 | and those at which it builds a chain at most chainRebuildMax |
| `ChainSession.StreamsComeToAnEnd` | core/relaychain.go:1844-1899 | at every point of every run a stream that is not done can take a step, its dial failing at any hop or at the exit among them, and every step it takes uses up one of a bounded number |
| `ChainSession.RebuildOnlyWhenLicensed` | core/relaychain.go:1771-1797 | over every run a stream rebuilds only behind a fault other than an admission rejection and past the head; a head fault has closed the session |
| `ChainSession.PlanReplacedOnce` | core/relaychain.go:1407-1425 | however many streams fail over one plan at once, no plan is installed twice, so each is replaced at most once |
| `ChainSession.SwapReplacesTheFailed` | core/relaychain.go:1407-1425 | in every run the session's plan changes only under a stream that saw that very plan fail past its head and otherwise than by rejection, and becomes what that stream built; a stream whose plan is still the session's when it swaps does replace it |
| `ChainSession.RebuildOnce` | core/relaychain.go:1888-1892 | what RebuildChain returns over the current directory and marks is a step of the state machine; it gives up only for want of a chain, an exit or hops over the whole directory |
| `ChainSession.ReloadTakesEffect` | core/relaychain.go:1799-1806 | in every run, what is built after a reload and before the next is a good plan over the directory it loaded |
| `ChainSession.RebuildAvoidsTheBlamed` | core/relaychain.go:1844-1899 | in every run, while the node the failure is at, the hop it names or else the exit, is still cooling and the rest of the directory suffices, the rebuilt chain neither passes through it nor ends at it |
| `ChainSession.BlamedStaysCooling` | core/relaychain.go:1867-1875 | from the judgement of a failure on, the node it is at, the hop it names or else the exit, is cooling in every later state of the run until a mark expires |
| `ChainSession.JudgeBlamesTheFailed` | core/relaychain.go:1863-1887 | in every run, judging a failure cools exactly the hop it names, or the exit when it is one past the last, and nothing for an error above the telescope; the stream goes on to rebuild its plan exactly when a node past the head failed otherwise than by rejection and an attempt is left, and the session is closed exactly when the head did |
| `ChainSession.NoPlanIsTriedTwice` | core/relaychain.go:1844-1899 | however the streams interleave, no stream ever reads a plan it has already dialed over |
| `ChainSession.RunKeepsInv` | core/relaychain.go:1844-1899 | the invariant over plans, installed history, stream positions and unswapped builds holds in every state of every run |
| `ChainDial.DialChain` | core/relaychain.go:1636-1747 | for every path, every conduct of its nodes, every cut of their bytes, all reply and handling times, any layer budget and any close from outside: the first node that does not carry is blamed with its own fault if and only if the dial is not misled |
| `ChainDial.Telescope` | core/relaychain.go:1645-1735 | the loop over the layers reports what the closed form says of its first unclean layer |
| `ChainDial.ReportIsRight` | core/relaychain.go:1636-1747 | the same of the report in closed form: it is right exactly when none of the listed disturbances meets the first unclean layer |
| `ChainDial.DeadlineBlamesInFlight` | core/relaychain.go:1845-1862 | a deadline firing before a layer's target is written blames the node in flight, as dead unless its guard fires too; right only if that is the node's own fault, so never for one that carries |
| `ChainDial.DeadlineHidesStalls` | core/relaychain.go:1738-1747 | when the deadline comes before any layer's guard, HopStalled is never reported |
| `ChainDial.ShippedTimeoutsHideStalls` | core/client.go:1724-1736 | with the shipped SOCKS and layer timeouts that is so once opening the stream takes longer than handling a reply |
| `ChainDial.UndisturbedIsExact` | core/relaychain.go:1636-1747 | with no deadline and guards stopped at once, attribution is exact if and only if the first faulty node neither spoke in a refusal's shape nor had its refusal cut off or late |
| `ChainDial.OwnFault` | core/relaychain.go:1738-1747 | a node that does not complete its handshake, behind clean layers, is blamed with its own fault exactly when not misled |
| `ChainDial.OvertakenIsBlamed` | core/relaychain.go:1845-1862 | a node that answers in time but is overtaken by the deadline is blamed, always wrongly |
| `ChainDial.SlippedPassesOn` | core/relaychain.go:1454-1482 | a stream closed between a layer's target write and the stop of its guard gets the successor blamed, or passes for up at the exit |
| `ChainDial.RefusalIsCharged` | core/relaychain.go:1667-1690 | a refusal by one hop, surfacing while the next layer is negotiated, is blamed on the hop that refused exactly when it came whole and in time |
| `ChainDial.Negotiate` | core/e2e.go:92-145 | one layer's handshake ends as its bytes, their verdict and the earlier of guard and deadline decide, and the sniffer reports a refusal exactly of a turned-down frame of that shape |
| `ChainDial.ReadReply` | core/relaychain.go:2060-2085 | however the reply is cut, the frame is the stream's first and the capped sniffer reports a refusal exactly when that frame has its shape |
| `ChainDial.SniffedVerdict` | core/relaychain.go:2028-2048 | parsing the capped copy of any prefix that holds the first frame decides exactly as parsing that frame |
| `ChainDial.RefusalRoundTrip` | core/relaychain.go:2015-2048 | a refusal frame parses back to its clipped reason, whatever follows it |
| `ChainDial.LateStopMisreads` | core/relaychain.go:1454-1482 | a concrete path of two nodes that carry, where a guard firing just before its stop gets the second blamed |
| `ChainDial.RefusalShapeMisreads` | core/relaychain.go:2028-2085 | a concrete path where a second node's answer gets the first, which carries, blamed |
| `NoiseConn.SendHalf.WriteRawFrame` | core/e2e.go:258-267 | a frame within the size cap is appended whole; a larger one is an error and writes nothing |
| `NoiseConn.SendHalf.Write` | core/e2e.go:342-362 | every write is sealed in order in pieces that always fit a frame, so the size error is never met, and all of it is written |
| `NoiseConn.SendHalf.Greet` | core/e2e.go:102-110 | a layer's handshake frames go out in the same framing, unsealed, through the layer below, and from then on it carries messages |
| `NoiseConn.SendStack` | core/relaychain.go:1645-1724 | telescoping any layers, each begun after the one below carried any earlier bytes and the layer's own handshake frames, gives a valid stack whose preambles are those |
| `NoiseConn.Send` | core/relaychain.go:1645-1724 | a sending stack of any depth and any preambles, written through in any pieces, has carried exactly their concatenation at the top |
| `NoiseConn.RecvHalf.TakeFrame` | core/e2e.go:294-311 | pops the first frame of the buffer exactly when there is a complete one, the next of the stream below after those taken |
| `NoiseConn.RecvHalf.ReadFrame` | core/e2e.go:275-292 | the next frame of the stream below, whatever the cuts, or its end with no complete frame left |
| `NoiseConn.RecvHalf.ReadHello` | core/e2e.go:111-115 | the next handshake frame the peer sent, with whatever came along left buffered; fails only if not everything arrived |
| `NoiseConn.RecvHalf.PoppedOpens` | core/e2e.go:313-340 | after the handshake, a popped frame is the one the peer sealed next, and it opens to its message |
| `NoiseConn.RecvHalf.ReadMessage` | core/e2e.go:313-321 | the plaintext of exactly the peer's next message |
| `NoiseConn.RecvHalf.Read` | core/e2e.go:323-340 | reads continue in order what was read; the end is reported only at the end of the stream below, and after full delivery only once everything was read |
| `NoiseConn.LayerIsFaithful` | core/e2e.go:269-340 | frames taken from any prefix of what was sent open to a prefix of the bytes written |
| `NoiseConn.OpensInOrder` | core/e2e.go:313-321 | ciphertexts taken in order open to the messages sealed, in order |
| `NoiseConn.NothingIsLeft` | core/e2e.go:275-340 | once everything has been delivered and no frame is left, the bytes read are all the bytes written |
| `NoiseConn.EveryStackOpens` | core/relaychain.go:1645-1724 | whatever was sent under its layers, every sending stack has openings a receiver can follow |
| `NoiseConn.ReceiveStack` | core/relaychain.go:1645-1724 | over any sending stack and any openings that match its preambles, the facing stack comes up, each layer with what was buffered past its handshake, and owes exactly the bytes written at the top; if it does not come up, not everything arrived |
| `NoiseConn.Receive` | core/relaychain.go:1645-1724 | end to end at any depth and with any preambles: for every cut of any prefix of the wire and all read sizes, what is read is a prefix of what was written; if everything got through the stack is up, and all of it is read once the end is reported; no read with room for a byte returns without one, so more reads than bytes written read all of it |
| `UdpRelay.WriteUdpFrame` | core/udprelay.go:49-59 | accepted exactly up to 65535 bytes, and then one frame is appended to the stream |
| `UdpRelay.ReadUdpFrame` | core/udprelay.go:62-75 | at a boundary returns exactly the next datagram written, however the stream is cut, or that it exceeds the caller's buffer exactly when it does |
| `UdpRelay.SendDatagrams` | core/udprelay.go:49-59 | a sequence of datagrams becomes the sequence of their frames |
| `UdpRelay.ReceiveDatagrams` | core/udprelay.go:49-75 | any sequence of datagrams is read back as the same sequence, or as a prefix if the stream is cut off |
| `UdpRelay.SendOver` | core/udprelay.go:49-59 | datagrams sent over a stack of any depth and any preambles have put exactly their frames on its top stream |
| `UdpRelay.ReceiveOver` | core/udprelay.go:62-75 | end to end at any depth and with any preambles: whatever prefix of the wire gets through and however it is cut, the datagrams read are those sent, whole and in order, and all of them if everything got through |
| `UdpRelay.DecodeOfEncode` | core/udprelay.go:221-239 | decoding an encoded IPv4 datagram gives it back |
| `UdpRelay.DecodeOfAnyForm` | core/udprelay.go:221-239 | an address of any form is decoded as itself, as what it maps if it is a mapped IPv6 one, and as 0.0.0.0 otherwise; port and payload come back as they were |
| `UdpRelay.EncodeOfDecode` | core/udprelay.go:221-239 | re-encoding any accepted frame gives the same bytes |
| `ForwardLimits.Allocator.Acquire` | core/relaychain.go:2213-2253 | the object's new state and reply are those of the transition Acquired, of which the laws on grants, buckets, caps and refusals below are proved |
| `ForwardLimits.Allocator.Release` | core/relaychain.go:2255-2292 | the object's new state and report are those of the transition Released |
| `ForwardLimits.Allocator.RetirePeer` | core/relaychain.go:2294-2312 | the eviction loop leaves the peer in front and the memory trimmed from the back |
| `ForwardLimits.OccupancyIsBounded` | core/relaychain.go:2179-2312 | on every run of acquires and matching releases: total is the sum of the circuits held, neither cap is exceeded, no peer with circuits is forgotten, the idle list holds exactly the idle peers once each, and at most 2·maxTotal peers are remembered |
| `ForwardLimits.GrantedExactlyWithinTheCaps` | core/relaychain.go:2179-2253 | after any run the caps are still those configured, 32 and 256 where none is; a circuit is granted exactly when both the peer's circuits and all of them are below, and a refusal names the node's cap exactly when that one is full |
| `ForwardLimits.GrantsToOneShare` | core/relaychain.go:2223-2253 | on every run, two grants to one neighbour that was remembered throughout between them carry the same pace bucket |
| `ForwardLimits.GrantsToTwoDiffer` | core/relaychain.go:2223-2253 | on every run, grants to two neighbours, the first still remembered at the second, never carry the same one |
| `ForwardLimits.GrantIsOwnBucket` | core/relaychain.go:2223-2253 | at every point of every run a grant carries the bucket its neighbour was last handed, if remembered, and none that another remembered one was |
| `ForwardLimits.RefusalsAreConserved` | core/relaychain.go:2213-2279 | at every point of every run, refused acquires equal refusals reported plus pending in aggregate and per peer; a raised flag means its cap is exactly reached |
| `ForwardLimits.EpisodesReportOnce` | core/relaychain.go:2213-2279 | a refusal is first exactly when it opens an episode, and a release reports an end exactly when it closes one |
| `ForwardLimits.ReturningNeighbourKeepsItsBucket` | core/relaychain.go:2223-2312 | a neighbour that went idle gets its own pace bucket back, which no other remembered one holds, unless maxTotal others went idle after it |
| `ForwardLimits.NewcomerGetsFreshBucket` | core/relaychain.go:2223-2234 | a neighbour not remembered, evicted ones included, is granted a bucket no earlier acquire of the run was granted and no remembered neighbour holds |
| `ForwardLimits.RunKeepsInv` | core/relaychain.go:2213-2312 | caps, idle memory and the account of refusals are kept together over every matched run |
| `SpliceGate.Splices.Admit` | core/transport_reality_meter.go:233-264 | the gate's new state and answer are those of Admitted; the counter stays the number of unreleased tickets, under the cap |
| `SpliceGate.Splices.Sweep` | core/transport_reality_meter.go:266-276 | when due, the deletion loop keeps exactly the buckets seen within the idle period |
| `SpliceGate.Ticket.Release` | core/transport_reality_meter.go:253-262 | only the first of any number of releases gives the slot back |
| `SpliceGate.ConcurrencyIsExact` | core/transport_reality_meter.go:233-264 | over every run concurrent equals the admissions not yet released, however often each is released, and never exceeds the cap |
| `SpliceGate.RunsAlike` | core/transport_reality_meter.go:164-276 | when buckets refill within the idle period, the gate with its sweep and one that never forgets decide every forward-clock run alike |
| `SpliceGate.ForgettingIsUnobservable` | core/transport_reality_meter.go:164-276 | they decide every forward-clock run alike if and only if buckets refill within the idle period or nothing is ever admitted; the shipped limits do |
| `SpliceGate.VolleyOutcome` | core/transport_reality_meter.go:233-264 | a volley of requests is admitted whole exactly when the source's level covers it |
| `SpliceGate.TokensAreConserved` | core/transport_reality_meter.go:233-276 | in any stretch of any run, what a source was admitted plus what it has left is at most burst + rate·elapsed |
| `SpliceGate.RateIsBounded` | core/transport_reality_meter.go:164-276 | in every stretch of every run one source is admitted at most burst + rate·length times, if and only if buckets refill within the idle period or nothing is ever admitted |
| `RaceLadder.RunKeeps` | core/pool.go:358-438 | under every schedule each launched candidate is in exactly one of dialing, channel and received, and judged accordingly |
| `RaceLadder.DialsInOrderAndBounded` | core/pool.go:358-406 | the dialer is called on a prefix of the ladder, in order and once each, with 1 to max(1, poolParallel) in flight while the race runs; an empty ladder is an error |
| `RaceLadder.DialsExactlyWhenDue` | core/pool.go:372-406 | under every schedule the next candidate, exactly it, is dialed on a tick that finds fewer than poolParallel results outstanding and on a failed result, while the ladder lasts; nothing else dials, and any other tick changes nothing |
| `RaceLadder.TicksFillTheLadder` | core/pool.go:372-392 | from any point of any race, k ticks with nothing received bring the number dialed to k more, but neither past the ladder nor past poolParallel outstanding |
| `RaceLadder.SilentRace` | core/pool.go:358-392 | a race whose dials all hang has after k ticks dialed exactly the first min(k + 1, max(1, poolParallel)) of its candidates |
| `RaceLadder.ResultDecides` | core/pool.go:393-406 | under every schedule a session that came up without an error, received while racing, is the winner; any other result cools exactly its own candidate, and the race is lost exactly when it was the last outstanding of a ladder dialed to the end |
| `RaceLadder.CoolsOnlyTheFailed` | core/pool.go:399 | under every schedule a candidate is cooling only if a dial of its own failed and was received |
| `RaceLadder.EndsWhenTold` | core/pool.go:383-386 | after any run a cancel or a seen stop ends the race, and a seen stop ends the drain with the winner it has |
| `RaceLadder.NoneConnectedIsTrue` | core/pool.go:393-404 | the error that no candidate connected means every one was dialed, failed, and was marked cooling |
| `RaceLadder.CannotStall` | core/pool.go:380-406 | while racing or draining something is dialing or waiting in the channel, and every schedule ends within two moves a candidate |
| `RaceLadder.WinnerIsTrue` | core/pool.go:393-398 | the winner is a candidate that connected, and its session is never closed by the race |
| `RaceLadder.LosersAreClosed` | core/pool.go:417-438 | after a win without shutdown, every other session that came up is closed once all has finished |
| `RaceLadder.ClosesOnlyLosers` | core/pool.go:417-438 | under every schedule the race closes only sessions that came up and were not returned |
| `RaceLadder.LosersClosedExactly` | core/pool.go:358-438 | for every non-empty ladder, every schedule leaves no losing session open once all has finished, if and only if schedules contain neither a cancel nor a stop |
| `RaceLadder.CancelLeavesOne` | core/pool.go:383-384 | whatever the ladder, a cancel and then the first candidate coming up leaves its session open |
| `RaceLadder.StopLeavesOne` | core/pool.go:385-386 | whatever the ladder, so does a stop |
| `CoordLink.RunKeeps` | core/coordpool.go:416-559 | in every interleaving of reader, rebuilds and closes, every socket and transport is closed, in use on an open link, or owed a close |
| `CoordLink.RebuildNeverEndsTheReader` | core/coordpool.go:416-437 | the read loop ends on a closed socket only if the link was closed |
| `CoordLink.ReaderEndsExactly` | core/coordpool.go:416-437 | after any run a failed read ends the loop, with its own error, exactly when no rebuild came since it began, and goes round again exactly when one did |
| `CoordLink.ClosedReaderEnds` | core/coordpool.go:416-437 | from any point of any run at which the link and its sockets are closed, the reader can always go on until it has ended, and has ended after five of its steps, whatever rebuilds are still asked for |
| `CoordLink.RebuildInstalls` | core/coordpool.go:491-559 | after any run a rebuild that gets the lock on an open link makes its socket the link's, open and under the next generation, and owes the old one a close; on a closed link it changes nothing and owes its own one |
| `CoordLink.TasksFinish` | core/coordpool.go:491-559 | on every run each rebuild and close can take its next step until it has finished, and has finished after three |
| `CoordLink.ReaderReadsOn` | core/coordpool.go:416-437 | after any run a message drawn sends the reader back to the link, to what it has by then |
| `CoordLink.ReaderMovesOn` | core/coordpool.go:416-437 | a reader whose socket a rebuild closed re-enters on the link's current socket, which is open |
| `CoordLink.LinkOnlyMovesForward` | core/coordpool.go:491-559 | over every run the generation only grows, one generation is one socket, no socket is installed after close, and nothing is reopened |
| `CoordLink.ShapeIsKept` | core/coordpool.go:502-520 | the link is shaped exactly as it began, and its transport runs on its own socket |
| `CoordLink.NothingIsLeftOpen` | core/coordpool.go:491-559 | once all rebuilds and closes finished, the only socket and transport not closed are those of a link still open |
| `RealitySessions.RunKeeps` | core/transport_reality.go:851-1014 | in every interleaving each registered token has someone to take it out, and each connection someone to close it |
| `RealitySessions.NoTokenOutlivesItsSession` | core/transport_reality.go:257-288 | a session whose answer and teardown have finished has no token in pending |
| `RealitySessions.LiveTokenStaysRegistered` | core/transport_reality.go:920-933 | an open session that bound its token can still be found by it |
| `RealitySessions.EveryConnIsClosed` | core/transport_reality.go:904-918 | every connection handed to a torn-down session is closed, unless whoever brought it late has yet to close it |
| `RealitySessions.NoWatcherAfterClose` | core/transport_reality.go:851-872 | once isClosed is flipped the wait group is never added to again, and its watchers only leave |
| `RealitySessions.ClosedTransportRegistersNothing` | core/transport_reality.go:265-275 | a closed transport registers no further token |
| `RealitySessions.AnswerDecides` | core/transport_reality.go:257-287 | after any run an offer draws a token that is nobody's, a transport still open registers it for this session, and a session still open is bound to it; no offer or a closed transport has the session closed, a closed session has the token taken out again |
| `RealitySessions.AnswersEnd` | core/transport_reality.go:257-287 | on every run each step of an answer brings it nearer its end, no other step touches it, and until then one can be taken |
| `RealitySessions.AnsweredIsReachable` | core/transport_reality.go:257-287 | on every run an accepted session whose answer has ended and that nobody closed is registered under a token |
| `RealitySessions.TeardownsEnd` | core/transport_reality.go:997-1014 | on every run a teardown is begun at most once and can go on until it is over; each of its steps closes one more of the connections it found, or is the next phase with none left; nothing else moves it |
| `RealitySessions.ConnIsOpenWhileItsSessionIs` | core/transport_reality.go:904-918 | on every run no connection handed to a session that is open is closed or refused, and it is tracked |
| `RealitySessions.HandedOver` | core/transport_reality.go:851-918 | after any run an open session tracks a connection it is handed, and watches and counts it exactly if it is a control one; a closed one leaves it to whoever brought it |
| `RealitySessions.WatchersLeaveExactly` | core/transport_reality.go:866-888 | on every run a watcher can leave exactly once its session is torn down; until then the wait group counts every one |
| `RealityListener.ListenerNeverOutlivesClose` | core/transport_reality.go:307-337 | a listener bound around a close is closed once the bring-up and the close are done |
| `RealityListener.CloseQuiesces` | core/transport_reality.go:784-797 | from the moment a close returned, neither listener nor accept loop, warm-up or inbound goroutine runs, then or ever after |
| `RealityListener.BringUpDecides` | core/transport_reality.go:307-337 | after any run the bring-up listens only if it saw the transport open; what it bound is published, with its two goroutines, if the transport is open still, and closed otherwise |
| `RealityListener.BringUpFinishes` | core/transport_reality.go:307-337 | on every run each step of the bring-up brings it nearer its end, no other step touches it, and until then one can be taken |
| `RealityListener.WaitGroupIsExact` | core/transport_reality.go:328-379 | on every run the wait group counts exactly the goroutines spawned and not yet ended |
| `RealityListener.ClosesReturn` | core/transport_reality.go:784-797 | on every run a close that has not returned can take its next step or a goroutine it waits for can end, and it returns exactly when none runs |
| `RealityListener.CloseLatches` | core/transport_reality.go:784-797 | after any run a close latches the transport, and closes the listener if one is published; the listener is closed on no open transport |
| `EngineLifecycle.NoListenerOutlivesStop` | core/engine.go:1680-1690 | every listener bound before, during or after Stop is closed once Stop and its binder finished |
| `EngineLifecycle.NoSessionOutlivesItsWatcher` | core/engine.go:1913-1941 | a tracked session whose watcher has gone is closed, even if its map entry was replaced or taken by another |
| `EngineLifecycle.WatchersDrain` | core/engine.go:1913-1941 | over every run watchers make at most three moves a tracked session; after the stop signal one can always be made while any is owed; and when none is owed every session ever tracked is closed |
| `EngineLifecycle.StopLeavesNothing` | core/engine.go:1590-1653 | Stop's wait returns exactly when no watcher that started still runs; by then every session with a started watcher and every listener handed over is closed |
| `EngineLifecycle.StopComesToAnEnd` | core/engine.go:1590-1653 | at every point of every run Stop can take its next step until it is done, or, joining, a watcher it waits for can; each of its steps closes one more of what it collected or is the next phase with none left; nothing else moves it |
| `EngineLifecycle.StopClosesWhatItFound` | core/engine.go:1618-1626 | whatever the watchers do meanwhile, every session with an entry when Stop collected them is closed by the time it waits |
| `EngineLifecycle.ListenerIsTakenOrRefused` | core/engine.go:1680-1690 | on every run a listener handed over before Stop's last look is the engine's, and open; after it, it is refused and closed by its binder |
| `EngineLifecycle.SessionIsFoundWhileWatched` | core/engine.go:1913-1941 | on every run a session that shares its id with no other has its entry exactly while its watcher has not gone |
| `EngineLifecycle.ClosedOnlyIfEnded` | core/engine.go:1913-1941 | on every run, until the stop signal is out, a session is closed only if it ended |
| `EngineLifecycle.EndedIsClosed` | core/engine.go:1913-1941 | and one that ended is closed from then on |
| `ReplayGuard.Guard.Admit` | core/reality_auth.go:166-185 | the eviction loop and insertion leave exactly the state of After, and the answer of Admits |
| `ReplayGuard.AdmissionsAreApart` | core/reality_auth.go:166-185 | over every forward-clock run two admissions of one session id are more than a window apart |
| `ReplayGuard.AdmittedForGood` | core/reality_auth.go:166-185 | a hello just admitted is admitted in no continuation of the run if and only if its sealed timestamp was not ahead of the clock |
| `ReplayGuard.AheadIsReplayed` | core/reality_auth.go:166-185 | any hello sealed ahead of the clock is admitted again a window and one tick later |
| `ReplayGuard.MemoryIsOneWindow` | core/reality_auth.go:172-178 | after every admission nothing remembered is older than a window, and no more is remembered than was admitted within one |
| `ClientHello.ParseClientHello` | core/reality_clienthello.go:70-126 | the cursor loops compute ParseHello |
| `ClientHello.ParseOfBytes` | core/reality_clienthello.go:70-126 | a well-formed hello parses to its random, its session id and its last 32-byte x25519 share |
| `ClientHello.ParseIsExact` | core/reality_clienthello.go:70-126 | bytes parse to given fields if and only if they serialize a well-formed hello with those fields |
| `ClientHello.PeekOfRecord` | core/reality_clienthello.go:43-65 | peeking at any well-formed hello in one record consumes that record and yields its fields, whatever follows |
| `ClientHello.PeekClientHello` | core/reality_clienthello.go:43-65 | in every outcome raw is exactly what was consumed, and outcome and raw depend on the stream alone, not on its cuts |
| `ClientHello.PrefixConn.Read` | core/reality_clienthello.go:137-144 | each read takes the front of prefix and stream together |
| `ClientHello.PeekThenRead` | core/reality_clienthello.go:43-144 | for every stream, cut and read sizes, what is read after peeking is the stream from its first byte, and all of it at the end, which is reached after one read with room for a byte per byte and piece of it, and one more |
| `Reconnect.RelayDedup.Fail` | core/client.go:361-377 | a non-empty tag is remembered, an empty one never |
| `Reconnect.Attempt` | core/client.go:1009-1219 | silent exactly on no handshake or a reply awaited in vain, too large exactly when the request was refused for its size, unroutable exactly when not for that but for want of a route, refused exactly on a refusal or no usable exit; connects exactly when the pairing dials, the chain rules allow it and its peer relay is not remembered as failed; dials nothing otherwise forbidden; remembers exactly a failed relay |
| `Reconnect.ConnectVia` | core/client.go:893-935 | connects by the first mode that can; a member where none can comes out as the highest of its modes' failures, which `Reconnect.OutcomeByReply` gives by its replies; no failed relay is redialed |
| `Reconnect.OutcomeByReply` | core/client.go:893-949 | a member where nothing connects is silent exactly when every mode it was offered drew no handshake or no reply; too large exactly when one was refused for its size and none drew more; unroutable exactly when one found no route and none drew more than no reply; refused exactly when it refused one and none drew more; failed in transport otherwise |
| `Reconnect.DirectComesFirst` | core/client.go:847-868 | every member is offered relay; the first, unless chaining, direct as well, before relay exactly unless relay is preferred |
| `Reconnect.Establish` | core/client.go:470-594 | a pass fails as unreachable exactly when every mode offered to every member drew no handshake or no reply and not all were behind stale links, as stale exactly when all were, then as too large exactly when some member was, and as unroutable exactly when some member was and none was too large; offers run in order without a gap, the pass comes up at the first that can and fails only when none could; direct is offered at most once and never when chaining; no failed non-empty peer tag is dialed again; an interruption is the first met, and a pass that came up or went through met none |
| `Reconnect.DirectIsOfferedOnce` | core/client.go:847-868 | over the whole offer sequence of any pool direct appears at most once, and never when chaining |
| `Reconnect.SilentMeansNothingHeard` | core/client.go:937-949 | over any modes, a member is silent exactly when each drew no handshake or a reply awaited in vain |
| `Reconnect.BackoffIsExponential` | core/client.go:1447-1521 | the k-th delay is min(base·2^k, max) for every k if and only if base ≤ max |
| `Reconnect.ReconnectLoop` | core/client.go:1447-1497 | a walk happens exactly when meshRecoveryAfter unreachable passes followed the last walk or answering pass, stale passes neither counting nor resetting; delays follow the backoff; the attempt budget is exact; and it is cut short exactly at the first wait that does not run out |
| `Reconnect.WalkMeansSilence` | core/client.go:1447-1497 | at a pass that walks, everything any member was asked drew no handshake or a reply awaited in vain, and not all links were stale |
| `Reconnect.WalksArePaced` | core/client.go:1468-1477 | between two walks lie at least meshRecoveryAfter unreachable passes |

## Left out

- `ChainDial.DialChain`: a budget of zero or less, which disarms the guards, is not modelled; the shipped one is fifteen seconds.
- Cryptography: Noise, AES-GCM, HKDF, DTLS, signatures and credentials appear as functions with the stated laws, or as outcomes. That no handshake accepts a refusal frame as a reply is a hypothesis of the chain dial.
- Rendezvous handshakes, ICE and DTLS internals, certificate mimicry and fingerprint shaping.
- Sockets, DNS, files, JSON, event wording and metering; a send that fails for want of a socket.
- Real timers: a timer may fire at any step. Timeouts appear only as what they cause.
- Durations are unbounded integers: `time.Duration` overflow in the doubled backoff and saturation of time differences are not modelled.
- Rates are real numbers: floating-point rounding inside the token bucket is not modelled.
- The check that a relay is no hop of the chain is made when a session is paired (an input of `Reconnect.Attempt`) and not again on a rebuild, so no theorem speaks of it after one.
- The transport pool's own selection, validation and persistence (`selectPath`, `dialAndValidate`); configuration checks, refusal texts, and the descriptions of diversity are flat tables.
- The choice between forwarding roles, accounting, geo-IP and AS tables: their packages are not part of this model.
- `RaceLadder.LosersAreClosed`: a session returned together with an error is not counted among the losers, because no dialer returns one.
- `RealityListener.CloseQuiesces`: speaks of the listener's goroutines; an answering goroutine may still be spawned by a later Accept, and `RealitySessions` says what becomes of it.
- `EngineLifecycle.StopLeavesNothing`: a session tracked while Stop returns is closed by its own watcher, possibly after the return.
- Unlinkability and other claims against an adversary: the model covers functional correctness only.
