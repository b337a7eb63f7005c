/**
 The staggered race over the candidate ladder (core/pool.go, raceLadder and drainLosers), as a state
 machine over every schedule of its timer, its dialing goroutines, cancellation and shutdown.

 A step that is not enabled leaves the state alone, so every sequence of steps is a run.
 */
module RaceLadder {
  type Candidate = string

  /** What one dial returned: an error or not, a session or not. */
  datatype Result = Result(failed: bool, up: bool) {
    predicate Wins() {
      !failed && up
    }
  }

  /** poolParallel may be anything, zero and below included. */
  datatype Config = Config(ladder: seq<Candidate>, poolParallel: int)

  datatype Phase =
    | EmptyLadder
    | Racing
    | Draining(winner: nat, remaining: nat)
    | Drained(winner: nat)
    | DrainStopped(winner: nat)
    | NoneConnected
    | Cancelled
    | Stopped
  {
    predicate Won() {
      Draining? || Drained? || DrainStopped?
    }
  }

  /**
   Candidates are known by their place in the ladder. dialed is what the dialer was called with, queued are
   those whose result is in the channel, got those whose result was received, and results what every
   finished dial returned. Results may be received in any order, the channel's own among them.
   */
  datatype State = State(
    launched: nat, dialed: seq<Candidate>, dialing: set<nat>, queued: set<nat>, got: set<nat>,
    results: map<nat, Result>, cooled: set<Candidate>, closed: set<nat>, phase: Phase, stopped: bool)
  {
    function Inflight(): int {
      launched - |got|
    }
  }

  datatype Action =
    | Finish(i: nat, r: Result)
    | Tick
    | Receive(i: nat)
    | ContextDone
    | StopEngine
    | SeeStop
    | DrainReceive(i: nat)
    | DrainSeesStop

  function Launch(c: Config, s: State): State
    requires s.launched < |c.ladder|
  {
    s.(launched := s.launched + 1, dialed := s.dialed + [c.ladder[s.launched]], dialing := s.dialing + {s.launched})
  }

  function Idle(phase: Phase): State {
    State(0, [], {}, {}, {}, map[], {}, {}, phase, false)
  }

  function Start(c: Config): State {
    if c.ladder == [] then Idle(EmptyLadder) else Launch(c, Idle(Racing))
  }

  predicate Enabled(c: Config, s: State, a: Action) {
    match a
    case Finish(i, _) => i in s.dialing
    case Tick => s.phase.Racing?
    case Receive(i) => s.phase.Racing? && i in s.queued
    case ContextDone => s.phase.Racing?
    case StopEngine => true
    case SeeStop => s.phase.Racing? && s.stopped
    case DrainReceive(i) => s.phase.Draining? && i in s.queued
    case DrainSeesStop => s.phase.Draining? && s.stopped
  }

  /** What the loop does with a result that did not win. */
  function Failed(c: Config, s: State): State {
    if s.launched < |c.ladder| then Launch(c, s)
    else if s.Inflight() == 0 then s.(phase := NoneConnected)
    else s
  }

  function DrainOf(winner: nat, remaining: int): Phase {
    if remaining <= 0 then Drained(winner) else Draining(winner, remaining)
  }

  function Taken(s: State, i: nat): State {
    s.(queued := s.queued - {i}, got := s.got + {i})
  }

  function Received(c: Config, s: State, i: nat): State {
    var t := Taken(s, i);
    if i in s.results && s.results[i].Wins() then t.(phase := DrainOf(i, t.Inflight()))
    else if i < |c.ladder| then Failed(c, t.(cooled := t.cooled + {c.ladder[i]}))
    else t
  }

  function DrainReceived(s: State, i: nat): State
    requires s.phase.Draining?
  {
    var t := Taken(s, i).(phase := DrainOf(s.phase.winner, s.phase.remaining - 1));
    if i in s.results && s.results[i].up then t.(closed := t.closed + {i}) else t
  }

  function Apply(c: Config, s: State, a: Action): State {
    if !Enabled(c, s, a) then s
    else
      match a
      case Finish(i, r) => s.(dialing := s.dialing - {i}, queued := s.queued + {i}, results := s.results[i := r])
      case Tick => if s.launched < |c.ladder| && s.Inflight() < c.poolParallel then Launch(c, s) else s
      case Receive(i) => Received(c, s, i)
      case ContextDone => s.(phase := Cancelled)
      case StopEngine => s.(stopped := true)
      case SeeStop => s.(phase := Stopped)
      case DrainReceive(i) => DrainReceived(s, i)
      case DrainSeesStop => s.(phase := DrainStopped(s.phase.winner))
  }

  function Exec(c: Config, acts: seq<Action>): State {
    if acts == [] then Start(c) else Apply(c, Exec(c, acts[..|acts| - 1]), acts[|acts| - 1])
  }

  // ---------- the invariant ----------

  /** Every launched candidate is in exactly one place: dialing, in the channel, or received. */
  ghost predicate Places(launched: nat, dialing: set<nat>, queued: set<nat>, got: set<nat>) {
    && |dialing| + |queued| + |got| == launched
    && (forall i: nat :: i < launched <==> i in dialing || i in queued || i in got)
    && dialing !! queued && dialing !! got && queued !! got
  }

  ghost predicate Placed(s: State) {
    Places(s.launched, s.dialing, s.queued, s.got) && s.results.Keys == s.queued + s.got
  }

  ghost predicate InOrder(c: Config, s: State) {
    s.launched <= |c.ladder| && s.dialed == c.ladder[..s.launched]
  }

  /** A candidate received while racing lost, and is cooling. */
  ghost predicate Lost(c: Config, s: State, i: nat) {
    i < |c.ladder| && i in s.results && !s.results[i].Wins() && c.ladder[i] in s.cooled
  }

  /** Whatever drained was closed if it had a session. */
  ghost predicate Settled(c: Config, s: State, i: nat) {
    Lost(c, s, i) || (s.phase.Won() && (i == s.phase.winner || (i in s.results && (s.results[i].up ==> i in s.closed))))
  }

  ghost predicate Judged(c: Config, s: State) {
    && (forall i :: i in s.got ==> Settled(c, s, i))
    && (!s.phase.Won() ==> s.closed == {})
    && (forall i :: i in s.closed ==> i in s.got && i in s.results && s.results[i].up)
    && (s.phase.Won() ==> s.phase.winner in s.got && s.phase.winner !in s.closed
                          && s.phase.winner in s.results && s.results[s.phase.winner].Wins())
  }

  ghost predicate Bounded(c: Config, s: State) {
    && (s.phase.Racing? ==> 1 <= s.Inflight() && (s.Inflight() <= 1 || s.Inflight() <= c.poolParallel))
    && (s.phase.EmptyLadder? <==> c.ladder == [])
    && (s.phase.NoneConnected? ==> s.launched == |c.ladder| && s.Inflight() == 0)
    && (s.phase.Draining? ==> s.phase.remaining == s.Inflight() && s.Inflight() > 0)
    && (s.phase.Drained? ==> s.Inflight() == 0)
    && (s.phase.Stopped? || s.phase.DrainStopped? ==> s.stopped)
  }

  ghost predicate Inv(c: Config, s: State) {
    Sound(c, s) && Bounded(c, s)
  }

  ghost predicate Sound(c: Config, s: State) {
    Placed(s) && InOrder(c, s) && Judged(c, s)
  }

  lemma LaunchPlaces(c: Config, s: State)
    requires Placed(s) && s.launched < |c.ladder|
    ensures Placed(Launch(c, s))
  {
    PlaceOne(s.launched, s.dialing, s.queued, s.got);
  }

  lemma PlaceOne(launched: nat, dialing: set<nat>, queued: set<nat>, got: set<nat>)
    requires Places(launched, dialing, queued, got)
    ensures Places(launched + 1, dialing + {launched}, queued, got)
  {
    assert launched !in dialing;
  }

  lemma QueueOne(launched: nat, dialing: set<nat>, queued: set<nat>, got: set<nat>, i: nat)
    requires Places(launched, dialing, queued, got) && i in dialing
    ensures Places(launched, dialing - {i}, queued + {i}, got)
  {
  }

  lemma GetOne(launched: nat, dialing: set<nat>, queued: set<nat>, got: set<nat>, i: nat)
    requires Places(launched, dialing, queued, got) && i in queued
    ensures Places(launched, dialing, queued - {i}, got + {i}) && |got + {i}| == |got| + 1
  {
  }

  lemma LaunchJudges(c: Config, s: State)
    requires Judged(c, s) && s.launched < |c.ladder|
    ensures Judged(c, Launch(c, s))
  {
    var t := Launch(c, s);
    forall j | j in t.got
      ensures Settled(c, t, j)
    {
      assert Settled(c, s, j);
    }
  }

  lemma LaunchKeeps(c: Config, s: State)
    requires Sound(c, s) && s.launched < |c.ladder|
    ensures Sound(c, Launch(c, s))
  {
    LaunchPlaces(c, s);
    LaunchJudges(c, s);
    LaunchInOrder(c, s);
  }

  lemma LaunchInOrder(c: Config, s: State)
    requires InOrder(c, s) && s.launched < |c.ladder|
    ensures InOrder(c, Launch(c, s))
  {
    assert c.ladder[..s.launched] + [c.ladder[s.launched]] == c.ladder[..s.launched + 1];
  }

  lemma TakePlaces(s: State, i: nat)
    requires Placed(s) && i in s.queued
    ensures Placed(Taken(s, i)) && i !in s.got && i < s.launched && i in s.results
    ensures Taken(s, i).Inflight() == s.Inflight() - 1
  {
    GetOne(s.launched, s.dialing, s.queued, s.got, i);
  }

  lemma FinishKeeps(c: Config, s: State, i: nat, r: Result)
    requires Inv(c, s) && i in s.dialing
    ensures Inv(c, Apply(c, s, Finish(i, r)))
  {
    var t := Apply(c, s, Finish(i, r));
    QueueOne(s.launched, s.dialing, s.queued, s.got, i);
    assert Placed(t);
    forall j | j in t.got
      ensures Settled(c, t, j)
    {
      assert Settled(c, s, j);
    }
  }

  lemma WinKeeps(c: Config, s: State, i: nat)
    requires Inv(c, s) && s.phase.Racing? && i in s.queued && i in s.results && s.results[i].Wins()
    ensures Inv(c, Received(c, s, i))
  {
    TakePlaces(s, i);
    var t := Received(c, s, i);
    assert Placed(t);
    forall j | j in t.got
      ensures Settled(c, t, j)
    {
      assert j != i ==> Settled(c, s, j);
    }
  }

  lemma LossKeeps(c: Config, s: State, i: nat)
    requires Inv(c, s) && s.phase.Racing? && i in s.queued && i in s.results && !s.results[i].Wins()
    ensures Inv(c, Received(c, s, i))
  {
    TakePlaces(s, i);
    var u := Taken(s, i).(cooled := s.cooled + {c.ladder[i]});
    LossSettles(c, s, i, u);
    FailedKeeps(c, u);
  }

  lemma LossSettles(c: Config, s: State, i: nat, u: State)
    requires Inv(c, s) && s.phase.Racing? && i in s.queued && i in s.results && !s.results[i].Wins()
    requires i < |c.ladder| && u == Taken(s, i).(cooled := s.cooled + {c.ladder[i]})
    ensures Sound(c, u)
  {
    TakePlaces(s, i);
    assert Placed(u);
    forall j | j in u.got
      ensures Settled(c, u, j)
    {
      assert j != i ==> Settled(c, s, j);
    }
  }

  lemma FailedKeeps(c: Config, u: State)
    requires c.ladder != [] && Sound(c, u) && u.phase.Racing?
    requires 0 <= u.Inflight() && (u.Inflight() == 0 || u.Inflight() < c.poolParallel)
    ensures Inv(c, Failed(c, u))
  {
    if u.launched < |c.ladder| {
      LaunchKeeps(c, u);
    } else if u.Inflight() == 0 {
      var t := Failed(c, u);
      forall j | j in t.got
        ensures Settled(c, t, j)
      {
        assert Settled(c, u, j);
      }
    }
  }

  lemma DrainKeeps(c: Config, s: State, i: nat)
    requires Inv(c, s) && s.phase.Draining? && i in s.queued
    ensures Inv(c, DrainReceived(s, i))
  {
    TakePlaces(s, i);
    DrainPlaces(s, i);
    var t := DrainReceived(s, i);
    forall j | j in t.got
      ensures Settled(c, t, j)
    {
      assert j != i ==> Settled(c, s, j);
    }
  }

  lemma DrainPlaces(s: State, i: nat)
    requires Placed(s) && s.phase.Draining? && i in s.queued
    ensures Placed(DrainReceived(s, i)) && DrainReceived(s, i).Inflight() == s.Inflight() - 1
  {
    TakePlaces(s, i);
  }

  /** Steps that only move the phase, or latch the stop. */
  lemma PhaseKeeps(c: Config, s: State, a: Action)
    requires Inv(c, s) && Enabled(c, s, a) && (a.ContextDone? || a.StopEngine? || a.SeeStop? || a.DrainSeesStop?)
    ensures Inv(c, Apply(c, s, a))
  {
    var t := Apply(c, s, a);
    forall j | j in t.got
      ensures Settled(c, t, j)
    {
      assert Settled(c, s, j);
    }
  }

  lemma TickKeeps(c: Config, s: State)
    requires Inv(c, s) && s.phase.Racing?
    ensures Inv(c, Apply(c, s, Tick))
  {
    if s.launched < |c.ladder| && s.Inflight() < c.poolParallel {
      LaunchKeeps(c, s);
    }
  }

  lemma StepKeeps(c: Config, s: State, a: Action)
    requires Inv(c, s)
    ensures Inv(c, Apply(c, s, a))
  {
    if Enabled(c, s, a) {
      match a
      case Finish(i, r) => FinishKeeps(c, s, i, r);
      case Tick => TickKeeps(c, s);
      case Receive(i) =>
        TakePlaces(s, i);
        if s.results[i].Wins() {
          WinKeeps(c, s, i);
        } else {
          LossKeeps(c, s, i);
        }
      case DrainReceive(i) => DrainKeeps(c, s, i);
      case _ => PhaseKeeps(c, s, a);
    }
  }

  lemma {:induction false} RunKeeps(c: Config, acts: seq<Action>)
    ensures Inv(c, Exec(c, acts))
  {
    if acts == [] {
      if c.ladder != [] {
        LaunchPlaces(c, Idle(Racing));
      }
    } else {
      RunKeeps(c, acts[..|acts| - 1]);
      StepKeeps(c, Exec(c, acts[..|acts| - 1]), acts[|acts| - 1]);
    }
  }

  // ---------- what the race promises ----------

  function Max(a: int, b: int): int {
    if a >= b then a else b
  }

  /**
   Under every schedule, candidates are dialed in ladder order, each at most once, and 1 to max(1,
   poolParallel) at a time.
   */
  lemma DialsInOrderAndBounded(c: Config, acts: seq<Action>)
    ensures var s := Exec(c, acts);
            && s.dialed <= c.ladder
            && |s.dialed| == s.launched
            && (s.phase.EmptyLadder? <==> c.ladder == [])
            && (s.phase.Racing? ==> 1 <= s.Inflight() <= Max(1, c.poolParallel))
  {
    RunKeeps(c, acts);
  }

  /** A failed result about to be received while racing. */
  ghost predicate Lapsed(s: State, a: Action) {
    && s.phase.Racing? && a.Receive? && a.i in s.queued
    && a.i in s.results && (s.results[a.i].failed || !s.results[a.i].up)
  }

  /** The next candidate is due: a tick finds fewer than poolParallel results outstanding, or a result failed. */
  ghost predicate Due(c: Config, s: State, a: Action) {
    && |s.dialed| < |c.ladder|
    && ((s.phase.Racing? && a == Tick && |s.dialing + s.queued| < c.poolParallel) || Lapsed(s, a))
  }

  /** A step dials exactly the next candidate if it is due, and nothing otherwise. */
  ghost predicate DialsAsDue(c: Config, s: State, a: Action, t: State) {
    if Due(c, s, a)
    then t.dialed == s.dialed + [c.ladder[|s.dialed|]] && t.dialing == s.dialing + {|s.dialed|}
    else t.dialed == s.dialed && t.dialing <= s.dialing && (a == Tick ==> t == s)
  }

  lemma Outstanding(s: State)
    requires Placed(s)
    ensures |s.dialing + s.queued| == |s.dialing| + |s.queued| == s.Inflight()
  {
  }

  lemma TickDialsAsDue(c: Config, s: State)
    requires Inv(c, s)
    ensures DialsAsDue(c, s, Tick, Apply(c, s, Tick))
  {
    Outstanding(s);
  }

  lemma ReceiveDialsAsDue(c: Config, s: State, i: nat)
    requires Placed(s) && InOrder(c, s)
    ensures DialsAsDue(c, s, Receive(i), Apply(c, s, Receive(i)))
  {
    if s.phase.Racing? && i in s.queued {
      TakePlaces(s, i);
      assert Due(c, s, Receive(i)) <==> s.launched < |c.ladder| && !s.results[i].Wins();
      if s.results[i].Wins() {
        WonShape(c, s, i);
      } else {
        LostShape(c, s, i);
      }
    }
  }

  lemma WonShape(c: Config, s: State, i: nat)
    requires Placed(s) && s.phase.Racing? && i in s.queued && i in s.results && s.results[i].Wins()
    ensures var t := Apply(c, s, Receive(i));
            && t == Taken(s, i).(phase := t.phase)
            && t.phase.Won() && t.phase.winner == i
  {
  }

  lemma LostShape(c: Config, s: State, i: nat)
    requires Placed(s) && InOrder(c, s) && s.phase.Racing?
    requires i in s.queued && i in s.results && !s.results[i].Wins()
    ensures i < |c.ladder|
    ensures var t, u := Apply(c, s, Receive(i)), Taken(s, i).(cooled := s.cooled + {c.ladder[i]});
            t == if s.launched < |c.ladder| then Launch(c, u)
                 else u.(phase := if s.Inflight() == 1 then NoneConnected else Racing)
  {
    TakePlaces(s, i);
  }

  lemma StepDialsAsDue(c: Config, s: State, a: Action)
    requires Inv(c, s)
    ensures DialsAsDue(c, s, a, Apply(c, s, a))
  {
    match a
    case Tick => TickDialsAsDue(c, s);
    case Receive(i) => ReceiveDialsAsDue(c, s, i);
    case _ => OtherDialsNothing(c, s, a);
  }

  lemma OtherDialsNothing(c: Config, s: State, a: Action)
    requires !a.Tick? && !a.Receive?
    ensures DialsAsDue(c, s, a, Apply(c, s, a))
  {
  }

  lemma ExecLast(c: Config, acts: seq<Action>, a: Action)
    ensures Exec(c, acts + [a]) == Apply(c, Exec(c, acts), a)
  {
    assert (acts + [a])[..|acts|] == acts;
  }

  /**
   When the next candidate is dialed, under every schedule: on a tick that finds fewer than poolParallel results
   outstanding, and on a failed result, while the ladder lasts. It is then exactly the next one; no other step
   dials anything, and any other tick changes nothing.
   */
  lemma DialsExactlyWhenDue(c: Config, acts: seq<Action>, a: Action)
    ensures DialsAsDue(c, Exec(c, acts), a, Exec(c, acts + [a]))
  {
    RunKeeps(c, acts);
    StepDialsAsDue(c, Exec(c, acts), a);
    ExecLast(c, acts, a);
  }

  /**
   One result received while racing: a session that came up without an error is returned and stops the race;
   anything else cools exactly its own candidate, and the race is over only if it was the last one outstanding
   of a ladder dialed to the end.
   */
  ghost predicate Decided(c: Config, s: State, i: nat, t: State) {
    && i < |c.ladder| && i in s.results
    && t.queued == s.queued - {i} && t.got == s.got + {i} && t.closed == s.closed
    && if !s.results[i].failed && s.results[i].up
       then t.phase.Won() && t.phase.winner == i && t.cooled == s.cooled
       else && t.cooled == s.cooled + {c.ladder[i]}
            && t.phase == if |s.dialed| == |c.ladder| && s.dialing + s.queued == {i} then NoneConnected else Racing
  }

  lemma OnlyOne(a: set<nat>, i: nat)
    requires i in a
    ensures |a| == 1 <==> a == {i}
  {
    assert a == (a - {i}) + {i};
  }

  lemma ReceiveDecides(c: Config, s: State, i: nat)
    requires Placed(s) && InOrder(c, s) && s.phase.Racing? && i in s.queued
    ensures Decided(c, s, i, Apply(c, s, Receive(i)))
  {
    TakePlaces(s, i);
    if s.results[i].Wins() {
      WonShape(c, s, i);
    } else {
      LostShape(c, s, i);
      Outstanding(s);
      OnlyOne(s.dialing + s.queued, i);
    }
  }

  /** What a result received while racing decides, under every schedule. */
  lemma ResultDecides(c: Config, acts: seq<Action>, i: nat)
    requires Exec(c, acts).phase.Racing? && i in Exec(c, acts).queued
    ensures Decided(c, Exec(c, acts), i, Exec(c, acts + [Receive(i)]))
  {
    RunKeeps(c, acts);
    ReceiveDecides(c, Exec(c, acts), i);
    ExecLast(c, acts, Receive(i));
  }

  /** k ticks of the timer with nothing else happening. */
  function Ticks(k: nat): seq<Action> {
    seq(k, _ => Tick)
  }

  function Min(a: int, b: int): int {
    if a <= b then a else b
  }

  /** How many are dialed once k ticks passed with nothing received, n dialed and g received before. */
  function Filled(c: Config, n: nat, g: nat, k: nat): int {
    Min(|c.ladder|, Max(n, Min(n + k, g + c.poolParallel)))
  }

  ghost predicate FilledTo(c: Config, s: State, k: nat, t: State) {
    var m := Filled(c, |s.dialed|, |s.got|, k);
    && 0 <= m <= |c.ladder| && t.dialed == c.ladder[..m]
    && t == s.(launched := t.launched, dialed := t.dialed, dialing := t.dialing)
  }

  lemma FilledNext(c: Config, n: nat, g: nat, k: nat)
    ensures var m := Filled(c, n, g, k);
            Filled(c, n, g, k + 1) == if m < |c.ladder| && m - g < c.poolParallel then m + 1 else m
  {
  }

  lemma TickFills(c: Config, s: State, k: nat, t: State)
    requires InOrder(c, t) && s.phase.Racing? && FilledTo(c, s, k, t)
    ensures FilledTo(c, s, k + 1, Apply(c, t, Tick))
  {
    FilledNext(c, |s.dialed|, |s.got|, k);
    if t.launched < |c.ladder| {
      LaunchInOrder(c, t);
    }
  }

  /**
   How a silent ladder fills: from any point of any race, k ticks with nothing received bring the number dialed
   to k more, but neither past the end of the ladder nor past poolParallel outstanding.
   */
  lemma {:induction false} TicksFillTheLadder(c: Config, acts: seq<Action>, k: nat)
    requires Exec(c, acts).phase.Racing?
    ensures FilledTo(c, Exec(c, acts), k, Exec(c, acts + Ticks(k)))
  {
    if k == 0 {
      RunKeeps(c, acts);
      assert acts + Ticks(k) == acts;
      FilledAtOnce(c, Exec(c, acts));
    } else {
      TicksFillTheLadder(c, acts, k - 1);
      OneMoreTick(acts, k);
      AnotherTick(c, acts, acts + Ticks(k - 1), k - 1);
    }
  }

  lemma FilledAtOnce(c: Config, s: State)
    requires InOrder(c, s)
    ensures FilledTo(c, s, 0, s)
  {
  }

  lemma OneMoreTick(acts: seq<Action>, k: nat)
    requires k > 0
    ensures acts + Ticks(k) == (acts + Ticks(k - 1)) + [Tick]
  {
  }

  lemma AnotherTick(c: Config, acts: seq<Action>, before: seq<Action>, k: nat)
    requires Exec(c, acts).phase.Racing? && FilledTo(c, Exec(c, acts), k, Exec(c, before))
    ensures FilledTo(c, Exec(c, acts), k + 1, Exec(c, before + [Tick]))
  {
    RunKeeps(c, before);
    TickFills(c, Exec(c, acts), k, Exec(c, before));
    ExecLast(c, before, Tick);
  }

  /** A race whose dials all hang has after k ticks dialed the first min(k + 1, max(1, poolParallel)) candidates. */
  lemma SilentRace(c: Config, k: nat)
    ensures var m := Min(|c.ladder|, Min(k + 1, Max(1, c.poolParallel)));
            0 <= m && Exec(c, Ticks(k)).dialed == c.ladder[..m]
  {
    if c.ladder == [] {
      SilentNothing(c, k);
    } else {
      RaceStarts(c);
      FilledFromStart(c, k);
      NothingBefore(Ticks(k));
      TicksFillTheLadder(c, [], k);
    }
  }

  lemma NothingBefore(acts: seq<Action>)
    ensures [] + acts == acts
  {
  }

  lemma RaceStarts(c: Config)
    requires c.ladder != []
    ensures Exec(c, []).phase.Racing? && |Exec(c, []).dialed| == 1 && |Exec(c, []).got| == 0
  {
  }

  lemma FilledFromStart(c: Config, k: nat)
    requires c.ladder != []
    ensures Filled(c, 1, 0, k) == Min(|c.ladder|, Min(k + 1, Max(1, c.poolParallel))) >= 0
  {
  }

  lemma {:induction false} SilentNothing(c: Config, k: nat)
    requires c.ladder == []
    ensures Exec(c, Ticks(k)) == Start(c)
  {
    if k > 0 {
      SilentNothing(c, k - 1);
      assert Ticks(k) == Ticks(k - 1) + [Tick];
      ExecLast(c, Ticks(k - 1), Tick);
    }
  }

  /** Nothing runs on past a cancel or a stop: the race ends with it, and the drain with the winner it has. */
  lemma EndsWhenTold(c: Config, acts: seq<Action>)
    ensures Exec(c, acts).phase.Racing? ==> Exec(c, acts + [ContextDone]).phase == Cancelled
    ensures Exec(c, acts).phase.Racing? && Exec(c, acts).stopped ==> Exec(c, acts + [SeeStop]).phase == Stopped
    ensures Exec(c, acts).phase.Draining? && Exec(c, acts).stopped ==>
              Exec(c, acts + [DrainSeesStop]).phase == DrainStopped(Exec(c, acts).phase.winner)
  {
    ExecLast(c, acts, ContextDone);
    ExecLast(c, acts, SeeStop);
    ExecLast(c, acts, DrainSeesStop);
    StopsShape(c, Exec(c, acts));
  }

  lemma StopsShape(c: Config, s: State)
    ensures s.phase.Racing? ==> Apply(c, s, ContextDone) == s.(phase := Cancelled)
    ensures s.phase.Racing? && s.stopped ==> Apply(c, s, SeeStop) == s.(phase := Stopped)
    ensures s.phase.Draining? && s.stopped ==> Apply(c, s, DrainSeesStop) == s.(phase := DrainStopped(s.phase.winner))
  {
  }

  /** The candidate was dialed, its result was received, and it was not a session without an error. */
  ghost predicate Deserved(c: Config, s: State, x: Candidate) {
    exists i :: i in s.got && i < |c.ladder| && c.ladder[i] == x && i in s.results && !s.results[i].Wins()
  }

  lemma DeservedStays(c: Config, s: State, a: Action, x: Candidate)
    requires Placed(s) && Deserved(c, s, x)
    ensures Deserved(c, Apply(c, s, a), x)
  {
    var i :| i in s.got && i < |c.ladder| && c.ladder[i] == x && i in s.results && !s.results[i].Wins();
    GotStays(c, s, a, i);
    var t := Apply(c, s, a);
    assert i in t.got && t.results[i] == s.results[i];
  }

  lemma GotStays(c: Config, s: State, a: Action, i: nat)
    requires Placed(s) && i in s.got
    ensures i in Apply(c, s, a).got && i in Apply(c, s, a).results && Apply(c, s, a).results[i] == s.results[i]
  {
    if a.Finish? {
      assert i !in s.dialing;
    }
  }

  lemma NewlyCooledDeserves(c: Config, s: State, a: Action, x: Candidate)
    requires Inv(c, s) && x in Apply(c, s, a).cooled && x !in s.cooled
    ensures Deserved(c, Apply(c, s, a), x)
  {
    OnlyReceiptsCool(c, s, a);
    ReceiveDecides(c, s, a.i);
    var t := Apply(c, s, a);
    ReceiptKeepsResults(c, s, a.i);
    assert a.i in t.got && c.ladder[a.i] == x && t.results[a.i] == s.results[a.i];
  }

  lemma OnlyReceiptsCool(c: Config, s: State, a: Action)
    ensures Apply(c, s, a).cooled == s.cooled || (a.Receive? && s.phase.Racing? && a.i in s.queued)
  {
  }

  lemma ReceiptKeepsResults(c: Config, s: State, i: nat)
    ensures Apply(c, s, Receive(i)).results == s.results
  {
  }

  /** Under every schedule, a candidate is cooled only for a dial of its own that failed. */
  lemma {:induction false} CoolsOnlyTheFailed(c: Config, acts: seq<Action>, x: Candidate)
    requires x in Exec(c, acts).cooled
    ensures Deserved(c, Exec(c, acts), x)
  {
    if acts != [] {
      var prior, a := acts[..|acts| - 1], acts[|acts| - 1];
      RunKeeps(c, prior);
      if x in Exec(c, prior).cooled {
        CoolsOnlyTheFailed(c, prior, x);
        DeservedStays(c, Exec(c, prior), a, x);
      } else {
        NewlyCooledDeserves(c, Exec(c, prior), a, x);
      }
    }
  }

  /** The error that no candidate connected is returned only once every one was dialed, failed, and is cooling. */
  lemma NoneConnectedIsTrue(c: Config, acts: seq<Action>)
    requires Exec(c, acts).phase.NoneConnected?
    ensures var s := Exec(c, acts);
            && s.dialed == c.ladder
            && forall i: nat :: i < |c.ladder| ==> i in s.results && !s.results[i].Wins() && c.ladder[i] in s.cooled
  {
    RunKeeps(c, acts);
    var s := Exec(c, acts);
    assert s.dialing == {} && s.queued == {};
    forall i: nat | i < |c.ladder|
      ensures i in s.results && !s.results[i].Wins() && c.ladder[i] in s.cooled
    {
      assert Settled(c, s, i);
    }
  }

  /** Finishes and receipts still to come, at most. */
  function Work(c: Config, s: State): int {
    2 * (|c.ladder| - |s.got|) - |s.queued|
  }

  /** The steps of a run that got anywhere: an enabled finish or receipt. */
  function Moves(c: Config, acts: seq<Action>): nat {
    if acts == [] then 0
    else
      var prior, a := acts[..|acts| - 1], acts[|acts| - 1];
      Moves(c, prior) + if IsMove(c, Exec(c, prior), a) then 1 else 0
  }

  predicate IsMove(c: Config, s: State, a: Action) {
    (a.Finish? || a.Receive? || a.DrainReceive?) && Enabled(c, s, a)
  }

  lemma OneMove(c: Config, s: State, a: Action)
    requires Placed(s)
    ensures Work(c, Apply(c, s, a)) == Work(c, s) - if IsMove(c, s, a) then 1 else 0
  {
    if a.Finish? {
      FinishIsWork(c, s, a.i, a.r);
    } else if !IsMove(c, s, a) {
      NothingTaken(c, s, a);
    } else {
      TakenIsWork(c, s, a.i);
      if a.Receive? {
        ReceivedTakes(c, s, a.i);
      }
    }
  }

  lemma FinishIsWork(c: Config, s: State, i: nat, r: Result)
    requires Placed(s)
    ensures Work(c, Apply(c, s, Finish(i, r))) == Work(c, s) - if i in s.dialing then 1 else 0
  {
  }

  lemma NothingTaken(c: Config, s: State, a: Action)
    requires !IsMove(c, s, a)
    ensures Apply(c, s, a).got == s.got && Apply(c, s, a).queued == s.queued
  {
  }

  lemma ReceivedTakes(c: Config, s: State, i: nat)
    ensures Received(c, s, i).got == Taken(s, i).got && Received(c, s, i).queued == Taken(s, i).queued
  {
  }

  lemma TakenIsWork(c: Config, s: State, i: nat)
    requires Placed(s) && i in s.queued
    ensures Work(c, Taken(s, i)) == Work(c, s) - 1
  {
  }

  lemma {:induction false} MovesAreWork(c: Config, acts: seq<Action>)
    ensures Moves(c, acts) + Work(c, Exec(c, acts)) == 2 * |c.ladder|
  {
    if acts != [] {
      var prior := acts[..|acts| - 1];
      MovesAreWork(c, prior);
      RunKeeps(c, prior);
      OneMove(c, Exec(c, prior), acts[|acts| - 1]);
    }
  }

  /**
   The race cannot stall: while it runs, a dial is under way or a result is waiting to be received, and no
   schedule fits in more than two moves a candidate, each of which uses one up.
   */
  lemma CannotStall(c: Config, acts: seq<Action>)
    ensures var s := Exec(c, acts);
            && (s.phase.Racing? || s.phase.Draining? ==> s.dialing != {} || s.queued != {})
            && Moves(c, acts) <= 2 * |c.ladder|
            && (Moves(c, acts) == 2 * |c.ladder| ==> !s.phase.Racing? && !s.phase.Draining?)
  {
    RunKeeps(c, acts);
    MovesAreWork(c, acts);
  }

  /** The one returned is a candidate that connected, and the race never closes it. */
  lemma WinnerIsTrue(c: Config, acts: seq<Action>)
    requires Exec(c, acts).phase.Won()
    ensures var s := Exec(c, acts);
            var i := s.phase.winner;
            i < |c.ladder| && i in s.results && s.results[i].Wins() && i !in s.closed
  {
    RunKeeps(c, acts);
  }

  /** All steps have finished: nothing is dialing, and neither the race nor the drain is still running. */
  ghost predicate AtRest(s: State) {
    s.dialing == {} && !s.phase.Racing? && !s.phase.Draining?
  }

  /** A session that came up, was not the one returned, and did not come with an error. */
  ghost predicate Loser(s: State, i: nat) {
    i in s.results && s.results[i].Wins() && !(s.phase.Won() && s.phase.winner == i)
  }

  /** Under every schedule the race closes only sessions that came up and were not the one returned. */
  lemma ClosesOnlyLosers(c: Config, acts: seq<Action>, i: nat)
    requires i in Exec(c, acts).closed
    ensures var s := Exec(c, acts);
            i in s.results && s.results[i].up && s.phase.Won() && i != s.phase.winner
  {
    RunKeeps(c, acts);
  }

  /** After a win without shutdown, every other session that came up is closed. */
  lemma LosersAreClosed(c: Config, acts: seq<Action>, i: nat)
    requires var s := Exec(c, acts); AtRest(s) && s.phase.Won() && !s.stopped && Loser(s, i)
    ensures i in Exec(c, acts).closed
  {
    RunKeeps(c, acts);
    var s := Exec(c, acts);
    assert s.queued == {};
    assert Settled(c, s, i);
  }

  /**
   In every outcome, a loser left open is one whose result was never received; and that is only after a
   cancel or a stop.
   */
  lemma LeftOpenWasLeftUnread(c: Config, acts: seq<Action>, i: nat)
    requires var s := Exec(c, acts); AtRest(s) && Loser(s, i)
    ensures var s := Exec(c, acts);
            && (i !in s.closed <==> i in s.queued)
            && (i in s.queued ==> s.phase.Cancelled? || s.stopped)
  {
    RunKeeps(c, acts);
    var s := Exec(c, acts);
    assert i in s.got ==> Settled(c, s, i);
  }

  /** A schedule in which the caller may cancel, or the engine may be stopped, as allowed. */
  ghost predicate Allowed(acts: seq<Action>, cancel: bool, stop: bool) {
    forall i :: 0 <= i < |acts| ==> (acts[i].ContextDone? ==> cancel) && (acts[i].StopEngine? ==> stop)
  }

  /** Once all has finished, every session that came up and was not returned is closed. */
  ghost predicate NoneLeftOpen(c: Config, acts: seq<Action>) {
    var s := Exec(c, acts);
    AtRest(s) ==> forall i: nat :: Loser(s, i) ==> i in s.closed
  }

  lemma StepCutsNothing(c: Config, s: State, a: Action)
    requires !s.phase.Cancelled? && !s.stopped && !a.ContextDone? && !a.StopEngine?
    ensures !Apply(c, s, a).phase.Cancelled? && !Apply(c, s, a).stopped
  {
  }

  lemma {:induction false} NothingCutShort(c: Config, acts: seq<Action>)
    requires Allowed(acts, false, false)
    ensures !Exec(c, acts).phase.Cancelled? && !Exec(c, acts).stopped
  {
    if acts != [] {
      var prior := acts[..|acts| - 1];
      assert Allowed(prior, false, false);
      NothingCutShort(c, prior);
      StepCutsNothing(c, Exec(c, prior), acts[|acts| - 1]);
    }
  }

  lemma ExecTwo(c: Config, a: Action, b: Action)
    ensures Exec(c, [a, b]) == Apply(c, Apply(c, Start(c), a), b)
  {
    assert [a, b][..1] == [a] && [a][..0] == [];
    assert Exec(c, [a]) == Apply(c, Exec(c, []), a);
  }

  /** Whatever the ladder, a cancelled race reads nothing more: its first candidate, coming up meanwhile, stays open. */
  lemma CancelLeavesOne(c: Config, acts: seq<Action>)
    requires c.ladder != [] && acts == [ContextDone, Finish(0, Result(false, true))]
    ensures Allowed(acts, true, false) && !NoneLeftOpen(c, acts)
  {
    ExecTwo(c, ContextDone, Finish(0, Result(false, true)));
    var s := Exec(c, acts);
    assert s.dialing == {} && Loser(s, 0) && 0 !in s.closed;
  }

  /** So does a stopped one. */
  lemma StopLeavesOne(c: Config, acts: seq<Action>)
    requires c.ladder != [] && acts == [StopEngine, SeeStop, Finish(0, Result(false, true))]
    ensures Allowed(acts, false, true) && !NoneLeftOpen(c, acts)
  {
    ExecTwo(c, StopEngine, SeeStop);
    assert acts[..2] == [StopEngine, SeeStop];
    var s := Exec(c, acts);
    assert s == Apply(c, Exec(c, acts[..2]), acts[2]);
    assert s.dialing == {} && Loser(s, 0) && 0 !in s.closed;
  }

  /**
   The race closes every loser on all schedules exactly when it is neither cancelled nor stopped, whatever
   the ladder.
   */
  lemma LosersClosedExactly(c: Config, cancel: bool, stop: bool)
    requires c.ladder != []
    ensures (forall acts :: Allowed(acts, cancel, stop) ==> NoneLeftOpen(c, acts)) <==> !cancel && !stop
  {
    if !cancel && !stop {
      forall acts | Allowed(acts, cancel, stop)
        ensures NoneLeftOpen(c, acts)
      {
        UncutRaceClosesAll(c, acts);
      }
    } else if cancel {
      var acts := [ContextDone, Finish(0, Result(false, true))];
      CancelLeavesOne(c, acts);
      assert Allowed(acts, cancel, stop) && !NoneLeftOpen(c, acts);
    } else {
      var acts := [StopEngine, SeeStop, Finish(0, Result(false, true))];
      StopLeavesOne(c, acts);
      assert Allowed(acts, cancel, stop) && !NoneLeftOpen(c, acts);
    }
  }

  lemma UncutRaceClosesAll(c: Config, acts: seq<Action>)
    requires Allowed(acts, false, false)
    ensures NoneLeftOpen(c, acts)
  {
    NothingCutShort(c, acts);
    var s := Exec(c, acts);
    if AtRest(s) {
      forall i: nat | Loser(s, i)
        ensures i in s.closed
      {
        LeftOpenWasLeftUnread(c, acts, i);
      }
    }
  }
}
