/**
 Registration of listeners and sessions with the engine against Stop, under every interleaving
 (core/engine.go, Stop, addListener, trackSession and its watcher).

 A step is one critical section or one blocking call; a step that is not enabled leaves the state alone.
 */
module EngineLifecycle {

  /** Where the one run of Stop is. */
  datatype Stopping =
    | Running
    | Signalled                       // the stop channel is closed
    | ClosingListeners(left: set<nat>)
    | Collecting
    | ClosingSessions(left: set<nat>)
    | Joining
    | Done

  /** Where the code holding a bound listener is: about to hand it over, told no, or finished. */
  datatype Binder = Holding | Refused | HandedOver

  /** Where the goroutine of a tracked session is: not yet started, watching, dropping its entry, gone. */
  datatype Watcher = NotStarted | Watching | Dropping | Gone {
    predicate Counted() {
      Watching? || Dropping?
    }
  }

  /** Sessions are numbered as they are tracked; sids may repeat, and entries holds the last one tracked under each. */
  datatype World = World(
    stopped: bool, listeners: set<nat>, binders: seq<Binder>, closedListeners: set<nat>,
    entries: map<string, nat>, sids: seq<string>, watchers: seq<Watcher>, closedSessions: set<nat>,
    stopping: Stopping)
  {
    predicate StopSignalled() {
      !stopping.Running?
    }
  }

  datatype Action =
    | Bind
    | AddListener(l: nat)
    | CloseRefused(l: nat)
    | Track(sid: string)
    | StartWatcher(s: nat)
    | SessionEnds(s: nat)
    | SeeClosed(s: nat)
    | SeeStop(s: nat)
    | DropEntry(s: nat)
    | SignalStop
    | LatchListeners
    | CloseListener(l: nat)
    | ListenersDone
    | CollectSessions
    | CloseSession(s: nat)
    | SessionsDone
    | Join

  const START := World(false, {}, [], {}, map[], [], [], {}, Running)

  predicate Enabled(w: World, a: Action) {
    match a
    case Bind => true
    case AddListener(l) => l < |w.binders| && w.binders[l].Holding?
    case CloseRefused(l) => l < |w.binders| && w.binders[l].Refused?
    case Track(_) => true
    case StartWatcher(s) => s < |w.watchers| && w.watchers[s].NotStarted?
    case SessionEnds(s) => s < |w.watchers|
    case SeeClosed(s) => s < |w.watchers| && w.watchers[s].Watching? && s in w.closedSessions
    case SeeStop(s) => s < |w.watchers| && w.watchers[s].Watching? && w.StopSignalled()
    case DropEntry(s) => s < |w.watchers| && w.watchers[s].Dropping? && s < |w.sids|
    case SignalStop => w.stopping.Running?
    case LatchListeners => w.stopping.Signalled?
    case CloseListener(l) => w.stopping.ClosingListeners? && l in w.stopping.left
    case ListenersDone => w.stopping.ClosingListeners? && w.stopping.left == {}
    case CollectSessions => w.stopping.Collecting?
    case CloseSession(s) => w.stopping.ClosingSessions? && s in w.stopping.left
    case SessionsDone => w.stopping.ClosingSessions? && w.stopping.left == {}
    case Join => w.stopping.Joining? && forall s :: 0 <= s < |w.watchers| ==> !w.watchers[s].Counted()
  }

  function Apply(w: World, a: Action): World {
    if !Enabled(w, a) then w
    else
      match a
      case Bind => w.(binders := w.binders + [Holding])
      case AddListener(l) =>
        if w.stopped then w.(binders := w.binders[l := Refused])
        else w.(binders := w.binders[l := HandedOver], listeners := w.listeners + {l})
      case CloseRefused(l) => w.(binders := w.binders[l := HandedOver], closedListeners := w.closedListeners + {l})
      case Track(sid) =>
        w.(entries := w.entries[sid := |w.watchers|], sids := w.sids + [sid], watchers := w.watchers + [NotStarted])
      case StartWatcher(s) => w.(watchers := w.watchers[s := Watching])
      case SessionEnds(s) => w.(closedSessions := w.closedSessions + {s})
      case SeeClosed(s) => w.(watchers := w.watchers[s := Dropping])
      case SeeStop(s) => w.(watchers := w.watchers[s := Dropping], closedSessions := w.closedSessions + {s})
      case DropEntry(s) => w.(watchers := w.watchers[s := Gone], entries := w.entries - {w.sids[s]})
      case SignalStop => w.(stopping := Signalled)
      case LatchListeners => w.(stopped := true, listeners := {}, stopping := ClosingListeners(w.listeners))
      case CloseListener(l) =>
        w.(closedListeners := w.closedListeners + {l}, stopping := ClosingListeners(w.stopping.left - {l}))
      case ListenersDone => w.(stopping := Collecting)
      case CollectSessions => w.(stopping := ClosingSessions(w.entries.Values))
      case CloseSession(s) =>
        w.(closedSessions := w.closedSessions + {s}, stopping := ClosingSessions(w.stopping.left - {s}))
      case SessionsDone => w.(stopping := Joining)
      case Join => w.(stopping := Done)
  }

  function Exec(acts: seq<Action>): World {
    if acts == [] then START else Apply(Exec(acts[..|acts| - 1]), acts[|acts| - 1])
  }

  // ---------- the invariant ----------

  /** A listener is with its binder, on the engine's list, in Stop's snapshot, or closed. */
  ghost predicate ListenerOk(w: World, l: nat) {
    l < |w.binders| &&
    (w.binders[l].HandedOver? ==>
       l in w.listeners || l in w.closedListeners || (w.stopping.ClosingListeners? && l in w.stopping.left))
  }

  ghost predicate Inv(w: World) {
    && (w.stopped <==> !w.stopping.Running? && !w.stopping.Signalled?)
    && (w.stopped ==> w.listeners == {})
    && (forall l :: 0 <= l < |w.binders| ==> ListenerOk(w, l))
    && |w.sids| == |w.watchers|
    && (forall s :: 0 <= s < |w.watchers| && (w.watchers[s].Dropping? || w.watchers[s].Gone?) ==> s in w.closedSessions)
  }

  lemma StepKeepsListeners(w: World, a: Action)
    requires Inv(w)
    ensures forall l :: 0 <= l < |Apply(w, a).binders| ==> ListenerOk(Apply(w, a), l)
  {
    var v := Apply(w, a);
    forall l | 0 <= l < |v.binders|
      ensures ListenerOk(v, l)
    {
      if l < |w.binders| {
        assert ListenerOk(w, l);
      }
    }
  }

  lemma StepKeeps(w: World, a: Action)
    requires Inv(w)
    ensures Inv(Apply(w, a))
  {
    StepKeepsListeners(w, a);
  }

  lemma {:induction false} RunKeeps(acts: seq<Action>)
    ensures Inv(Exec(acts))
  {
    if acts != [] {
      RunKeeps(acts[..|acts| - 1]);
      StepKeeps(Exec(acts[..|acts| - 1]), acts[|acts| - 1]);
    }
  }

  lemma ExecLast(acts: seq<Action>, a: Action)
    ensures Exec(acts + [a]) == Apply(Exec(acts), a)
  {
    assert (acts + [a])[..|acts|] == acts;
  }

  // ---------- Stop goes on to its end ----------

  /** The step is one of the run of Stop. */
  ghost predicate OfStop(a: Action) {
    || a.SignalStop? || a.LatchListeners? || a.CloseListener? || a.ListenersDone?
    || a.CollectSessions? || a.CloseSession? || a.SessionsDone? || a.Join?
  }

  ghost function PhasesLeft(s: Stopping): nat {
    match s
    case Running => 6
    case Signalled => 5
    case ClosingListeners(_) => 4
    case Collecting => 3
    case ClosingSessions(_) => 2
    case Joining => 1
    case Done => 0
  }

  /** What the phase Stop is in has still to close. */
  ghost function ToClose(s: Stopping): set<nat> {
    if s.ClosingListeners? || s.ClosingSessions? then s.left else {}
  }

  /** Stop closed one more of what the phase collected, or had closed them all and is in the next phase. */
  ghost predicate Onward(s: Stopping, t: Stopping) {
    if ToClose(s) == {} then PhasesLeft(t) == PhasesLeft(s) - 1
    else PhasesLeft(t) == PhasesLeft(s) && ToClose(t) < ToClose(s) && |ToClose(t)| == |ToClose(s)| - 1
  }

  lemma StopMoves(w: World, a: Action)
    ensures OfStop(a) && Enabled(w, a) ==> Onward(w.stopping, Apply(w, a).stopping)
    ensures !(OfStop(a) && Enabled(w, a)) ==> Apply(w, a).stopping == w.stopping
  {
    match a
    case CloseListener(l) => ClosingOneListener(w, l);
    case CloseSession(s) => ClosingOneSession(w, s);
    case _ =>
      if OfStop(a) {
        NextPhase(w, a);
      } else {
        OthersLeaveStop(w, a);
      }
  }

  lemma ClosingOneListener(w: World, l: nat)
    ensures var t := Apply(w, CloseListener(l)).stopping;
            if Enabled(w, CloseListener(l)) then Onward(w.stopping, t) else t == w.stopping
  {
    if Enabled(w, CloseListener(l)) {
      OneLess(w.stopping.left, l);
    }
  }

  lemma ClosingOneSession(w: World, s: nat)
    ensures var t := Apply(w, CloseSession(s)).stopping;
            if Enabled(w, CloseSession(s)) then Onward(w.stopping, t) else t == w.stopping
  {
    if Enabled(w, CloseSession(s)) {
      OneLess(w.stopping.left, s);
    }
  }

  lemma NextPhase(w: World, a: Action)
    requires OfStop(a) && !a.CloseListener? && !a.CloseSession?
    ensures var t := Apply(w, a).stopping;
            if Enabled(w, a) then Onward(w.stopping, t) else t == w.stopping
  {
  }

  lemma OthersLeaveStop(w: World, a: Action)
    requires !OfStop(a)
    ensures Apply(w, a).stopping == w.stopping
  {
  }

  lemma OneLess(s: set<nat>, i: nat)
    requires i in s
    ensures s - {i} < s && |s - {i}| == |s| - 1
  {
  }

  /** The next step of Stop's own, if it waits for nobody. */
  ghost function NextOfStop(s: Stopping): Action {
    match s
    case Running => SignalStop
    case Signalled => LatchListeners
    case ClosingListeners(left) => if left == {} then ListenersDone else CloseListener(AnyOf(left))
    case Collecting => CollectSessions
    case ClosingSessions(left) => if left == {} then SessionsDone else CloseSession(AnyOf(left))
    case _ => Join
  }

  ghost function AnyOf(s: set<nat>): (i: nat)
    requires s != {}
    ensures i in s
  {
    var i :| i in s;
    i
  }

  /** Some watcher is running, and so the engine's wait group is not down. */
  ghost predicate AnyRuns(w: World) {
    exists s :: 0 <= s < |w.watchers| && (w.watchers[s] == Watching || w.watchers[s] == Dropping)
  }

  /**
   Stop comes to its end: at every point of every run it can take a step of its own until it is done, save that
   before the last one it waits for the watchers that run, and then one of those can take a step. Every step it
   takes closes one more of what it collected, or is the next phase with nothing left to close; nothing else
   moves it.
   */
  lemma StopComesToAnEnd(acts: seq<Action>, a: Action)
    ensures var w := Exec(acts);
            !w.stopping.Done? ==>
              if w.stopping.Joining? && AnyRuns(w) then exists b :: IsMove(w, b)
              else OfStop(NextOfStop(w.stopping)) && Enabled(w, NextOfStop(w.stopping))
    ensures OfStop(a) && Enabled(Exec(acts), a) ==> Onward(Exec(acts).stopping, Exec(acts + [a]).stopping)
    ensures !(OfStop(a) && Enabled(Exec(acts), a)) ==> Exec(acts + [a]).stopping == Exec(acts).stopping
  {
    RunKeeps(acts);
    ExecLast(acts, a);
    var w := Exec(acts);
    StopMoves(w, a);
    if w.stopping.Joining? && AnyRuns(w) {
      var s :| 0 <= s < |w.watchers| && (w.watchers[s] == Watching || w.watchers[s] == Dropping);
      assert IsMove(w, NextMove(w, s));
    }
  }

  // ---------- listeners ----------

  /** The engine has taken its last look at its listeners. */
  ghost predicate HasLatched(w: World) {
    PhasesLeft(w.stopping) <= 4
  }

  /**
   What becomes of a listener that was just bound, on every run: until Stop takes its last look the engine has it
   and it stays open; from then on it is refused, and closed by whoever bound it.
   */
  lemma ListenerIsTakenOrRefused(acts: seq<Action>, l: nat)
    requires l < |Exec(acts).binders|
    ensures var w, v := Exec(acts), Exec(acts + [AddListener(l)]);
            w.binders[l] == Holding ==>
              if HasLatched(w) then v == w.(binders := w.binders[l := Refused])
              else && v.binders == w.binders[l := HandedOver]
                   && v.listeners == w.listeners + {l} && l !in v.closedListeners
    ensures var w, v := Exec(acts), Exec(acts + [CloseRefused(l)]);
            w.binders[l] == Refused ==>
              HasLatched(w) && v.binders == w.binders[l := HandedOver] && v.closedListeners == w.closedListeners + {l}
  {
    RunKeeps(acts);
    RunClosesNoneEarly(acts);
    ExecLast(acts, AddListener(l));
    ExecLast(acts, CloseRefused(l));
  }

  /** Until Stop takes its last look, no listener is closed or refused, and the engine has those handed over. */
  ghost predicate NoneEarly(w: World) {
    !HasLatched(w) ==>
      && w.closedListeners == {}
      && (forall l :: 0 <= l < |w.binders| ==>
            w.binders[l] != Refused && (l in w.listeners <==> w.binders[l] == HandedOver))
      && (forall l :: l in w.listeners ==> l < |w.binders|)
  }

  lemma StepClosesNoneEarly(w: World, a: Action)
    requires Inv(w) && NoneEarly(w)
    ensures NoneEarly(Apply(w, a))
  {
  }

  lemma {:induction false} RunClosesNoneEarly(acts: seq<Action>)
    ensures NoneEarly(Exec(acts))
  {
    if acts != [] {
      RunClosesNoneEarly(acts[..|acts| - 1]);
      RunKeeps(acts[..|acts| - 1]);
      StepClosesNoneEarly(Exec(acts[..|acts| - 1]), acts[|acts| - 1]);
    }
  }

  /** A listener bound is with its binder; a session tracked is found by its id, open, and its watcher to start. */
  lemma Arrivals(acts: seq<Action>, sid: string)
    ensures Exec(acts + [Bind]) == Exec(acts).(binders := Exec(acts).binders + [Holding])
    ensures var w, v := Exec(acts), Exec(acts + [Track(sid)]);
            && v.sids == w.sids + [sid] && v.watchers == w.watchers + [NotStarted]
            && v.entries == w.entries[sid := |w.watchers|] && |w.watchers| !in v.closedSessions
  {
    ExecLast(acts, Bind);
    ExecLast(acts, Track(sid));
    RunKeeps(acts);
    RunTracks(acts);
  }

  // ---------- sessions ----------

  /** No two sessions tracked share this one's id. */
  ghost predicate Alone(w: World, s: nat)
    requires s < |w.sids|
  {
    forall j :: 0 <= j < |w.sids| && j != s ==> w.sids[j] != w.sids[s]
  }

  /** An entry is of a session that was tracked under its id and is still watched; no one closes what is not tracked. */
  ghost predicate Tracks(w: World) {
    && |w.sids| == |w.watchers|
    && (forall sid :: sid in w.entries ==>
          w.entries[sid] < |w.sids| && w.sids[w.entries[sid]] == sid && !w.watchers[w.entries[sid]].Gone?)
    && (forall s :: 0 <= s < |w.sids| && !w.watchers[s].Gone? && Alone(w, s) ==>
          w.sids[s] in w.entries && w.entries[w.sids[s]] == s)
    && (forall s :: s in w.closedSessions ==> s < |w.watchers|)
    && (w.stopping.ClosingSessions? ==> forall s :: s in w.stopping.left ==> s < |w.watchers|)
  }

  lemma TrackKeepsTracks(w: World, sid: string)
    requires Tracks(w)
    ensures Tracks(Apply(w, Track(sid)))
  {
    var v := Apply(w, Track(sid));
    forall s | 0 <= s < |v.sids| && !v.watchers[s].Gone? && Alone(v, s)
      ensures v.sids[s] in v.entries && v.entries[v.sids[s]] == s
    {
      if s < |w.sids| {
        assert v.sids[|w.sids|] != v.sids[s];
        forall j | 0 <= j < |w.sids| && j != s ensures w.sids[j] != w.sids[s] {
          assert v.sids[j] != v.sids[s];
        }
        assert Alone(w, s);
      }
    }
  }

  lemma OtherKeepsTracks(w: World, a: Action)
    requires Tracks(w) && !a.Track?
    ensures Tracks(Apply(w, a))
  {
    if a.DropEntry? {
      DropKeepsTracks(w, a.s);
    } else {
      var v := Apply(w, a);
      assert v.sids == w.sids && |v.watchers| == |w.watchers| && v.entries == w.entries;
      assert forall s :: 0 <= s < |v.watchers| ==> (v.watchers[s].Gone? <==> w.watchers[s].Gone?);
      assert forall s :: 0 <= s < |v.sids| ==> (Alone(v, s) <==> Alone(w, s));
      OthersCloseTracked(w, a);
    }
  }

  lemma DropKeepsTracks(w: World, s: nat)
    requires Tracks(w)
    ensures Tracks(Apply(w, DropEntry(s)))
  {
    var v := Apply(w, DropEntry(s));
    assert forall j :: 0 <= j < |v.sids| ==> (Alone(v, j) <==> Alone(w, j));
  }

  lemma OthersCloseTracked(w: World, a: Action)
    requires Tracks(w) && !a.Track?
    ensures forall s :: s in Apply(w, a).closedSessions ==> s < |w.watchers|
    ensures Apply(w, a).stopping.ClosingSessions? ==> forall s :: s in Apply(w, a).stopping.left ==> s < |w.watchers|
  {
  }

  lemma {:induction false} RunTracks(acts: seq<Action>)
    ensures Tracks(Exec(acts))
  {
    if acts != [] {
      RunTracks(acts[..|acts| - 1]);
      var w, a := Exec(acts[..|acts| - 1]), acts[|acts| - 1];
      if a.Track? {
        TrackKeepsTracks(w, a.sid);
      } else {
        OtherKeepsTracks(w, a);
      }
    }
  }

  /**
   On every run a session that shares its id with no other is found by it exactly while its watcher has not gone,
   and no entry outlives the session it is of.
   */
  lemma SessionIsFoundWhileWatched(acts: seq<Action>, s: nat)
    requires s < |Exec(acts).sids| && Alone(Exec(acts), s)
    ensures var w := Exec(acts);
            && s < |w.watchers|
            && (w.sids[s] in w.entries <==> w.watchers[s] != Gone)
            && (w.sids[s] in w.entries ==> w.entries[w.sids[s]] == s)
  {
    RunTracks(acts);
  }

  /** What Stop collected is closed by it or still to be. */
  ghost predicate Collected(w: World, s: nat) {
    s in w.closedSessions || (w.stopping.ClosingSessions? && s in w.stopping.left)
  }

  lemma {:induction false} CollectedStays(acts: seq<Action>, n: nat, s: nat)
    requires n <= |acts| && Collected(Exec(acts[..n]), s) && PhasesLeft(Exec(acts[..n]).stopping) <= 2
    ensures Collected(Exec(acts), s) && PhasesLeft(Exec(acts).stopping) <= 2
  {
    if n == |acts| {
      assert acts[..n] == acts;
    } else {
      var prior := acts[..|acts| - 1];
      assert prior[..n] == acts[..n];
      CollectedStays(prior, n, s);
      StepKeepsCollected(Exec(prior), acts[|acts| - 1], s);
    }
  }

  lemma StepKeepsCollected(w: World, a: Action, s: nat)
    requires Collected(w, s) && PhasesLeft(w.stopping) <= 2
    ensures Collected(Apply(w, a), s) && PhasesLeft(Apply(w, a).stopping) <= 2
  {
  }

  /**
   Whatever the watchers do meanwhile, every session that had an entry when Stop collected them is closed by the
   time it waits for the watchers.
   */
  lemma StopClosesWhatItFound(acts: seq<Action>, n: nat, sid: string)
    requires n < |acts| && acts[n] == CollectSessions && Exec(acts[..n]).stopping.Collecting?
    requires sid in Exec(acts[..n]).entries && PhasesLeft(Exec(acts).stopping) <= 1
    ensures Exec(acts[..n]).entries[sid] in Exec(acts).closedSessions
  {
    ExecNext(acts, n);
    CollectsFound(Exec(acts[..n]), sid);
    CollectedStays(acts, n + 1, Exec(acts[..n]).entries[sid]);
  }

  lemma ExecNext(acts: seq<Action>, n: nat)
    requires n < |acts|
    ensures Exec(acts[..n + 1]) == Apply(Exec(acts[..n]), acts[n])
  {
    assert acts[..n + 1][..n] == acts[..n];
  }

  lemma CollectsFound(w: World, sid: string)
    requires w.stopping.Collecting? && sid in w.entries
    ensures Collected(Apply(w, CollectSessions), w.entries[sid])
    ensures PhasesLeft(Apply(w, CollectSessions).stopping) == 2
  {
    assert w.entries[sid] in w.entries.Values;
  }

  lemma {:induction false} ClosedStays(acts: seq<Action>, n: nat, s: nat)
    requires n <= |acts| && s in Exec(acts[..n]).closedSessions
    ensures s in Exec(acts).closedSessions
  {
    if n == |acts| {
      assert acts[..n] == acts;
    } else {
      var prior := acts[..|acts| - 1];
      assert prior[..n] == acts[..n];
      ClosedStays(prior, n, s);
      StepKeepsClosed(Exec(prior), acts[|acts| - 1], s);
    }
  }

  lemma StepKeepsClosed(w: World, a: Action, s: nat)
    requires s in w.closedSessions
    ensures s in Apply(w, a).closedSessions
  {
  }

  /** On every run a session that ended is closed, and until the stop signal is out no other is. */
  lemma {:induction false} ClosedOnlyIfEnded(acts: seq<Action>, s: nat)
    requires s in Exec(acts).closedSessions
    ensures s < |Exec(acts).watchers|
    ensures !Exec(acts).stopping.Running? || exists n :: 0 <= n < |acts| && acts[n] == SessionEnds(s)
  {
    RunTracks(acts);
    if acts != [] {
      var prior, a := acts[..|acts| - 1], acts[|acts| - 1];
      if s in Exec(prior).closedSessions {
        ClosedOnlyIfEnded(prior, s);
        if n :| 0 <= n < |prior| && prior[n] == SessionEnds(s) {
          assert acts[n] == SessionEnds(s);
        }
      } else {
        assert a == SessionEnds(s) || !Exec(acts).stopping.Running?;
      }
    }
  }

  lemma EndedIsClosed(acts: seq<Action>, n: nat, s: nat)
    requires n < |acts| && acts[n] == SessionEnds(s) && s < |Exec(acts[..n]).watchers|
    ensures s in Exec(acts).closedSessions
  {
    ExecNext(acts, n);
    ClosedStays(acts, n + 1, s);
  }

  // ---------- what Stop promises ----------

  /** Stop and every binder have finished. */
  ghost predicate BindersDone(w: World) {
    forall l :: 0 <= l < |w.binders| ==> w.binders[l].HandedOver?
  }

  /** Every listener ever bound, before, during or after Stop, is closed once all have finished. */
  lemma NoListenerOutlivesStop(acts: seq<Action>, l: nat)
    requires var w := Exec(acts); w.stopping.Done? && BindersDone(w) && l < |w.binders|
    ensures l in Exec(acts).closedListeners
  {
    RunKeeps(acts);
    assert ListenerOk(Exec(acts), l);
  }

  /** A session whose watcher has gone is closed, whoever won the race to its map entry, and whatever shared its id. */
  lemma NoSessionOutlivesItsWatcher(acts: seq<Action>, s: nat)
    requires var w := Exec(acts); s < |w.watchers| && w.watchers[s].Gone?
    ensures s in Exec(acts).closedSessions
  {
    RunKeeps(acts);
  }

  /** The steps a watcher has still to take. */
  function Left(w: Watcher): nat {
    match w
    case NotStarted => 3
    case Watching => 2
    case Dropping => 1
    case Gone => 0
  }

  function Work(watchers: seq<Watcher>): nat {
    if watchers == [] then 0 else Work(watchers[..|watchers| - 1]) + Left(watchers[|watchers| - 1])
  }

  /** A step a watcher takes. */
  predicate IsMove(w: World, a: Action) {
    (a.StartWatcher? || a.SeeClosed? || a.SeeStop? || a.DropEntry?) && Enabled(w, a)
  }

  function Moves(acts: seq<Action>): nat {
    if acts == [] then 0
    else
      var prior := acts[..|acts| - 1];
      Moves(prior) + if IsMove(Exec(prior), acts[|acts| - 1]) then 1 else 0
  }

  lemma {:induction false} WorkOfUpdate(watchers: seq<Watcher>, s: nat, next: Watcher)
    requires s < |watchers|
    ensures Work(watchers[s := next]) == Work(watchers) - Left(watchers[s]) + Left(next)
  {
    var n := |watchers| - 1;
    if s == n {
      assert watchers[s := next][..n] == watchers[..n];
    } else {
      WorkOfUpdate(watchers[..n], s, next);
      assert watchers[s := next][..n] == watchers[..n][s := next];
    }
  }

  lemma WorkOfOneMore(watchers: seq<Watcher>)
    ensures Work(watchers + [NotStarted]) == Work(watchers) + 3
  {
    assert (watchers + [NotStarted])[..|watchers|] == watchers;
  }

  lemma OneMove(w: World, a: Action)
    ensures Work(Apply(w, a).watchers) - 3 * |Apply(w, a).watchers|
         == Work(w.watchers) - 3 * |w.watchers| - if IsMove(w, a) then 1 else 0
  {
    if Enabled(w, a) {
      match a
      case StartWatcher(s) => WorkOfUpdate(w.watchers, s, Watching);
      case SeeClosed(s) => WorkOfUpdate(w.watchers, s, Dropping);
      case SeeStop(s) => WorkOfUpdate(w.watchers, s, Dropping);
      case DropEntry(s) => WorkOfUpdate(w.watchers, s, Gone);
      case Track(_) => WorkOfOneMore(w.watchers);
      case _ =>
    }
  }

  /** Every tracked session costs its watcher three moves, no more, however the steps interleave. */
  lemma {:induction false} MovesAreWork(acts: seq<Action>)
    ensures Moves(acts) + Work(Exec(acts).watchers) == 3 * |Exec(acts).watchers|
  {
    if acts != [] {
      var prior := acts[..|acts| - 1];
      MovesAreWork(prior);
      OneMove(Exec(prior), acts[|acts| - 1]);
    }
  }

  lemma {:induction false} SomeoneHasWork(watchers: seq<Watcher>) returns (s: nat)
    requires Work(watchers) > 0
    ensures s < |watchers| && !watchers[s].Gone?
  {
    var n := |watchers| - 1;
    if Left(watchers[n]) > 0 {
      s := n;
    } else {
      s := SomeoneHasWork(watchers[..n]);
    }
  }

  /** The next move of a watcher, once the stop signal is out. */
  function NextMove(w: World, s: nat): Action
    requires s < |w.watchers|
  {
    match w.watchers[s]
    case NotStarted => StartWatcher(s)
    case Watching => SeeStop(s)
    case _ => DropEntry(s)
  }

  /**
   The watchers drain: over every run they make at most three moves a session; while any is owed after the
   stop signal one can be made; and when none is owed, every session ever tracked is closed.
   */
  lemma WatchersDrain(acts: seq<Action>)
    ensures Moves(acts) <= 3 * |Exec(acts).watchers|
    ensures Moves(acts) < 3 * |Exec(acts).watchers| && Exec(acts).StopSignalled() ==> exists a :: IsMove(Exec(acts), a)
    ensures Moves(acts) == 3 * |Exec(acts).watchers| ==>
              forall s :: 0 <= s < |Exec(acts).watchers| ==> s in Exec(acts).closedSessions
  {
    RunKeeps(acts);
    MovesAreWork(acts);
    var w := Exec(acts);
    if Work(w.watchers) > 0 {
      var s := SomeoneHasWork(w.watchers);
      if w.StopSignalled() {
        assert IsMove(w, NextMove(w, s));
      }
    } else {
      forall s | 0 <= s < |w.watchers|
        ensures s in w.closedSessions
      {
        NoWorkNoWatcher(w.watchers, s);
      }
    }
  }

  lemma {:induction false} NoWorkNoWatcher(watchers: seq<Watcher>, s: nat)
    requires Work(watchers) == 0 && s < |watchers|
    ensures watchers[s].Gone?
  {
    var n := |watchers| - 1;
    if s < n {
      NoWorkNoWatcher(watchers[..n], s);
    }
  }

  /**
   Stop's wait returns exactly when no watcher that started is still running; by then every session whose watcher
   had started is closed, and every listener handed over.
   */
  lemma StopLeavesNothing(acts: seq<Action>)
    requires Exec(acts).stopping.Joining?
    ensures var w, v := Exec(acts), Exec(acts + [Join]);
            && (v.stopping.Done? <==>
                  forall s :: 0 <= s < |w.watchers| ==> w.watchers[s] == NotStarted || w.watchers[s] == Gone)
            && (v.stopping.Done? ==>
                  && (forall s :: 0 <= s < |v.watchers| && v.watchers[s] != NotStarted ==> s in v.closedSessions)
                  && (forall l :: 0 <= l < |v.binders| && v.binders[l] == HandedOver ==> l in v.closedListeners))
  {
    RunKeeps(acts);
    ExecLast(acts, Join);
    var w := Exec(acts);
    if s :| 0 <= s < |w.watchers| && w.watchers[s] != NotStarted && w.watchers[s] != Gone {
      assert w.watchers[s].Counted();
    }
    forall l | 0 <= l < |w.binders| && w.binders[l].HandedOver?
      ensures l in w.closedListeners
    {
      assert ListenerOk(w, l);
    }
  }
}
