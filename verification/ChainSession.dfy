/**
 Dialing over a chained session and rebuilding its chain when a hop fails, by any number of
 concurrent streams (core/relaychain.go, dialChainedStream, recoveryFor, swapPlan).

 A step is one critical section or blocking call of one stream, or a reload of the directory.
 Plans are referred to by index, as the source compares plans by identity: a plan is never edited, and
 a swap replaces one only if it is still the one the stream dialed over.
 */
module ChainSession {
  import opened HopSelection
  import opened ChainPlan
  import opened ChainFault

  const CHAIN_REBUILD_MAX := 2

  /** How one telescoping dial ended. hop counts from 1; one past the last hop is the exit. */
  datatype Outcome = Up | NotChain | Failed(hop: nat, fault: Fault)

  datatype Recovery = GiveUp | Rebuild | Repath

  function RecoveryFor(o: Outcome): Recovery {
    if !o.Failed? || o.fault == HopRejected then GiveUp
    else if o.hop == 1 then Repath
    else Rebuild
  }

  /** The node to hold responsible: the hop named, or the exit one past the last hop. */
  function Suspect(p: Plan, o: Outcome): string {
    if !o.Failed? then ""
    else if 1 <= o.hop <= |p.hops| then p.hops[o.hop - 1].id
    else p.exitId
  }

  datatype Pc =
    | Loading                 // top of the loop, about to read the session's plan
    | Dialing(plan: nat)
    | Judging(plan: nat)      // the dial failed; cool the suspect, then decide
    | Rebuilding(plan: nat)
    | Swapping(plan: nat, built: nat)
    | Done

  /** One stream's dial: its attempt counter, how its last attempt ended, and the plans it has read in turn. */
  datatype Stream = Stream(pc: Pc, attempt: nat, last: Outcome, tried: seq<nat>)

  datatype State = State(
    dirs: seq<Directory>,       // every directory generation loaded so far; the last one is current
    plans: seq<Plan>,           // every plan built so far
    installed: seq<nat>,        // the plans the session has carried, in order; the last one is current
    closed: bool,
    cooled: set<string>,
    streams: map<nat, Stream>)

  ghost predicate Init(s: State, canon: Canonical, n: int, country: string) {
    && n >= 2
    && |s.dirs| == 1 && Loaded(s.dirs[0])
    && |s.plans| == 1 && GoodPlan(s.plans[0], s.dirs[0], n, country, "", canon)
    && s.installed == [0]
    && !s.closed
    && s.streams == map[]
  }

  function Current(s: State): nat
    requires s.installed != []
  {
    s.installed[|s.installed| - 1]
  }

  /** Everything but the one stream's record, and whatever the step names, stays as it was. */
  ghost predicate Begin(s: State, t: State, k: nat) {
    k !in s.streams && t == s.(streams := s.streams[k := Stream(Loading, 0, NotChain, [])])
  }

  ghost predicate Load(s: State, t: State, k: nat) {
    && k in s.streams && s.streams[k].pc == Loading && s.installed != []
    && t == s.(streams := s.streams[k := s.streams[k].(pc := Dialing(Current(s)),
                                                           tried := s.streams[k].tried + [Current(s)])])
  }

  /** The stream would not open: an error from above the telescope. */
  ghost predicate OpenFails(s: State, t: State, k: nat) {
    && k in s.streams && s.streams[k].pc.Dialing?
    && t == s.(streams := s.streams[k := s.streams[k].(pc := Done, last := NotChain)])
  }

  ghost predicate Dial(s: State, t: State, k: nat, o: Outcome) {
    && k in s.streams && s.streams[k].pc.Dialing? && s.streams[k].pc.plan < |s.plans|
    && (o.Failed? ==> 1 <= o.hop <= |s.plans[s.streams[k].pc.plan].hops| + 1)
    && var me := s.streams[k];
       t == s.(streams := s.streams[k := me.(pc := if o == Up then Done else Judging(me.pc.plan), last := o)])
  }

  /** Where a stream goes once its failure is judged. */
  function Verdict(me: Stream): Pc
    requires me.pc.Judging?
  {
    if RecoveryFor(me.last) == Rebuild && me.attempt < CHAIN_REBUILD_MAX then Rebuilding(me.pc.plan) else Done
  }

  ghost predicate Judge(s: State, t: State, k: nat) {
    && k in s.streams && s.streams[k].pc.Judging? && s.streams[k].pc.plan < |s.plans|
    && var me := s.streams[k];
       var suspect := Suspect(s.plans[me.pc.plan], me.last);
       t == s.(cooled := if suspect != "" then s.cooled + {suspect} else s.cooled,
               closed := s.closed || RecoveryFor(me.last) == Repath,
               streams := s.streams[k := me.(pc := Verdict(me))])
  }

  ghost predicate RebuildFails(s: State, t: State, k: nat) {
    && k in s.streams && s.streams[k].pc.Rebuilding?
    && t == s.(streams := s.streams[k := s.streams[k].(pc := Done)])
  }

  /** A fresh plan is whatever RebuildChain may return over the directory and the cooling marks current at this step. */
  ghost predicate RebuildWorks(s: State, t: State, k: nat, built: Plan, canon: Canonical) {
    && k in s.streams && s.streams[k].pc.Rebuilding? && s.streams[k].pc.plan < |s.plans| && s.dirs != []
    && var me := s.streams[k];
       var prev := s.plans[me.pc.plan];
       && prev.hops != []
       && GoodPlan(built, s.dirs[|s.dirs| - 1], |prev.hops| + 1, prev.country, prev.hops[0].id, canon)
       && AvoidsCooling(built, s.dirs[|s.dirs| - 1], |prev.hops| + 1, prev.country, prev.hops[0].id, canon, s.cooled)
       && t == s.(plans := s.plans + [built],
                  streams := s.streams[k := me.(pc := Swapping(me.pc.plan, |s.plans|))])
  }

  ghost predicate Swap(s: State, t: State, k: nat) {
    && k in s.streams && s.streams[k].pc.Swapping? && s.installed != []
    && var me := s.streams[k];
       t == s.(installed := if Current(s) == me.pc.plan then s.installed + [me.pc.built] else s.installed,
               streams := s.streams[k := me.(pc := Loading, attempt := me.attempt + 1)])
  }

  /** A reload stores a directory only after it verified and loaded. */
  ghost predicate Reload(s: State, t: State, d: Directory) {
    Loaded(d) && t == s.(dirs := s.dirs + [d])
  }

  /** Cooling marks expire, and other sessions of this client set them too. */
  ghost predicate CoolingMoves(s: State, t: State, cooled: set<string>) {
    t == s.(cooled := cooled)
  }

  ghost predicate StreamStep(s: State, t: State, k: nat, canon: Canonical) {
    || Begin(s, t, k)
    || Load(s, t, k)
    || OpenFails(s, t, k)
    || (exists o :: Dial(s, t, k, o))
    || Judge(s, t, k)
    || RebuildFails(s, t, k)
    || (exists built :: RebuildWorks(s, t, k, built, canon))
    || Swap(s, t, k)
  }

  ghost predicate Next(s: State, t: State, canon: Canonical) {
    || (exists k :: StreamStep(s, t, k, canon))
    || (exists d :: Reload(s, t, d))
    || (exists cooled :: CoolingMoves(s, t, cooled))
  }

  ghost predicate StepAt(states: seq<State>, i: nat, canon: Canonical) {
    i + 1 < |states| && Next(states[i], states[i + 1], canon)
  }

  ghost predicate Run(states: seq<State>, canon: Canonical, n: int, country: string) {
    && states != []
    && Init(states[0], canon, n, country)
    && forall i: nat :: i + 1 < |states| ==> StepAt(states, i, canon)
  }

  // ---------- what every step keeps ----------

  /** The plan ends at an exit some loaded generation listed as fit for this country. */
  ghost predicate EndsWell(p: Plan, dirs: seq<Directory>, country: string, canon: Canonical) {
    exists g, exit :: 0 <= g < |dirs| && UsableExit(dirs[g], exit, country, canon) && exit.id == p.exitId
  }

  ghost predicate NoDowngrade(p: Plan, s: State, n: int, country: string, canon: Canonical)
    requires s.plans != [] && s.plans[0].hops != []
  {
    && |p.hops| == n - 1 >= 1
    && p.country == country
    && p.hops[0].id == s.plans[0].hops[0].id != ""
    && DistinctIds(p.hops)
    && p.exitId !in Ids(p.hops)
    && p.exitId != "" && (forall h :: h in p.hops ==> h.id != "")
    && EndsWell(p, s.dirs, country, canon)
  }

  /**
   A stream has tried only plans the session carried, each once; the one the session carries now is among them
   only while the stream is at it.
   */
  ghost predicate TriedOk(me: Stream, s: State)
    requires s.installed != []
  {
    && (forall x :: x in me.tried ==> x in s.installed)
    && (forall x, y :: 0 <= x < y < |me.tried| ==> me.tried[x] != me.tried[y])
    && (me.pc.Dialing? ==> me.tried != [] && me.tried[|me.tried| - 1] == me.pc.plan)
    && (Current(s) in me.tried && !me.pc.Done? ==> !me.pc.Loading? && me.pc.plan == Current(s))
  }

  /** A stream never holds a plan that does not exist, and what it carries matches where it stands. */
  ghost predicate StreamOk(me: Stream, s: State) {
    && me.attempt <= CHAIN_REBUILD_MAX
    && (me.pc.Dialing? || me.pc.Judging? || me.pc.Rebuilding? || me.pc.Swapping? ==> me.pc.plan in s.installed)
    && (me.pc.Judging? || me.pc.Rebuilding? || me.pc.Swapping? ==>
          me.pc.plan < |s.plans| && (me.last.Failed? ==> 1 <= me.last.hop <= |s.plans[me.pc.plan].hops| + 1))
    && (me.pc.Rebuilding? || me.pc.Swapping? ==>
          me.attempt < CHAIN_REBUILD_MAX && RecoveryFor(me.last) == Rebuild)
    && (me.pc.Swapping? ==> me.pc.built < |s.plans| && me.pc.built !in s.installed)
    && (me.pc == Done && RecoveryFor(me.last) == Repath ==> s.closed)
  }

  /** Two streams never hold the same unswapped plan: each build makes its own. */
  ghost predicate BuildsApart(s: State) {
    forall j, k :: && j in s.streams && k in s.streams && j != k
                   && s.streams[j].pc.Swapping? && s.streams[k].pc.Swapping? ==>
                     s.streams[j].pc.built != s.streams[k].pc.built
  }

  ghost predicate PlansOk(s: State, canon: Canonical, n: int, country: string) {
    && s.dirs != [] && (forall g :: 0 <= g < |s.dirs| ==> Loaded(s.dirs[g]))
    && s.plans != [] && s.plans[0].hops != []
    && (forall i :: 0 <= i < |s.plans| ==> NoDowngrade(s.plans[i], s, n, country, canon))
  }

  ghost predicate InstalledOk(s: State) {
    && s.installed != [] && s.installed[0] == 0
    && (forall i :: 0 <= i < |s.installed| ==> s.installed[i] < |s.plans|)
    && (forall i, j :: 0 <= i < j < |s.installed| ==> s.installed[i] != s.installed[j])
  }

  ghost predicate StreamsOk(s: State) {
    && (forall k :: k in s.streams ==> StreamOk(s.streams[k], s))
    && BuildsApart(s)
  }

  ghost predicate TriesOk(s: State) {
    s.installed != [] && forall k :: k in s.streams ==> TriedOk(s.streams[k], s)
  }

  ghost predicate Inv(s: State, canon: Canonical, n: int, country: string) {
    n >= 2 && PlansOk(s, canon, n, country) && InstalledOk(s) && StreamsOk(s)
  }

  lemma LoadKeepsTries(s: State, t: State, k: nat)
    requires TriesOk(s) && Load(s, t, k)
    ensures TriesOk(t)
  {
    assert TriedOk(s.streams[k], s);
    var was, tried := s.streams[k].tried, t.streams[k].tried;
    assert tried == was + [Current(s)];
    assert TriedOk(t.streams[k], t);
    forall j | j in t.streams && j != k ensures TriedOk(t.streams[j], t) {
      assert TriedOk(s.streams[j], s);
    }
  }

  lemma SwapKeepsTries(s: State, t: State, k: nat)
    requires TriesOk(s) && StreamsOk(s) && Swap(s, t, k)
    ensures TriesOk(t)
  {
    assert StreamOk(s.streams[k], s);
    forall j | j in t.streams ensures TriedOk(t.streams[j], t) {
      assert TriedOk(s.streams[j], s);
    }
  }

  /** Any other step of a stream leaves the plan it is at, if it is still at one, and its record of plans alone. */
  lemma OtherStepStays(s: State, t: State, k: nat, canon: Canonical)
    requires StreamStep(s, t, k, canon) && !Load(s, t, k) && !Swap(s, t, k)
    ensures t.installed == s.installed && k in t.streams && t.streams == s.streams[k := t.streams[k]]
    ensures k !in s.streams ==> t.streams[k].tried == []
    ensures k !in s.streams ==> t.streams[k].pc.Loading?
    ensures k in s.streams ==> t.streams[k].tried == s.streams[k].tried && !s.streams[k].pc.Loading?
                               && !s.streams[k].pc.Done? && Onward(s.streams[k].pc, t.streams[k].pc)
  {
  }

  ghost predicate Onward(a: Pc, b: Pc)
    requires !a.Loading? && !a.Done?
  {
    b.Done? || (!b.Loading? && !b.Dialing? && b.plan == a.plan)
  }

  lemma OtherStepKeepsTries(s: State, t: State, k: nat, canon: Canonical)
    requires TriesOk(s) && StreamStep(s, t, k, canon) && !Load(s, t, k) && !Swap(s, t, k)
    ensures TriesOk(t)
  {
    OtherStepStays(s, t, k, canon);
    StaysKeepsTries(s, t, k);
  }

  lemma StaysKeepsTries(s: State, t: State, k: nat)
    requires TriesOk(s) && t.installed == s.installed && k in t.streams && t.streams == s.streams[k := t.streams[k]]
    requires k !in s.streams ==> t.streams[k].tried == [] && t.streams[k].pc.Loading?
    requires k in s.streams ==> t.streams[k].tried == s.streams[k].tried && !s.streams[k].pc.Loading?
                                && !s.streams[k].pc.Done? && Onward(s.streams[k].pc, t.streams[k].pc)
    ensures TriesOk(t)
  {
    forall j | j in t.streams && j != k ensures TriedOk(t.streams[j], t) {
      assert TriedOk(s.streams[j], s);
    }
    if k in s.streams {
      assert TriedOk(s.streams[k], s);
    }
  }

  lemma StepKeepsTries(s: State, t: State, canon: Canonical)
    requires TriesOk(s) && StreamsOk(s) && Next(s, t, canon)
    ensures TriesOk(t)
  {
    if k :| StreamStep(s, t, k, canon) {
      if Load(s, t, k) {
        LoadKeepsTries(s, t, k);
      } else if Swap(s, t, k) {
        SwapKeepsTries(s, t, k);
      } else {
        OtherStepKeepsTries(s, t, k, canon);
      }
    } else {
      forall j | j in t.streams ensures TriedOk(t.streams[j], t) {
        assert TriedOk(s.streams[j], s);
      }
    }
  }

  lemma GoodPlanIsNoDowngrade(p: Plan, s: State, n: int, country: string, pin: string, canon: Canonical, g: nat)
    requires s.plans != [] && s.plans[0].hops != [] && n >= 2
    requires g < |s.dirs| && Loaded(s.dirs[g])
    requires GoodPlan(p, s.dirs[g], n, country, pin, canon)
    requires p == s.plans[0] || (pin == s.plans[0].hops[0].id != "")
    ensures NoDowngrade(p, s, n, country, canon)
  {
    assert p.hops[0] in s.dirs[g].hops;
  }

  lemma InitEstablishesInv(s: State, canon: Canonical, n: int, country: string)
    requires Init(s, canon, n, country)
    ensures Inv(s, canon, n, country)
  {
    GoodPlanIsNoDowngrade(s.plans[0], s, n, country, "", canon, 0);
  }

  /** A longer history of directories and plans, same first plan: nothing already proved is lost. */
  lemma NoDowngradeGrows(p: Plan, s: State, t: State, n: int, country: string, canon: Canonical)
    requires s.plans != [] && s.plans[0].hops != [] && NoDowngrade(p, s, n, country, canon)
    requires s.dirs <= t.dirs && t.plans != [] && t.plans[0] == s.plans[0]
    ensures NoDowngrade(p, t, n, country, canon)
  {
    var g, exit :| 0 <= g < |s.dirs| && UsableExit(s.dirs[g], exit, country, canon) && exit.id == p.exitId;
    assert UsableExit(t.dirs[g], exit, country, canon);
  }

  lemma PlansStay(s: State, t: State, canon: Canonical, n: int, country: string)
    requires PlansOk(s, canon, n, country) && t.plans == s.plans && s.dirs <= t.dirs
    requires forall g :: 0 <= g < |t.dirs| ==> Loaded(t.dirs[g])
    ensures PlansOk(t, canon, n, country)
  {
    forall i | 0 <= i < |t.plans|
      ensures NoDowngrade(t.plans[i], t, n, country, canon)
    {
      NoDowngradeGrows(s.plans[i], s, t, n, country, canon);
    }
  }

  lemma SwapKeepsInstalled(s: State, t: State, k: nat)
    requires InstalledOk(s) && StreamsOk(s) && Swap(s, t, k)
    ensures InstalledOk(t)
  {
    assert StreamOk(s.streams[k], s);
  }

  lemma SwapKeepsStreams(s: State, t: State, k: nat)
    requires InstalledOk(s) && StreamsOk(s) && Swap(s, t, k)
    ensures StreamsOk(t)
  {
    forall j | j in t.streams
      ensures StreamOk(t.streams[j], t)
    {
      assert StreamOk(s.streams[j], s);
    }
  }

  lemma SwapKeepsInv(s: State, t: State, k: nat, canon: Canonical, n: int, country: string)
    requires Inv(s, canon, n, country) && Swap(s, t, k)
    ensures Inv(t, canon, n, country)
  {
    PlansStay(s, t, canon, n, country);
    SwapKeepsInstalled(s, t, k);
    SwapKeepsStreams(s, t, k);
  }

  lemma RebuildKeepsPlans(s: State, t: State, k: nat, built: Plan, canon: Canonical, n: int, country: string)
    requires Inv(s, canon, n, country) && RebuildWorks(s, t, k, built, canon)
    ensures PlansOk(t, canon, n, country)
  {
    var prev := s.plans[s.streams[k].pc.plan];
    assert NoDowngrade(prev, s, n, country, canon);
    GoodPlanIsNoDowngrade(built, t, n, country, prev.hops[0].id, canon, |s.dirs| - 1);
    forall i | 0 <= i < |s.plans|
      ensures NoDowngrade(s.plans[i], t, n, country, canon)
    {
      NoDowngradeGrows(s.plans[i], s, t, n, country, canon);
    }
  }

  lemma RebuildKeepsStreams(s: State, t: State, k: nat, built: Plan, canon: Canonical)
    requires InstalledOk(s) && StreamsOk(s) && RebuildWorks(s, t, k, built, canon)
    ensures InstalledOk(t) && StreamsOk(t)
  {
    forall j | j in t.streams
      ensures StreamOk(t.streams[j], t)
    {
      assert StreamOk(s.streams[j], s);
    }
    forall j | j in t.streams && j != k && t.streams[j].pc.Swapping?
      ensures t.streams[j].pc.built < |s.plans|
    {
      assert StreamOk(s.streams[j], s);
    }
  }

  lemma RebuildKeepsInv(s: State, t: State, k: nat, built: Plan, canon: Canonical, n: int, country: string)
    requires Inv(s, canon, n, country) && RebuildWorks(s, t, k, built, canon)
    ensures Inv(t, canon, n, country)
  {
    RebuildKeepsPlans(s, t, k, built, canon, n, country);
    RebuildKeepsStreams(s, t, k, built, canon);
  }

  /** A step that only moves one stream on, and may cool a node or close the session. */
  lemma MoveKeepsInv(s: State, t: State, k: nat, me: Stream, canon: Canonical, n: int, country: string)
    requires Inv(s, canon, n, country)
    requires t == s.(cooled := t.cooled, closed := t.closed, streams := s.streams[k := me])
    requires s.closed ==> t.closed
    requires StreamOk(me, t) && !me.pc.Swapping?
    ensures Inv(t, canon, n, country)
  {
    PlansStay(s, t, canon, n, country);
    forall j | j in t.streams
      ensures StreamOk(t.streams[j], t)
    {
      if j != k {
        assert StreamOk(s.streams[j], s);
      }
    }
  }

  /** What one stream does on its own leaves it in order. */
  lemma LocalStepIsOk(s: State, t: State, k: nat)
    requires InstalledOk(s) && StreamsOk(s)
    requires Begin(s, t, k) || Load(s, t, k) || OpenFails(s, t, k) || (exists o :: Dial(s, t, k, o))
             || Judge(s, t, k) || RebuildFails(s, t, k)
    ensures k in t.streams && StreamOk(t.streams[k], t) && !t.streams[k].pc.Swapping?
  {
    assert k in s.streams ==> StreamOk(s.streams[k], s);
  }

  lemma LocalStepKeepsInv(s: State, t: State, k: nat, canon: Canonical, n: int, country: string)
    requires Inv(s, canon, n, country)
    requires Begin(s, t, k) || Load(s, t, k) || OpenFails(s, t, k) || (exists o :: Dial(s, t, k, o))
             || Judge(s, t, k) || RebuildFails(s, t, k)
    ensures Inv(t, canon, n, country)
  {
    LocalStepIsOk(s, t, k);
    MoveKeepsInv(s, t, k, t.streams[k], canon, n, country);
  }

  lemma WorldStepKeepsInv(s: State, t: State, canon: Canonical, n: int, country: string)
    requires Inv(s, canon, n, country)
    requires (exists d :: Reload(s, t, d)) || (exists cooled :: CoolingMoves(s, t, cooled))
    ensures Inv(t, canon, n, country)
  {
    PlansStay(s, t, canon, n, country);
    forall j | j in t.streams
      ensures StreamOk(t.streams[j], t)
    {
      assert StreamOk(s.streams[j], s);
    }
  }

  lemma StepKeepsInv(s: State, t: State, canon: Canonical, n: int, country: string)
    requires Inv(s, canon, n, country) && Next(s, t, canon)
    ensures Inv(t, canon, n, country)
  {
    if k :| StreamStep(s, t, k, canon) {
      if Swap(s, t, k) {
        SwapKeepsInv(s, t, k, canon, n, country);
      } else if built :| RebuildWorks(s, t, k, built, canon) {
        RebuildKeepsInv(s, t, k, built, canon, n, country);
      } else {
        LocalStepKeepsInv(s, t, k, canon, n, country);
      }
    } else {
      WorldStepKeepsInv(s, t, canon, n, country);
    }
  }

  lemma {:induction false} RunKeepsInv(states: seq<State>, canon: Canonical, n: int, country: string, i: nat)
    requires Run(states, canon, n, country) && i < |states|
    ensures Inv(states[i], canon, n, country)
  {
    if i == 0 {
      InitEstablishesInv(states[0], canon, n, country);
    } else {
      RunKeepsInv(states, canon, n, country, i - 1);
      assert StepAt(states, i - 1, canon);
      StepKeepsInv(states[i - 1], states[i], canon, n, country);
    }
  }

  lemma {:induction false} RunKeepsTries(states: seq<State>, canon: Canonical, n: int, country: string, i: nat)
    requires Run(states, canon, n, country) && i < |states|
    ensures TriesOk(states[i])
  {
    if i > 0 {
      RunKeepsTries(states, canon, n, country, i - 1);
      RunKeepsInv(states, canon, n, country, i - 1);
      assert StepAt(states, i - 1, canon);
      StepKeepsTries(states[i - 1], states[i], canon);
    }
  }

  // ---------- over whole runs ----------

  /** Plans, directories and the session's history only grow, and a closed session stays closed. */
  ghost predicate Grew(s: State, t: State) {
    s.plans <= t.plans && s.dirs <= t.dirs && s.installed <= t.installed && (s.closed ==> t.closed)
  }

  lemma GrewOn(s: State, t: State, u: State)
    requires Grew(s, t) && Grew(t, u)
    ensures Grew(s, u)
  {
  }

  lemma StepGrows(s: State, t: State, canon: Canonical)
    requires Next(s, t, canon)
    ensures Grew(s, t)
  {
  }

  ghost predicate GrewAt(states: seq<State>, i: nat) {
    i + 1 < |states| && Grew(states[i], states[i + 1])
  }

  ghost predicate Growing(states: seq<State>) {
    forall i: nat :: i + 1 < |states| ==> GrewAt(states, i)
  }

  lemma RunIsGrowing(states: seq<State>, canon: Canonical, n: int, country: string)
    requires Run(states, canon, n, country)
    ensures Growing(states)
  {
    forall i: nat | i + 1 < |states|
      ensures GrewAt(states, i)
    {
      assert StepAt(states, i, canon);
      StepGrows(states[i], states[i + 1], canon);
    }
  }

  lemma {:induction false} RunGrows(states: seq<State>, i: nat, j: nat)
    requires Growing(states) && i <= j < |states|
    ensures Grew(states[i], states[j])
  {
    if i < j {
      RunGrows(states, i, j - 1);
      assert GrewAt(states, j - 1);
      GrewOn(states[i], states[j - 1], states[j]);
    }
  }

  /**
   No silent downgrade: at every point of every run, every plan the session has ever carried has the
   hop count asked for, the head and country of the first plan, pairwise distinct hops, and ends at a
   usable exit in that country which is not one of its hops.
   */
  lemma NoSilentDowngrade(states: seq<State>, canon: Canonical, n: int, country: string, i: nat, k: nat)
    requires Run(states, canon, n, country) && i < |states| && k < |states[i].installed|
    ensures states[i].installed[k] < |states[i].plans|
    ensures states[0].plans[0].hops != []
    ensures var p := states[i].plans[states[i].installed[k]];
            && |p.hops| == n - 1
            && p.country == country
            && p.hops[0].id == states[0].plans[0].hops[0].id
            && DistinctIds(p.hops)
            && p.exitId !in Ids(p.hops)
            && EndsWell(p, states[i].dirs, country, canon)
  {
    RunKeepsInv(states, canon, n, country, 0);
    RunKeepsInv(states, canon, n, country, i);
    RunIsGrowing(states, canon, n, country);
    RunGrows(states, 0, i);
    assert states[0].plans[0] == states[i].plans[0];
  }

  /** How many times a stream may still telescope, at most; a stream not begun has all of them. */
  function DialsLeft(s: State, k: nat): int {
    if k !in s.streams then CHAIN_REBUILD_MAX + 1
    else
      var me := s.streams[k];
      match me.pc
      case Loading => CHAIN_REBUILD_MAX + 1 - me.attempt
      case Dialing(_) => CHAIN_REBUILD_MAX + 1 - me.attempt
      case Done => 0
      case _ => CHAIN_REBUILD_MAX - me.attempt
  }

  /** How many chains it may still build. */
  function BuildsLeft(s: State, k: nat): int {
    if k !in s.streams then CHAIN_REBUILD_MAX
    else
      var me := s.streams[k];
      match me.pc
      case Swapping(_, _) => CHAIN_REBUILD_MAX - me.attempt - 1
      case Done => 0
      case _ => CHAIN_REBUILD_MAX - me.attempt
  }

  /** How many steps of any kind a stream has before it. */
  function StepsLeft(me: Stream): int {
    var round := 6 * (CHAIN_REBUILD_MAX - me.attempt);
    match me.pc
    case Loading => round + 5
    case Dialing(_) => round + 4
    case Judging(_) => round + 3
    case Rebuilding(_) => round + 2
    case Swapping(_, _) => round + 1
    case Done => 0
  }

  ghost predicate DialsNow(s: State, t: State, k: nat) {
    exists o :: Dial(s, t, k, o)
  }

  ghost predicate BuildsNow(s: State, t: State, k: nat, canon: Canonical) {
    exists built :: RebuildWorks(s, t, k, built, canon)
  }

  lemma OthersStay(s: State, t: State, k: nat, j: nat, canon: Canonical)
    requires StreamStep(s, t, j, canon) && j != k
    ensures k in s.streams <==> k in t.streams
    ensures k in s.streams ==> t.streams[k] == s.streams[k]
  {
  }

  /** A step of its own leaves a stream with fewer steps, and with no more dials or builds, before it. */
  lemma OwnStepCounts(s: State, t: State, k: nat, canon: Canonical)
    requires StreamStep(s, t, k, canon) && (k in s.streams ==> StreamOk(s.streams[k], s))
    ensures k in t.streams
    ensures k in s.streams ==> 0 <= StepsLeft(t.streams[k]) < StepsLeft(s.streams[k])
    ensures 0 <= DialsLeft(t, k) <= DialsLeft(s, k) && 0 <= BuildsLeft(t, k) <= BuildsLeft(s, k)
    ensures DialsNow(s, t, k) ==> DialsLeft(t, k) < DialsLeft(s, k)
    ensures BuildsNow(s, t, k, canon) ==> BuildsLeft(t, k) < BuildsLeft(s, k)
  {
    if built :| RebuildWorks(s, t, k, built, canon) {
      assert t.streams[k].pc.Swapping?;
    }
  }

  ghost predicate Lessens(s: State, t: State, k: nat) {
    DialsLeft(t, k) <= DialsLeft(s, k) && BuildsLeft(t, k) <= BuildsLeft(s, k)
  }

  lemma NoFewerLeft(s: State, t: State, k: nat, canon: Canonical, n: int, country: string)
    requires Inv(s, canon, n, country) && Next(s, t, canon)
    ensures Lessens(s, t, k)
  {
    if j :| StreamStep(s, t, j, canon) {
      if j == k {
        assert k in s.streams ==> StreamOk(s.streams[k], s);
        OwnStepCounts(s, t, k, canon);
      } else {
        OthersStay(s, t, k, j, canon);
      }
    }
  }

  ghost predicate LessensAt(states: seq<State>, i: nat, k: nat) {
    i + 1 < |states| && Lessens(states[i], states[i + 1], k)
  }

  ghost predicate Lessening(states: seq<State>, k: nat) {
    forall i: nat :: i + 1 < |states| ==> LessensAt(states, i, k)
  }

  lemma RunIsLessening(states: seq<State>, canon: Canonical, n: int, country: string, k: nat)
    requires Run(states, canon, n, country)
    ensures Lessening(states, k)
  {
    forall i: nat | i + 1 < |states|
      ensures LessensAt(states, i, k)
    {
      assert StepAt(states, i, canon);
      RunKeepsInv(states, canon, n, country, i);
      NoFewerLeft(states[i], states[i + 1], k, canon, n, country);
    }
  }

  lemma {:induction false} LeftRunsDown(states: seq<State>, k: nat, i: nat, j: nat)
    requires Lessening(states, k) && i <= j < |states|
    ensures Lessens(states[i], states[j], k)
    decreases j
  {
    if i < j {
      LeftRunsDown(states, k, i, j - 1);
      assert LessensAt(states, j - 1, k);
    }
  }

  ghost predicate Ascending(at: seq<nat>, m: nat) {
    && (forall i :: 0 <= i < |at| ==> at[i] < m)
    && (forall i, j :: 0 <= i < j < |at| ==> at[i] < at[j])
  }

  lemma OwnStep(states: seq<State>, canon: Canonical, n: int, country: string, i: nat, k: nat)
    requires Run(states, canon, n, country) && i + 1 < |states|
    requires DialsNow(states[i], states[i + 1], k) || BuildsNow(states[i], states[i + 1], k, canon)
    ensures DialsNow(states[i], states[i + 1], k) ==> UsesDial(states, i, k)
    ensures BuildsNow(states[i], states[i + 1], k, canon) ==> UsesBuild(states, i, k)
  {
    RunKeepsInv(states, canon, n, country, i);
    assert k in states[i].streams ==> StreamOk(states[i].streams[k], states[i]);
    assert StreamStep(states[i], states[i + 1], k, canon);
    OwnStepCounts(states[i], states[i + 1], k, canon);
  }

  ghost predicate UsesDial(states: seq<State>, i: nat, k: nat) {
    i + 1 < |states| && 0 <= DialsLeft(states[i + 1], k) < DialsLeft(states[i], k)
  }

  ghost predicate UsesBuild(states: seq<State>, i: nat, k: nat) {
    i + 1 < |states| && 0 <= BuildsLeft(states[i + 1], k) < BuildsLeft(states[i], k)
  }

  lemma {:induction false} DialsRunOut(states: seq<State>, k: nat, at: seq<nat>)
    requires states != [] && Lessening(states, k) && Ascending(at, |states| - 1)
    requires forall i :: 0 <= i < |at| ==> UsesDial(states, at[i], k)
    ensures at != [] ==> |at| + DialsLeft(states[at[|at| - 1] + 1], k) <= DialsLeft(states[0], k)
  {
    if at != [] {
      var last, prior := at[|at| - 1], at[..|at| - 1];
      assert UsesDial(states, last, k);
      if prior == [] {
        LeftRunsDown(states, k, 0, last);
      } else {
        DialsRunOut(states, k, prior);
        LeftRunsDown(states, k, prior[|prior| - 1] + 1, last);
      }
    }
  }

  lemma {:induction false} BuildsRunOut(states: seq<State>, k: nat, at: seq<nat>)
    requires states != [] && Lessening(states, k) && Ascending(at, |states| - 1)
    requires forall i :: 0 <= i < |at| ==> UsesBuild(states, at[i], k)
    ensures at != [] ==> |at| + BuildsLeft(states[at[|at| - 1] + 1], k) <= BuildsLeft(states[0], k)
  {
    if at != [] {
      var last, prior := at[|at| - 1], at[..|at| - 1];
      assert UsesBuild(states, last, k);
      if prior == [] {
        LeftRunsDown(states, k, 0, last);
      } else {
        BuildsRunOut(states, k, prior);
        LeftRunsDown(states, k, prior[|prior| - 1] + 1, last);
      }
    }
  }

  lemma EachUsesDial(states: seq<State>, canon: Canonical, n: int, country: string, k: nat, at: seq<nat>)
    requires Run(states, canon, n, country) && Ascending(at, |states| - 1)
    requires forall i :: 0 <= i < |at| ==> DialsNow(states[at[i]], states[at[i] + 1], k)
    ensures forall i :: 0 <= i < |at| ==> UsesDial(states, at[i], k)
  {
    forall i | 0 <= i < |at|
      ensures UsesDial(states, at[i], k)
    {
      OwnStep(states, canon, n, country, at[i], k);
    }
  }

  lemma EachUsesBuild(states: seq<State>, canon: Canonical, n: int, country: string, k: nat, at: seq<nat>)
    requires Run(states, canon, n, country) && Ascending(at, |states| - 1)
    requires forall i :: 0 <= i < |at| ==> BuildsNow(states[at[i]], states[at[i] + 1], k, canon)
    ensures forall i :: 0 <= i < |at| ==> UsesBuild(states, at[i], k)
  {
    forall i | 0 <= i < |at|
      ensures UsesBuild(states, at[i], k)
    {
      OwnStep(states, canon, n, country, at[i], k);
    }
  }

  /** Over every run, the steps at which one stream telescopes are at most CHAIN_REBUILD_MAX + 1. */
  lemma DialsAreBounded(states: seq<State>, canon: Canonical, n: int, country: string, k: nat, at: seq<nat>)
    requires Run(states, canon, n, country) && Ascending(at, |states| - 1)
    requires forall i :: 0 <= i < |at| ==> DialsNow(states[at[i]], states[at[i] + 1], k)
    ensures |at| <= CHAIN_REBUILD_MAX + 1
  {
    EachUsesDial(states, canon, n, country, k, at);
    RunIsLessening(states, canon, n, country, k);
    DialsRunOut(states, k, at);
    if at != [] {
      assert UsesDial(states, at[|at| - 1], k);
    }
  }

  /** And those at which it builds a chain are at most CHAIN_REBUILD_MAX. */
  lemma RebuildsAreBounded(states: seq<State>, canon: Canonical, n: int, country: string, k: nat, at: seq<nat>)
    requires Run(states, canon, n, country) && Ascending(at, |states| - 1)
    requires forall i :: 0 <= i < |at| ==> BuildsNow(states[at[i]], states[at[i] + 1], k, canon)
    ensures |at| <= CHAIN_REBUILD_MAX
  {
    EachUsesBuild(states, canon, n, country, k, at);
    RunIsLessening(states, canon, n, country, k);
    BuildsRunOut(states, k, at);
    if at != [] {
      assert UsesBuild(states, at[|at| - 1], k);
    }
  }

  /** A stream that is not done can take a step, and dialing, whatever way the dial may end. */
  ghost predicate CanGoOn(s: State, k: nat, canon: Canonical)
    requires k in s.streams
  {
    && (exists t :: StreamStep(s, t, k, canon))
    && (s.streams[k].pc.Dialing? ==>
          s.streams[k].pc.plan < |s.plans|
          && forall o: Outcome :: o.Failed? && 1 <= o.hop <= |s.plans[s.streams[k].pc.plan].hops| + 1 ==>
                                    exists t :: Dial(s, t, k, o) && t.streams[k].pc.Judging?)
  }

  /**
   No stream is ever stuck, and none goes on for ever: at every point of every run one that is not done can take a
   step, its dial failing at any node of its plan or at its exit among them, and every step it takes uses up one of
   the at most 6 * CHAIN_REBUILD_MAX + 5 it began with.
   */
  lemma StreamsComeToAnEnd(states: seq<State>, canon: Canonical, n: int, country: string, i: nat, k: nat)
    requires Run(states, canon, n, country) && i < |states| && k in states[i].streams
    ensures 0 <= StepsLeft(states[i].streams[k]) <= 6 * CHAIN_REBUILD_MAX + 5
    ensures StepsLeft(states[i].streams[k]) == 0 <==> states[i].streams[k].pc.Done?
    ensures !states[i].streams[k].pc.Done? ==> CanGoOn(states[i], k, canon)
    ensures i + 1 < |states| && StreamStep(states[i], states[i + 1], k, canon) ==>
              k in states[i + 1].streams && StepsLeft(states[i + 1].streams[k]) < StepsLeft(states[i].streams[k])
  {
    RunKeepsInv(states, canon, n, country, i);
    var s := states[i];
    assert StreamOk(s.streams[k], s);
    if i + 1 < |states| && StreamStep(s, states[i + 1], k, canon) {
      OwnStepCounts(s, states[i + 1], k, canon);
    }
    if !s.streams[k].pc.Done? {
      GoesOn(s, k, canon);
    }
  }

  lemma DialEnds(s: State, k: nat, o: Outcome) returns (t: State)
    requires k in s.streams && s.streams[k].pc.Dialing? && s.streams[k].pc.plan < |s.plans|
    requires o.Failed? ==> 1 <= o.hop <= |s.plans[s.streams[k].pc.plan].hops| + 1
    ensures Dial(s, t, k, o) && (o.Failed? ==> t.streams[k].pc.Judging?)
  {
    var me := s.streams[k];
    t := s.(streams := s.streams[k := me.(pc := if o == Up then Done else Judging(me.pc.plan), last := o)]);
  }

  lemma GoesOn(s: State, k: nat, canon: Canonical)
    requires InstalledOk(s) && k in s.streams && StreamOk(s.streams[k], s) && !s.streams[k].pc.Done?
    ensures CanGoOn(s, k, canon)
  {
    var me := s.streams[k];
    match me.pc
    case Loading =>
      var t := s.(streams := s.streams[k := me.(pc := Dialing(Current(s)), tried := me.tried + [Current(s)])]);
      assert Load(s, t, k) && StreamStep(s, t, k, canon);
    case Dialing(plan) =>
      forall o: Outcome | o.Failed? && 1 <= o.hop <= |s.plans[plan].hops| + 1
        ensures exists t :: Dial(s, t, k, o) && t.streams[k].pc.Judging?
      {
        var t := DialEnds(s, k, o);
      }
      var t := DialEnds(s, k, Up);
      assert StreamStep(s, t, k, canon);
    case Judging(plan) =>
      var suspect := Suspect(s.plans[plan], me.last);
      var t := s.(cooled := if suspect != "" then s.cooled + {suspect} else s.cooled,
                  closed := s.closed || RecoveryFor(me.last) == Repath,
                  streams := s.streams[k := me.(pc := Verdict(me))]);
      assert Judge(s, t, k) && StreamStep(s, t, k, canon);
    case Rebuilding(_) =>
      var t := s.(streams := s.streams[k := me.(pc := Done)]);
      assert RebuildFails(s, t, k) && StreamStep(s, t, k, canon);
    case Swapping(plan, built) =>
      var t := s.(installed := if Current(s) == plan then s.installed + [built] else s.installed,
                  streams := s.streams[k := me.(pc := Loading, attempt := me.attempt + 1)]);
      assert Swap(s, t, k) && StreamStep(s, t, k, canon);
  }

  /** The directory can still supply a chain behind this head without any node that is cooling. */
  ghost predicate RestSuffices(s: State, prev: Plan, canon: Canonical)
    requires s.dirs != [] && prev.hops != []
  {
    var d := s.dirs[|s.dirs| - 1];
    && !NoExitAvoiding(d, prev.country, canon, s.cooled)
    && !SomeExitOutOfReach(d, |prev.hops| + 1, prev.country, prev.hops[0].id, canon, s.cooled)
  }

  /** A stream's own rebuild, made by RebuildChain over the current directory and marks, is one of its steps. */
  method RebuildOnce(s: State, k: nat, canon: Canonical) returns (t: State)
    requires k in s.streams && s.streams[k].pc.Rebuilding? && s.streams[k].pc.plan < |s.plans|
    requires s.dirs != []
    ensures RebuildFails(s, t, k) || exists built :: RebuildWorks(s, t, k, built, canon)
    ensures RebuildFails(s, t, k) ==>
              var prev, d := s.plans[s.streams[k].pc.plan], s.dirs[|s.dirs| - 1];
              || prev.hops == []
              || NoExitAvoiding(d, prev.country, canon, {})
              || SomeExitOutOfReach(d, |prev.hops| + 1, prev.country, prev.hops[0].id, canon, {})
  {
    var me := s.streams[k];
    var prev := s.plans[me.pc.plan];
    var r, _ := RebuildChain(prev, s.dirs[|s.dirs| - 1], canon, s.cooled);
    if r.Err? {
      return s.(streams := s.streams[k := me.(pc := Done)]);
    }
    t := s.(plans := s.plans + [r.value], streams := s.streams[k := me.(pc := Swapping(me.pc.plan, |s.plans|))]);
    assert RebuildWorks(s, t, k, r.value, canon);
  }

  /**
   In every run the session's plan changes only under a stream that saw it fail: past the head, and not by a
   rejection. What replaces it is what that stream built; and a stream whose plan is still the session's when it
   swaps does replace it.
   */
  lemma SwapReplacesTheFailed(states: seq<State>, canon: Canonical, n: int, country: string, i: nat)
    requires Run(states, canon, n, country) && i + 1 < |states|
    ensures states[i].installed != []
    ensures states[i + 1].installed != states[i].installed ==>
              exists k :: k in states[i].streams && ReplacesNow(states[i], states[i + 1], k)
    ensures forall k :: && k in states[i].streams && states[i].streams[k].pc.Swapping?
                        && Swap(states[i], states[i + 1], k)
                        && states[i].streams[k].pc.plan == states[i].installed[|states[i].installed| - 1] ==>
                          ReplacesNow(states[i], states[i + 1], k)
  {
    RunKeepsInv(states, canon, n, country, i);
    assert StepAt(states, i, canon);
    SwapReplaces(states[i], states[i + 1]);
    if states[i + 1].installed != states[i].installed {
      OnlySwapsInstall(states[i], states[i + 1], canon);
    }
  }

  lemma SwapReplaces(s: State, t: State)
    requires InstalledOk(s) && StreamsOk(s)
    ensures forall k :: k in s.streams && Swap(s, t, k) && s.streams[k].pc.plan == Current(s) ==> ReplacesNow(s, t, k)
  {
    forall k | k in s.streams && Swap(s, t, k) && s.streams[k].pc.plan == Current(s)
      ensures ReplacesNow(s, t, k)
    {
      assert StreamOk(s.streams[k], s);
    }
  }

  lemma OnlySwapsInstall(s: State, t: State, canon: Canonical)
    requires Next(s, t, canon) && t.installed != s.installed
    ensures exists k :: k in s.streams && Swap(s, t, k) && s.streams[k].pc.plan == Current(s)
  {
    var k :| StreamStep(s, t, k, canon);
    assert Swap(s, t, k);
  }

  ghost predicate ReplacesNow(s: State, t: State, k: nat)
    requires k in s.streams && s.installed != []
  {
    var me := s.streams[k];
    && me.pc.Swapping? && me.last.Failed? && me.last.fault != HopRejected && me.last.hop > 1
    && s.installed[|s.installed| - 1] == me.pc.plan
    && t.installed == s.installed + [me.pc.built]
  }

  /** A reload takes effect: until the next one, what is built after it is a good plan over what it loaded. */
  lemma ReloadTakesEffect(states: seq<State>, canon: Canonical, n: int, country: string, i: nat, j: nat, k: nat,
                          d: Directory, built: Plan)
    requires Run(states, canon, n, country) && i < j && j + 1 < |states| && Reload(states[i], states[i + 1], d)
    requires RebuildWorks(states[j], states[j + 1], k, built, canon)
    requires |states[j].dirs| == |states[i].dirs| + 1
    ensures var prev := states[j].plans[states[j].streams[k].pc.plan];
            GoodPlan(built, d, |prev.hops| + 1, prev.country, prev.hops[0].id, canon)
  {
    GrewSince(states, canon, n, country, i + 1, j);
    StillLast(states[i], states[i + 1], states[j], d);
  }

  lemma GrewSince(states: seq<State>, canon: Canonical, n: int, country: string, i: nat, j: nat)
    requires Run(states, canon, n, country) && i <= j < |states|
    ensures Grew(states[i], states[j])
  {
    RunIsGrowing(states, canon, n, country);
    RunGrows(states, i, j);
  }

  lemma StillLast(s: State, t: State, u: State, d: Directory)
    requires Reload(s, t, d) && Grew(t, u) && |u.dirs| == |s.dirs| + 1
    ensures u.dirs[|u.dirs| - 1] == d
  {
    assert t.dirs == u.dirs;
  }

  /**
   A stream is rebuilding only behind a failure that licenses it: never after an admission rejection,
   never for the head. A liveness fault or refusal at the head has closed the session instead.
   */
  lemma RebuildOnlyWhenLicensed(states: seq<State>, canon: Canonical, n: int, country: string, i: nat, k: nat)
    requires Run(states, canon, n, country) && i < |states| && k in states[i].streams
    ensures var me := states[i].streams[k];
            && (me.pc.Rebuilding? || me.pc.Swapping? ==>
                  me.last.Failed? && me.last.fault != HopRejected && me.last.hop > 1)
            && (me.pc == Done && me.last.Failed? && me.last.hop == 1 && me.last.fault != HopRejected ==>
                  states[i].closed)
  {
    RunKeepsInv(states, canon, n, country, i);
    assert StreamOk(states[i].streams[k], states[i]);
  }

  /** However many streams fail over one plan, at most one replacement of it is ever installed. */
  lemma PlanReplacedOnce(states: seq<State>, canon: Canonical, n: int, country: string, i: nat, a: nat, b: nat)
    requires Run(states, canon, n, country) && i < |states|
    requires a < |states[i].installed| && b < |states[i].installed|
    requires states[i].installed[a] == states[i].installed[b]
    ensures a == b
  {
    RunKeepsInv(states, canon, n, country, i);
  }

  /**
   What a judged failure does, in every run: it marks exactly the node the failure is at, the exit when that is
   one past the last hop, and nothing for an error from above the telescope. The stream then rebuilds over its
   own plan if and only if a node past the head died, stalled or refused and an attempt is left; the session is
   closed if and only if the head did.
   */
  lemma JudgeBlamesTheFailed(states: seq<State>, canon: Canonical, n: int, country: string, a: nat, k: nat)
    requires Run(states, canon, n, country) && a + 1 < |states| && Judge(states[a], states[a + 1], k)
    ensures var s, t := states[a], states[a + 1];
            var me := s.streams[k];
            var p := s.plans[me.pc.plan];
            && (!me.last.Failed? ==> t.cooled == s.cooled)
            && (me.last.Failed? ==> 1 <= me.last.hop <= |p.hops| + 1)
            && (me.last.Failed? && me.last.hop <= |p.hops| ==> t.cooled == s.cooled + {p.hops[me.last.hop - 1].id})
            && (me.last.Failed? && me.last.hop > |p.hops| ==> t.cooled == s.cooled + {p.exitId})
    ensures var s, t := states[a], states[a + 1];
            var me := s.streams[k];
            && k in t.streams
            && (t.streams[k].pc == Rebuilding(me.pc.plan) <==>
                  me.last.Failed? && me.last.fault != HopRejected && me.last.hop > 1 && me.attempt < CHAIN_REBUILD_MAX)
            && (t.streams[k].pc == Rebuilding(me.pc.plan) || t.streams[k].pc == Done)
            && (t.closed <==> s.closed || (me.last.Failed? && me.last.fault != HopRejected && me.last.hop == 1))
  {
    RunKeepsInv(states, canon, n, country, a);
    var s := states[a];
    assert StreamOk(s.streams[k], s);
    assert NoDowngrade(s.plans[s.streams[k].pc.plan], s, n, country, canon);
  }

  /** The node the failure a stream last saw is at. */
  ghost predicate FailedAt(s: State, k: nat, who: string)
    requires k in s.streams && s.streams[k].last.Failed?
    requires s.streams[k].pc.Judging? || s.streams[k].pc.Rebuilding?
    requires s.streams[k].pc.plan < |s.plans|
  {
    var p, hop := s.plans[s.streams[k].pc.plan], s.streams[k].last.hop;
    if 1 <= hop <= |p.hops| then who == p.hops[hop - 1].id else hop == |p.hops| + 1 && who == p.exitId
  }

  /**
   A rebuild routes around the failure it answers: in every run, while the node that failed is still marked as
   cooling and the rest of the directory suffices, the fresh chain neither passes through it nor ends at it.
   */
  lemma RebuildAvoidsTheBlamed(states: seq<State>, canon: Canonical, n: int, country: string, i: nat, k: nat,
                               built: Plan, who: string)
    requires Run(states, canon, n, country) && i + 1 < |states|
    requires RebuildWorks(states[i], states[i + 1], k, built, canon)
    requires states[i].streams[k].last.Failed? && FailedAt(states[i], k, who)
    requires who in states[i].cooled
    requires RestSuffices(states[i], states[i].plans[states[i].streams[k].pc.plan], canon)
    ensures who != built.exitId && who !in Ids(built.hops)
  {
    RunKeepsInv(states, canon, n, country, i);
    var s := states[i];
    assert StreamOk(s.streams[k], s);
    var prev := s.plans[s.streams[k].pc.plan];
    assert NoDowngrade(prev, s, n, country, canon);
    assert prev.hops[0] in prev.hops && prev.hops[0].id in Ids(prev.hops);
    assert who != prev.hops[0].id;
  }

  /**
   The node a judged failure is at is marked as cooling, and the mark is there at the rebuild unless it expired
   or was cleared in between.
   */
  lemma {:induction false} BlamedStaysCooling(states: seq<State>, canon: Canonical, n: int, country: string, a: nat,
                                              i: nat, k: nat, who: string)
    requires Run(states, canon, n, country) && a < i < |states| && Judge(states[a], states[a + 1], k)
    requires states[a].streams[k].last.Failed? && FailedAt(states[a], k, who)
    requires forall m :: a < m < i ==> states[m].cooled <= states[m + 1].cooled
    ensures who in states[i].cooled
    decreases i
  {
    if i > a + 1 {
      BlamedStaysCooling(states, canon, n, country, a, i - 1, k, who);
    } else {
      JudgeBlamesTheFailed(states, canon, n, country, a, k);
    }
  }

  /** However the streams interleave, no stream ever dials over a plan it has already failed over. */
  lemma NoPlanIsTriedTwice(states: seq<State>, canon: Canonical, n: int, country: string, i: nat, k: nat)
    requires Run(states, canon, n, country) && i < |states| && k in states[i].streams
    ensures var tried := states[i].streams[k].tried;
            && (forall x, y :: 0 <= x < y < |tried| ==> tried[x] != tried[y])
            && (states[i].streams[k].pc.Dialing? ==> tried != [] && tried[|tried| - 1] == states[i].streams[k].pc.plan)
  {
    RunKeepsTries(states, canon, n, country, i);
    assert TriedOk(states[i].streams[k], states[i]);
  }
}
