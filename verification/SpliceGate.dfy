/**
 Admission of reverse-proxy splices: a token bucket per source address, a cap on how many run at once,
 and a sweep that forgets idle buckets (core/transport_reality_meter.go, spliceGate).

 Time is in nanoseconds and a bucket holds a real number of tokens: min(burst, tokens + rate * elapsed),
 starting full, a refused request taking nothing.
 */
module SpliceGate {
  import opened Wrappers

  const SWEEP: int := 60_000_000_000
  const IDLE: int := 600_000_000_000

  /** The limits a gate is built with; rate is in tokens per nanosecond. */
  datatype Limits = Limits(maxConcurrent: int, rate: real, burst: nat) {
    ghost predicate Valid() {
      rate >= 0.0
    }
  }

  datatype Bucket = Bucket(tokens: real, last: int, seen: int)

  datatype Gate = Gate(perIP: map<string, Bucket>, concurrent: int, lastSweep: Option<int>)

  function Min(a: real, b: real): real {
    if a <= b then a else b
  }

  function Level(lim: Limits, b: Bucket, now: int): real {
    Min(lim.burst as real, b.tokens + lim.rate * (now - b.last) as real)
  }

  /** A new bucket is full whenever it is looked at. */
  function FreshBucket(lim: Limits, now: int): Bucket {
    Bucket(lim.burst as real, now, now)
  }

  function SweepDue(g: Gate, now: int): bool {
    g.lastSweep.None? || now - g.lastSweep.value >= SWEEP
  }

  function Swept(g: Gate, now: int): Gate {
    if !SweepDue(g, now) then g
    else g.(lastSweep := Some(now),
            perIP := map ip | ip in g.perIP && now - g.perIP[ip].seen <= IDLE :: g.perIP[ip])
  }

  /** What the source's own bucket holds when it is looked at. */
  function BucketFor(lim: Limits, g: Gate, ip: string, now: int): Bucket {
    (if ip in g.perIP then g.perIP[ip] else FreshBucket(lim, now)).(seen := now)
  }

  /** The decision itself, after the sweep. */
  function Decided(lim: Limits, g: Gate, ip: string, now: int): (Gate, bool) {
    if g.concurrent >= lim.maxConcurrent then (g, false)
    else
      var b := BucketFor(lim, g, ip, now);
      var level := Level(lim, b, now);
      if level < 1.0 then (g.(perIP := g.perIP[ip := b]), false)
      else (g.(perIP := g.perIP[ip := b.(tokens := level - 1.0, last := now)], concurrent := g.concurrent + 1), true)
  }

  function Admitted(lim: Limits, g: Gate, ip: string, now: int): (Gate, bool) {
    Decided(lim, Swept(g, now), ip, now)
  }

  // ---------- the object, as the source updates it ----------

  /** What an admission hands back. Its release works once, however often it is called. */
  class Ticket {
    const gate: Splices
    var done: bool

    constructor (gate: Splices)
      ensures this.gate == gate && !done
    {
      this.gate, done := gate, false;
    }

    method Release()
      requires gate.Valid() && (!done ==> this in gate.open)
      modifies this, gate
      ensures gate.Valid() && done && gate.open == old(gate.open) - {this}
      ensures gate.concurrent == old(gate.concurrent) - (if old(done) then 0 else 1)
      ensures gate.View() == old(gate.View()).(concurrent := gate.concurrent)
    {
      if !done {
        done := true;
        gate.concurrent := gate.concurrent - 1;
        gate.open := gate.open - {this};
      }
    }
  }

  class Splices {
    const lim: Limits
    var perIP: map<string, Bucket>
    var concurrent: int
    var lastSweep: Option<int>
    /** The tickets not yet released. */
    ghost var open: set<Ticket>

    ghost function View(): Gate
      reads this
    {
      Gate(perIP, concurrent, lastSweep)
    }

    /** The counter is the number of unreleased tickets, and stays under the cap. */
    ghost predicate Valid()
      reads this, open
    {
      && concurrent == |open|
      && (lim.maxConcurrent >= 0 ==> concurrent <= lim.maxConcurrent)
      && forall t :: t in open ==> !t.done && t.gate == this
    }

    constructor (lim: Limits)
      ensures Valid() && this.lim == lim && View() == Gate(map[], 0, None) && open == {}
    {
      this.lim, perIP, concurrent, lastSweep, open := lim, map[], 0, None, {};
    }

    method Sweep(now: int)
      modifies this`perIP, this`lastSweep
      ensures View() == Swept(old(View()), now)
    {
      if lastSweep.Some? && now - lastSweep.value < SWEEP {
        return;
      }
      lastSweep := Some(now);
      var keys := perIP.Keys;
      while keys != {}
        invariant keys <= old(perIP).Keys && lastSweep == Some(now)
        invariant forall ip :: ip in perIP <==> ip in old(perIP) && (ip in keys || now - old(perIP)[ip].seen <= IDLE)
        invariant forall ip :: ip in perIP ==> perIP[ip] == old(perIP)[ip]
        decreases keys
      {
        var ip :| ip in keys;
        if now - perIP[ip].seen > IDLE {
          perIP := perIP - {ip};
        }
        keys := keys - {ip};
      }
      assert perIP == Swept(old(View()), now).perIP;
    }

    method Admit(ip: string, now: int) returns (ok: bool, ticket: Ticket?)
      requires Valid()
      modifies this
      ensures Valid()
      ensures (View(), ok) == Admitted(lim, old(View()), ip, now)
      ensures ok <==> ticket != null
      ensures if ok then fresh(ticket) && open == old(open) + {ticket} else open == old(open)
    {
      ticket := null;
      Sweep(now);
      if concurrent >= lim.maxConcurrent {
        return false, null;
      }
      var b := FreshBucket(lim, now);
      if ip in perIP {
        b := perIP[ip];
      }
      b := b.(seen := now);
      var level := Level(lim, b, now);
      ok := level >= 1.0;
      if ok {
        b := b.(tokens := level - 1.0, last := now);
        concurrent := concurrent + 1;
        ticket := new Ticket(this);
        open := open + {ticket};
      }
      perIP := perIP[ip := b];
    }
  }

  // ---------- runs ----------

  /** Release(n) gives back the n-th splice that was admitted; a repeated one does nothing. */
  datatype Op = Admit(ip: string, now: int) | Release(n: nat)

  datatype World = World(gate: Gate, live: set<nat>, admitted: nat, decisions: seq<bool>)

  /** forgets selects the gate with its sweep, or the one that never forgets. */
  function Step(lim: Limits, forgets: bool, w: World, op: Op): World {
    match op
    case Admit(ip, now) =>
      var (g, ok) := if forgets then Admitted(lim, w.gate, ip, now) else Decided(lim, w.gate, ip, now);
      World(g, if ok then w.live + {w.admitted} else w.live, if ok then w.admitted + 1 else w.admitted,
            w.decisions + [ok])
    case Release(n) =>
      if n in w.live then w.(live := w.live - {n}, gate := w.gate.(concurrent := w.gate.concurrent - 1)) else w
  }

  const START := World(Gate(map[], 0, None), {}, 0, [])

  function Exec(lim: Limits, forgets: bool, ops: seq<Op>): World {
    if ops == [] then START else Step(lim, forgets, Exec(lim, forgets, ops[..|ops| - 1]), ops[|ops| - 1])
  }

  /** The clock does not run backwards, and ends no later than now. */
  ghost predicate InOrder(ops: seq<Op>, now: int) {
    ops == [] || (match ops[|ops| - 1]
                  case Admit(_, t) => t <= now && InOrder(ops[..|ops| - 1], t)
                  case Release(_) => InOrder(ops[..|ops| - 1], now))
  }

  ghost predicate Forward(ops: seq<Op>) {
    exists now :: InOrder(ops, now)
  }

  lemma {:induction false} InOrderLater(ops: seq<Op>, now: int, later: int)
    requires InOrder(ops, now) && now <= later
    ensures InOrder(ops, later)
  {
    if ops != [] && ops[|ops| - 1].Release? {
      InOrderLater(ops[..|ops| - 1], now, later);
    }
  }

  // ---------- concurrency ----------

  /** concurrent is the admissions not yet released, however often each is released, and under the cap. */
  lemma {:induction false} ConcurrencyIsExact(lim: Limits, forgets: bool, ops: seq<Op>)
    ensures var w := Exec(lim, forgets, ops);
            && w.gate.concurrent == |w.live|
            && (forall n :: n in w.live ==> n < w.admitted)
            && (w.gate.concurrent <= lim.maxConcurrent || w.gate.concurrent == 0)
  {
    if ops != [] {
      ConcurrencyIsExact(lim, forgets, ops[..|ops| - 1]);
    }
  }

  // ---------- forgetting is unobservable, exactly when ----------

  /** The level a source would find, whether or not it has a bucket. */
  function LevelOf(lim: Limits, perIP: map<string, Bucket>, ip: string, now: int): real {
    if ip in perIP then Level(lim, perIP[ip], now) else lim.burst as real
  }

  /** Buckets hold no debt and were last used no later than they were last seen. */
  ghost predicate Sane(lim: Limits, g: Gate, now: int) {
    forall ip :: ip in g.perIP ==>
                   0.0 <= g.perIP[ip].tokens <= lim.burst as real && g.perIP[ip].last <= g.perIP[ip].seen <= now
  }

  /** An idle bucket has refilled by the time it can be evicted. */
  ghost predicate Refills(lim: Limits) {
    lim.rate * (IDLE + 1) as real >= lim.burst as real
  }

  lemma MulMonotone(r: real, a: real, b: real)
    requires r >= 0.0 && a <= b
    ensures r * a <= r * b
  {
  }

  lemma LevelBounds(lim: Limits, b: Bucket, now: int)
    requires lim.Valid() && 0.0 <= b.tokens && b.last <= now
    ensures 0.0 <= Level(lim, b, now) <= lim.burst as real
  {
    MulMonotone(lim.rate, 0.0, (now - b.last) as real);
  }

  /** An evicted bucket is full from then on, as a new one would be. */
  lemma EvictedIsFull(lim: Limits, b: Bucket, now: int, t: int)
    requires lim.Valid() && Refills(lim)
    requires 0.0 <= b.tokens && b.last <= b.seen && now - b.seen > IDLE && now <= t
    ensures Level(lim, b, t) == lim.burst as real
  {
    MulMonotone(lim.rate, (IDLE + 1) as real, (t - b.last) as real);
  }

  lemma SweepKeepsLevels(lim: Limits, g: Gate, now: int, ip: string, t: int)
    requires lim.Valid() && Refills(lim) && Sane(lim, g, now) && now <= t
    ensures LevelOf(lim, Swept(g, now).perIP, ip, t) == LevelOf(lim, g.perIP, ip, t)
  {
    if ip in g.perIP && ip !in Swept(g, now).perIP {
      EvictedIsFull(lim, g.perIP[ip], now, t);
    }
  }

  /** Two gates no request can tell apart from now on. */
  ghost predicate Alike(lim: Limits, g: Gate, h: Gate, now: int) {
    && g.concurrent == h.concurrent
    && forall ip, t :: t >= now ==> LevelOf(lim, g.perIP, ip, t) == LevelOf(lim, h.perIP, ip, t)
  }

  lemma FreshIsFull(lim: Limits, now: int, t: int)
    requires lim.Valid() && now <= t
    ensures Level(lim, FreshBucket(lim, now), t) == lim.burst as real
  {
    MulMonotone(lim.rate, 0.0, (t - now) as real);
  }

  lemma DecideSane(lim: Limits, g: Gate, ip: string, now: int)
    requires lim.Valid() && Sane(lim, g, now)
    ensures Sane(lim, Decided(lim, g, ip, now).0, now)
  {
    LevelBounds(lim, BucketFor(lim, g, ip, now), now);
  }

  /** A source is admitted exactly when there is room and it finds a whole token. */
  lemma DecisionIs(lim: Limits, g: Gate, ip: string, now: int)
    requires lim.Valid()
    ensures Decided(lim, g, ip, now).1 <==> g.concurrent < lim.maxConcurrent && LevelOf(lim, g.perIP, ip, now) >= 1.0
  {
    FreshIsFull(lim, now, now);
  }

  lemma BucketForLevel(lim: Limits, g: Gate, ip: string, now: int, t: int)
    requires lim.Valid() && now <= t
    ensures Level(lim, BucketFor(lim, g, ip, now), t) == LevelOf(lim, g.perIP, ip, t)
  {
    if ip !in g.perIP {
      FreshIsFull(lim, now, t);
      assert BucketFor(lim, g, ip, now) == FreshBucket(lim, now);
    }
  }

  /** The level a source is left with once a token is taken. */
  function AfterToken(lim: Limits, level: real, elapsed: int): real {
    Min(lim.burst as real, level - 1.0 + lim.rate * elapsed as real)
  }

  /** A refusal changes no level; an admission takes one token of the source's own. */
  lemma DecideLevels(lim: Limits, g: Gate, ip: string, now: int, q: string, t: int)
    requires lim.Valid() && now <= t
    ensures var (g', ok) := Decided(lim, g, ip, now);
            LevelOf(lim, g'.perIP, q, t) ==
              if ok && q == ip then AfterToken(lim, LevelOf(lim, g.perIP, ip, now), t - now)
              else LevelOf(lim, g.perIP, q, t)
  {
    BucketForLevel(lim, g, ip, now, now);
    BucketForLevel(lim, g, ip, now, t);
    var (g', ok) := Decided(lim, g, ip, now);
    if q != ip || g.concurrent >= lim.maxConcurrent {
    } else if !ok {
      assert g'.perIP[ip] == BucketFor(lim, g, ip, now);
    } else {
      var level := Level(lim, BucketFor(lim, g, ip, now), now);
      assert g'.perIP[ip] == Bucket(level - 1.0, now, now);
    }
  }

  lemma DecideAlike(lim: Limits, g: Gate, h: Gate, ip: string, now: int)
    requires lim.Valid() && Sane(lim, g, now) && Sane(lim, h, now) && Alike(lim, g, h, now)
    ensures Decided(lim, g, ip, now).1 == Decided(lim, h, ip, now).1
    ensures Alike(lim, Decided(lim, g, ip, now).0, Decided(lim, h, ip, now).0, now)
  {
    DecisionIs(lim, g, ip, now);
    DecisionIs(lim, h, ip, now);
    assert LevelOf(lim, g.perIP, ip, now) == LevelOf(lim, h.perIP, ip, now);
    forall q, t | t >= now
      ensures LevelOf(lim, Decided(lim, g, ip, now).0.perIP, q, t)
           == LevelOf(lim, Decided(lim, h, ip, now).0.perIP, q, t)
    {
      DecideLevels(lim, g, ip, now, q, t);
      DecideLevels(lim, h, ip, now, q, t);
      assert LevelOf(lim, g.perIP, q, t) == LevelOf(lim, h.perIP, q, t);
    }
  }

  lemma SweepAlike(lim: Limits, g: Gate, h: Gate, now: int)
    requires lim.Valid() && Refills(lim) && Sane(lim, g, now) && Alike(lim, g, h, now)
    ensures Sane(lim, Swept(g, now), now) && Alike(lim, Swept(g, now), h, now)
  {
    forall ip, t | t >= now
      ensures LevelOf(lim, Swept(g, now).perIP, ip, t) == LevelOf(lim, h.perIP, ip, t)
    {
      SweepKeepsLevels(lim, g, now, ip, t);
    }
  }

  lemma {:induction false} RunsAlike(lim: Limits, ops: seq<Op>, now: int)
    requires lim.Valid() && Refills(lim) && InOrder(ops, now)
    ensures var w, v := Exec(lim, true, ops), Exec(lim, false, ops);
            && w.decisions == v.decisions && w.live == v.live && w.admitted == v.admitted
            && Sane(lim, w.gate, now) && Sane(lim, v.gate, now) && Alike(lim, w.gate, v.gate, now)
  {
    if ops != [] {
      var prior := ops[..|ops| - 1];
      var w, v := Exec(lim, true, prior), Exec(lim, false, prior);
      match ops[|ops| - 1]
      case Admit(ip, t) =>
        RunsAlike(lim, prior, t);
        SweepAlike(lim, w.gate, v.gate, t);
        DecideAlike(lim, Swept(w.gate, t), v.gate, ip, t);
        DecideSane(lim, Swept(w.gate, t), ip, t);
        DecideSane(lim, v.gate, ip, t);
      case Release(n) =>
        RunsAlike(lim, prior, now);
    }
  }

  /** The gate a request at this time is decided on. */
  function Facing(forgets: bool, g: Gate, now: int): Gate {
    if forgets then Swept(g, now) else g
  }

  /** Nothing is running, and every request so far was admitted: k of them. */
  ghost predicate Quiet(w: World, k: nat) {
    && w.live == {} && w.gate.concurrent == 0 && w.admitted == k
    && |w.decisions| == k && forall i :: 0 <= i < k ==> w.decisions[i]
  }

  /** One request of a lone source, given back at once if it was admitted. */
  function Round(lim: Limits, forgets: bool, w: World, now: int): World {
    Step(lim, forgets, Step(lim, forgets, w, Admit("x", now)), Release(w.admitted))
  }

  lemma OneRound(lim: Limits, forgets: bool, w: World, now: int, k: nat)
    requires lim.Valid() && lim.maxConcurrent >= 1 && Quiet(w, k)
    ensures var v := Round(lim, forgets, w, now);
            var g := Facing(forgets, w.gate, now);
            && (Quiet(v, k + 1) <==> LevelOf(lim, g.perIP, "x", now) >= 1.0)
            && v.decisions == w.decisions + [LevelOf(lim, g.perIP, "x", now) >= 1.0]
            && v.gate == Decided(lim, g, "x", now).0.(concurrent := 0)
  {
    var g := Facing(forgets, w.gate, now);
    DecisionIs(lim, g, "x", now);
    assert w.live + {w.admitted} - {w.admitted} == w.live;
  }

  /** What a request of the lone source would find at this time. */
  ghost predicate Left(lim: Limits, forgets: bool, w: World, now: int, level: real) {
    LevelOf(lim, Facing(forgets, w.gate, now).perIP, "x", now) == level
  }

  lemma SpendOne(lim: Limits, forgets: bool, w: World, now: int, n: nat, level: real)
    requires lim.Valid() && lim.maxConcurrent >= 1
    requires Quiet(w, n) && Left(lim, forgets, w, now, level) && 1.0 <= level <= lim.burst as real
    ensures var v := Round(lim, forgets, w, now);
            && Quiet(v, n + 1) && Left(lim, forgets, v, now, level - 1.0)
            && (forall t :: t >= now ==> LevelOf(lim, v.gate.perIP, "x", t) == AfterToken(lim, level, t - now))
            && "x" in v.gate.perIP && v.gate.perIP["x"].seen == now
            && (forgets ==> v.gate.lastSweep.Some? && now - v.gate.lastSweep.value < SWEEP)
            && (v.gate.lastSweep.Some? ==> w.gate.lastSweep == v.gate.lastSweep || v.gate.lastSweep == Some(now))
  {
    var g := Facing(forgets, w.gate, now);
    var v := Round(lim, forgets, w, now);
    OneRound(lim, forgets, w, now, n);
    assert Facing(forgets, v.gate, now) == v.gate;
    forall t | t >= now
      ensures LevelOf(lim, v.gate.perIP, "x", t) == AfterToken(lim, level, t - now)
    {
      DecisionIs(lim, g, "x", now);
      DecideLevels(lim, g, "x", now, "x", t);
    }
    assert LevelOf(lim, v.gate.perIP, "x", now) == AfterToken(lim, level, now - now);
  }

  /** k requests of one source at one time, each given back at once; numbered after the earlier ones. */
  function Volley(now: int, earlier: nat, k: nat): seq<Op> {
    if k == 0 then [] else Volley(now, earlier, k - 1) + [Admit("x", now)] + [Release(earlier + k - 1)]
  }

  lemma ExecSnoc(lim: Limits, forgets: bool, ops: seq<Op>, op: Op)
    ensures Exec(lim, forgets, ops + [op]) == Step(lim, forgets, Exec(lim, forgets, ops), op)
  {
    assert (ops + [op])[..|ops|] == ops;
  }

  lemma ExecRound(lim: Limits, forgets: bool, before: seq<Op>, all: seq<Op>, now: int, n: nat)
    requires all == before + [Admit("x", now)] + [Release(n)]
    requires Exec(lim, forgets, before).admitted == n
    ensures Exec(lim, forgets, all) == Round(lim, forgets, Exec(lim, forgets, before), now)
  {
    ExecSnoc(lim, forgets, before, Admit("x", now));
    ExecSnoc(lim, forgets, before + [Admit("x", now)], Release(n));
  }

  lemma VolleyShape(prior: seq<Op>, now: int, earlier: nat, k: nat)
    requires k > 0
    ensures prior + Volley(now, earlier, k)
         == (prior + Volley(now, earlier, k - 1)) + [Admit("x", now)] + [Release(earlier + k - 1)]
  {
  }

  lemma InOrderSnoc(ops: seq<Op>, op: Op, now: int)
    requires InOrder(ops, now) && (op.Admit? ==> op.now == now)
    ensures InOrder(ops + [op], now)
  {
    assert (ops + [op])[..|ops|] == ops;
  }

  lemma {:induction false} VolleyInOrder(prior: seq<Op>, now: int, earlier: nat, k: nat)
    requires InOrder(prior, now)
    ensures InOrder(prior + Volley(now, earlier, k), now)
  {
    if k == 0 {
      assert prior + Volley(now, earlier, k) == prior;
    } else {
      VolleyInOrder(prior, now, earlier, k - 1);
      InOrderSnoc(prior + Volley(now, earlier, k - 1), Admit("x", now), now);
      InOrderSnoc(prior + Volley(now, earlier, k - 1) + [Admit("x", now)], Release(earlier + k - 1), now);
      VolleyShape(prior, now, earlier, k);
    }
  }

  ghost predicate SomeRefused(w: World) {
    exists i :: 0 <= i < |w.decisions| && !w.decisions[i]
  }

  lemma RoundOutcome(lim: Limits, forgets: bool, before: seq<Op>, all: seq<Op>, now: int, n: nat, level: real)
    requires lim.Valid() && lim.maxConcurrent >= 1 && level <= lim.burst as real
    requires all == before + [Admit("x", now)] + [Release(n)]
    requires Quiet(Exec(lim, forgets, before), n) && Left(lim, forgets, Exec(lim, forgets, before), now, level)
    ensures level >= 1.0 ==>
              Quiet(Exec(lim, forgets, all), n + 1) && Left(lim, forgets, Exec(lim, forgets, all), now, level - 1.0)
    ensures level < 1.0 ==> SomeRefused(Exec(lim, forgets, all))
  {
    var w := Exec(lim, forgets, before);
    ExecRound(lim, forgets, before, all, now, n);
    if level >= 1.0 {
      SpendOne(lim, forgets, w, now, n, level);
    } else {
      OneRound(lim, forgets, w, now, n);
      assert !Exec(lim, forgets, all).decisions[|w.decisions|];
    }
  }

  lemma RefusalStays(lim: Limits, forgets: bool, before: seq<Op>, all: seq<Op>, a: Op, b: Op)
    requires all == before + [a] + [b] && SomeRefused(Exec(lim, forgets, before))
    ensures SomeRefused(Exec(lim, forgets, all))
  {
    DecisionsGrow(lim, forgets, before, a);
    DecisionsGrow(lim, forgets, before + [a], b);
    var w := Exec(lim, forgets, before);
    var i :| 0 <= i < |w.decisions| && !w.decisions[i];
    assert !Exec(lim, forgets, all).decisions[i];
  }

  lemma DecisionsGrow(lim: Limits, forgets: bool, ops: seq<Op>, op: Op)
    ensures Exec(lim, forgets, ops).decisions <= Exec(lim, forgets, ops + [op]).decisions
  {
    ExecSnoc(lim, forgets, ops, op);
  }

  /** A volley is admitted whole exactly when the source has the tokens for it. */
  lemma {:induction false} VolleyOutcome(lim: Limits, forgets: bool, prior: seq<Op>, now: int, earlier: nat, k: nat,
                                         level: real)
    requires lim.Valid() && lim.maxConcurrent >= 1 && 0.0 <= level <= lim.burst as real
    requires Quiet(Exec(lim, forgets, prior), earlier) && Left(lim, forgets, Exec(lim, forgets, prior), now, level)
    ensures level >= k as real ==>
              && Quiet(Exec(lim, forgets, prior + Volley(now, earlier, k)), earlier + k)
              && Left(lim, forgets, Exec(lim, forgets, prior + Volley(now, earlier, k)), now, level - k as real)
    ensures level < k as real ==> SomeRefused(Exec(lim, forgets, prior + Volley(now, earlier, k)))
  {
    if k == 0 {
      assert prior + Volley(now, earlier, k) == prior;
    } else {
      VolleyOutcome(lim, forgets, prior, now, earlier, k - 1, level);
      var before, all := prior + Volley(now, earlier, k - 1), prior + Volley(now, earlier, k);
      VolleyShape(prior, now, earlier, k);
      if level >= (k - 1) as real {
        RoundOutcome(lim, forgets, before, all, now, earlier + k - 1, level - (k - 1) as real);
      } else {
        RefusalStays(lim, forgets, before, all, Admit("x", now), Release(earlier + k - 1));
      }
    }
  }

  /** After a whole burst at time zero, the bucket was last used then, and refills from empty. */
  lemma BurstLeavesEmpty(lim: Limits, forgets: bool)
    requires lim.Valid() && lim.maxConcurrent >= 1 && lim.burst >= 1
    ensures var w := Exec(lim, forgets, Volley(0, 0, lim.burst));
            && Quiet(w, lim.burst)
            && "x" in w.gate.perIP && w.gate.perIP["x"].seen == 0
            && LevelOf(lim, w.gate.perIP, "x", IDLE + 1) == Min(lim.burst as real, lim.rate * (IDLE + 1) as real)
            && (w.gate.lastSweep.Some? ==> w.gate.lastSweep.value <= 0)
  {
    var w := Exec(lim, forgets, Volley(0, 0, lim.burst - 1));
    BurstAsRound(lim, forgets, w);
    SpendOne(lim, forgets, w, 0, lim.burst - 1, 1.0);
    SweepsInThePast(lim, forgets, 0, lim.burst);
    assert LevelOf(lim, Round(lim, forgets, w, 0).gate.perIP, "x", IDLE + 1) == AfterToken(lim, 1.0, IDLE + 1 - 0);
  }

  lemma BurstAsRound(lim: Limits, forgets: bool, w: World)
    requires lim.Valid() && lim.maxConcurrent >= 1 && lim.burst >= 1
    requires w == Exec(lim, forgets, Volley(0, 0, lim.burst - 1))
    ensures Quiet(w, lim.burst - 1) && Left(lim, forgets, w, 0, 1.0)
    ensures Exec(lim, forgets, Volley(0, 0, lim.burst)) == Round(lim, forgets, w, 0)
  {
    var k := lim.burst - 1;
    var before, all := Volley(0, 0, k), Volley(0, 0, k + 1);
    assert [] + before == before && [] + all == all;
    VolleyOutcome(lim, forgets, [], 0, 0, k, lim.burst as real);
    ExecRound(lim, forgets, before, all, 0, k);
  }

  lemma {:induction false} SweepsInThePast(lim: Limits, forgets: bool, earlier: nat, k: nat)
    ensures var w := Exec(lim, forgets, Volley(0, earlier, k));
            w.gate.lastSweep.Some? ==> w.gate.lastSweep.value == 0
  {
    if k > 0 {
      SweepsInThePast(lim, forgets, earlier, k - 1);
      var v := Volley(0, earlier, k - 1);
      ExecSnoc(lim, forgets, v, Admit("x", 0));
      ExecSnoc(lim, forgets, v + [Admit("x", 0)], Release(earlier + k - 1));
    }
  }

  /** A run on which the two gates answer differently, for any limits whose buckets do not refill in time. */
  lemma ForgettingShows(lim: Limits)
    requires lim.Valid() && lim.maxConcurrent >= 1 && !Refills(lim)
    ensures var ops := Volley(0, 0, lim.burst) + Volley(IDLE + 1, lim.burst, lim.burst);
            InOrder(ops, IDLE + 1) && Exec(lim, true, ops).decisions != Exec(lim, false, ops).decisions
  {
    MulMonotone(lim.rate, 0.0, (IDLE + 1) as real);
    ShowingRunInOrder(lim);
    SecondBurstForgotten(lim);
    SecondBurstRemembered(lim);
  }

  lemma ShowingRunInOrder(lim: Limits)
    ensures InOrder(Volley(0, 0, lim.burst) + Volley(IDLE + 1, lim.burst, lim.burst), IDLE + 1)
  {
    var first := Volley(0, 0, lim.burst);
    assert [] + first == first;
    VolleyInOrder([], 0, 0, lim.burst);
    InOrderLater(first, 0, IDLE + 1);
    VolleyInOrder(first, IDLE + 1, lim.burst, lim.burst);
  }

  lemma SecondBurstForgotten(lim: Limits)
    requires lim.Valid() && lim.maxConcurrent >= 1 && lim.burst >= 1
    ensures Quiet(Exec(lim, true, Volley(0, 0, lim.burst) + Volley(IDLE + 1, lim.burst, lim.burst)), 2 * lim.burst)
  {
    var first := Volley(0, 0, lim.burst);
    BurstLeavesEmpty(lim, true);
    assert "x" !in Facing(true, Exec(lim, true, first).gate, IDLE + 1).perIP;
    VolleyOutcome(lim, true, first, IDLE + 1, lim.burst, lim.burst, lim.burst as real);
  }

  lemma SecondBurstRemembered(lim: Limits)
    requires lim.Valid() && lim.maxConcurrent >= 1 && lim.burst >= 1 && !Refills(lim)
    ensures SomeRefused(Exec(lim, false, Volley(0, 0, lim.burst) + Volley(IDLE + 1, lim.burst, lim.burst)))
  {
    MulMonotone(lim.rate, 0.0, (IDLE + 1) as real);
    BurstLeavesEmpty(lim, false);
    VolleyOutcome(lim, false, Volley(0, 0, lim.burst), IDLE + 1, lim.burst, lim.burst, lim.rate * (IDLE + 1) as real);
  }

  /** The gate as shipped, and one that never forgets a bucket, decide a run alike. */
  ghost predicate SameDecisions(lim: Limits, ops: seq<Op>) {
    Exec(lim, true, ops).decisions == Exec(lim, false, ops).decisions
  }

  /**
   Forgetting idle buckets is unobservable over every run with a forward clock, exactly when a bucket
   refills to its burst within the idle period, or nothing is ever admitted. The shipped limits, one
   token a second and a burst of 16, refill in time.
   */
  lemma ForgettingIsUnobservable(lim: Limits)
    requires lim.Valid()
    ensures (forall ops :: Forward(ops) ==> SameDecisions(lim, ops)) <==> (lim.maxConcurrent <= 0 || Refills(lim))
    ensures Refills(Limits(512, 1.0 / 1_000_000_000.0, 16))
  {
    if lim.maxConcurrent <= 0 {
      forall ops | Forward(ops)
        ensures SameDecisions(lim, ops)
      {
        NeverAdmitted(lim, ops);
      }
    } else if Refills(lim) {
      forall ops | Forward(ops)
        ensures SameDecisions(lim, ops)
      {
        var now :| InOrder(ops, now);
        RunsAlike(lim, ops, now);
      }
    } else {
      ForgettingShows(lim);
      var ops := Volley(0, 0, lim.burst) + Volley(IDLE + 1, lim.burst, lim.burst);
      assert Forward(ops) && !SameDecisions(lim, ops);
    }
  }

  lemma {:induction false} NeverAdmitted(lim: Limits, ops: seq<Op>)
    requires lim.maxConcurrent <= 0
    ensures Exec(lim, true, ops).decisions == Exec(lim, false, ops).decisions
    ensures Exec(lim, true, ops).gate.concurrent == 0 == Exec(lim, false, ops).gate.concurrent
    ensures Exec(lim, true, ops).live == {} == Exec(lim, false, ops).live
  {
    if ops != [] {
      NeverAdmitted(lim, ops[..|ops| - 1]);
    }
  }

  // ---------- the rate of one source ----------

  /** How many requests of a source the gate admitted from the given operation on. */
  function Taken(lim: Limits, ops: seq<Op>, from: nat, ip: string): nat {
    if |ops| <= from then 0
    else
      var prior, last := ops[..|ops| - 1], ops[|ops| - 1];
      Taken(lim, prior, from, ip) +
      if last.Admit? && last.ip == ip && Admitted(lim, Exec(lim, true, prior).gate, ip, last.now).1 then 1 else 0
  }

  /** From the given operation on, the run stays between two times. */
  ghost predicate Between(ops: seq<Op>, from: nat, start: int, now: int) {
    && start <= now && InOrder(ops, now) && from <= |ops|
    && forall i :: from <= i < |ops| && ops[i].Admit? ==> start <= ops[i].now
  }

  ghost predicate WithinRate(lim: Limits, ops: seq<Op>, from: nat, ip: string, start: int, now: int) {
    Taken(lim, ops, from, ip) as real <= lim.burst as real + lim.rate * (now - start) as real
  }

  lemma ElapsedAdds(r: real, a: int, b: int, c: int)
    ensures r * (c - a) as real == r * (b - a) as real + r * (c - b) as real
  {
    assert (c - a) as real == (b - a) as real + (c - b) as real;
  }

  /** A level grows no faster than the rate. */
  lemma LevelGrows(lim: Limits, perIP: map<string, Bucket>, ip: string, s: int, t: int)
    requires lim.Valid() && s <= t
    ensures LevelOf(lim, perIP, ip, t) <= LevelOf(lim, perIP, ip, s) + lim.rate * (t - s) as real
  {
    MulMonotone(lim.rate, 0.0, (t - s) as real);
    if ip in perIP {
      ElapsedAdds(lim.rate, perIP[ip].last, s, t);
    }
  }

  /** What was taken and what is left together do not exceed a burst and the refill since. */
  ghost predicate Conserved(lim: Limits, ops: seq<Op>, from: nat, ip: string, start: int, now: int) {
    Taken(lim, ops, from, ip) as real + LevelOf(lim, Exec(lim, true, ops).gate.perIP, ip, now)
    <= lim.burst as real + lim.rate * (now - start) as real
  }

  lemma {:induction false} TokensAreConserved(lim: Limits, ops: seq<Op>, from: nat, ip: string, start: int, now: int)
    requires lim.Valid() && Refills(lim) && Between(ops, from, start, now)
    ensures Conserved(lim, ops, from, ip, start, now)
  {
    if |ops| == from {
      FullAtMost(lim, Exec(lim, true, ops).gate.perIP, ip, start, now);
      assert Taken(lim, ops, from, ip) == 0;
    } else {
      var prior, last := ops[..|ops| - 1], ops[|ops| - 1];
      assert ops == prior + [last];
      if last.Admit? {
        TokensAreConserved(lim, prior, from, ip, start, last.now);
        AfterRequest(lim, prior, ops, from, ip, last.ip, last.now, start, now);
      } else {
        TokensAreConserved(lim, prior, from, ip, start, now);
        AfterRelease(lim, prior, ops, from, ip, last.n, start, now);
      }
    }
  }

  lemma FullAtMost(lim: Limits, perIP: map<string, Bucket>, ip: string, start: int, now: int)
    requires lim.Valid() && start <= now
    ensures LevelOf(lim, perIP, ip, now) <= lim.burst as real + lim.rate * (now - start) as real
  {
    MulMonotone(lim.rate, 0.0, (now - start) as real);
  }

  lemma AfterRelease(lim: Limits, prior: seq<Op>, ops: seq<Op>, from: nat, ip: string, n: nat, start: int, now: int)
    requires ops == prior + [Release(n)] && from <= |prior| && Conserved(lim, prior, from, ip, start, now)
    ensures Conserved(lim, ops, from, ip, start, now)
  {
    ExecSnoc(lim, true, prior, Release(n));
    assert ops[..|ops| - 1] == prior;
  }

  /** One request takes at most the token it was admitted with. */
  lemma OneRequest(lim: Limits, g: Gate, q: string, t: int, ip: string, now: int)
    requires lim.Valid() && Refills(lim) && Sane(lim, g, t) && t <= now
    ensures var (g', ok) := Admitted(lim, g, q, t);
            LevelOf(lim, g'.perIP, ip, now) + (if ok && q == ip then 1.0 else 0.0) <=
            LevelOf(lim, g.perIP, ip, t) + lim.rate * (now - t) as real
  {
    var swept := Swept(g, t);
    SweepKeepsLevels(lim, g, t, ip, t);
    TakesOne(lim, swept, q, t, ip, now);
  }

  lemma TakesOne(lim: Limits, g: Gate, q: string, t: int, ip: string, now: int)
    requires lim.Valid() && t <= now
    ensures var (g', ok) := Decided(lim, g, q, t);
            LevelOf(lim, g'.perIP, ip, now) + (if ok && q == ip then 1.0 else 0.0) <=
            LevelOf(lim, g.perIP, ip, t) + lim.rate * (now - t) as real
  {
    DecideLevels(lim, g, q, t, ip, now);
    if Decided(lim, g, q, t).1 && q == ip {
    } else {
      LevelGrows(lim, g.perIP, ip, t, now);
    }
  }

  lemma AfterRequest(lim: Limits, prior: seq<Op>, ops: seq<Op>, from: nat, ip: string, q: string, t: int, start: int,
                     now: int)
    requires lim.Valid() && Refills(lim) && InOrder(prior, t) && t <= now && from <= |prior|
    requires ops == prior + [Admit(q, t)] && Conserved(lim, prior, from, ip, start, t)
    ensures Conserved(lim, ops, from, ip, start, now)
  {
    var taken, left := Taken(lim, prior, from, ip) as real, LevelOf(lim, Exec(lim, true, prior).gate.perIP, ip, t);
    RequestTakes(lim, prior, ops, from, ip, q, t, now, taken, left);
    var after := Taken(lim, ops, from, ip) as real + LevelOf(lim, Exec(lim, true, ops).gate.perIP, ip, now);
    Refilled(lim, taken + left, after, start, t, now);
  }

  lemma Refilled(lim: Limits, before: real, after: real, start: int, t: int, now: int)
    requires before <= lim.burst as real + lim.rate * (t - start) as real
    requires after <= before + lim.rate * (now - t) as real
    ensures after <= lim.burst as real + lim.rate * (now - start) as real
  {
    ElapsedAdds(lim.rate, start, t, now);
  }

  lemma RequestTakes(lim: Limits, prior: seq<Op>, ops: seq<Op>, from: nat, ip: string, q: string, t: int, now: int,
                     taken: real, left: real)
    requires lim.Valid() && Refills(lim) && InOrder(prior, t) && t <= now && from <= |prior|
    requires ops == prior + [Admit(q, t)]
    requires taken == Taken(lim, prior, from, ip) as real
    requires left == LevelOf(lim, Exec(lim, true, prior).gate.perIP, ip, t)
    ensures Taken(lim, ops, from, ip) as real + LevelOf(lim, Exec(lim, true, ops).gate.perIP, ip, now)
         <= taken + left + lim.rate * (now - t) as real
  {
    var g := Exec(lim, true, prior).gate;
    ExecSnoc(lim, true, prior, Admit(q, t));
    assert ops[..|ops| - 1] == prior;
    RunsAlike(lim, prior, t);
    OneRequest(lim, g, q, t, ip, now);
    var (g', ok) := Admitted(lim, g, q, t);
    assert Taken(lim, ops, from, ip) == Taken(lim, prior, from, ip) + if ok && q == ip then 1 else 0;
  }

  lemma WhatIsLeftIsNoDebt(lim: Limits, ops: seq<Op>, ip: string, now: int)
    requires lim.Valid() && Refills(lim) && InOrder(ops, now)
    ensures LevelOf(lim, Exec(lim, true, ops).gate.perIP, ip, now) >= 0.0
  {
    RunsAlike(lim, ops, now);
    var perIP := Exec(lim, true, ops).gate.perIP;
    if ip in perIP {
      LevelBounds(lim, perIP[ip], now);
    }
  }

  lemma {:induction false} ClosedGateTakesNothing(lim: Limits, ops: seq<Op>, from: nat, ip: string)
    requires lim.maxConcurrent <= 0
    ensures Taken(lim, ops, from, ip) == 0
  {
    if |ops| > from {
      ClosedGateTakesNothing(lim, ops[..|ops| - 1], from, ip);
      NeverAdmitted(lim, ops[..|ops| - 1]);
    }
  }

  ghost predicate Lone(ops: seq<Op>) {
    forall i :: 0 <= i < |ops| && ops[i].Admit? ==> ops[i].ip == "x" && 0 <= ops[i].now
  }

  lemma {:induction false} VolleyIsLone(now: nat, earlier: nat, k: nat)
    ensures Lone(Volley(now, earlier, k))
  {
    if k > 0 {
      VolleyIsLone(now, earlier, k - 1);
    }
  }

  lemma {:induction false} LoneTakesAll(lim: Limits, ops: seq<Op>)
    requires Lone(ops)
    ensures Taken(lim, ops, 0, "x") == Exec(lim, true, ops).admitted
  {
    if ops != [] {
      assert ops[|ops| - 1].Admit? ==> ops[|ops| - 1].ip == "x";
      LoneTakesAll(lim, ops[..|ops| - 1]);
    }
  }

  /** Two bursts an idle period apart are both admitted, and outrun a rate that does not refill in time. */
  lemma TwoBurstsOutrun(lim: Limits, ops: seq<Op>)
    requires lim.Valid() && lim.maxConcurrent >= 1 && !Refills(lim)
    requires ops == Volley(0, 0, lim.burst) + Volley(IDLE + 1, lim.burst, lim.burst)
    ensures Between(ops, 0, 0, IDLE + 1) && !WithinRate(lim, ops, 0, "x", 0, IDLE + 1)
  {
    MulMonotone(lim.rate, 0.0, (IDLE + 1) as real);
    ShowingRunInOrder(lim);
    SecondBurstForgotten(lim);
    VolleyIsLone(0, 0, lim.burst);
    VolleyIsLone(IDLE + 1, lim.burst, lim.burst);
    assert Lone(ops);
    LoneTakesAll(lim, ops);
  }

  /**
   In every stretch of every run, one source is admitted at most burst + rate * length times: exactly
   when buckets refill within the idle period, or nothing is ever admitted.
   */
  lemma RateIsBounded(lim: Limits)
    requires lim.Valid()
    ensures (forall ops, from, ip, start, now :: Between(ops, from, start, now) ==>
                                                    WithinRate(lim, ops, from, ip, start, now))
       <==> (lim.maxConcurrent <= 0 || Refills(lim))
  {
    if lim.maxConcurrent <= 0 || Refills(lim) {
      forall ops, from, ip, start, now | Between(ops, from, start, now)
        ensures WithinRate(lim, ops, from, ip, start, now)
      {
        if lim.maxConcurrent <= 0 {
          ClosedGateTakesNothing(lim, ops, from, ip);
          MulMonotone(lim.rate, 0.0, (now - start) as real);
        } else {
          TokensAreConserved(lim, ops, from, ip, start, now);
          WhatIsLeftIsNoDebt(lim, ops, ip, now);
        }
      }
    } else {
      var ops := Volley(0, 0, lim.burst) + Volley(IDLE + 1, lim.burst, lim.burst);
      TwoBurstsOutrun(lim, ops);
      assert Between(ops, 0, 0, IDLE + 1) && !WithinRate(lim, ops, 0, "x", 0, IDLE + 1);
    }
  }
}
