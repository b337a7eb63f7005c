/**
 Choice of a chain's peeling hops (core/relaychain.go, selectHopsHeaded).

 The greedy fill is stated twice: as the function Select over a pool in a fixed order, whose
 properties are proved for every order, and as the method SelectHopsHeaded, which shuffles
 its candidates and loops over the four rungs of the diversity ladder.
 */
module HopSelection {
  import opened Wrappers

  /** One node a chain can peel a layer at. Its key is its id decoded; nodes are told apart by their ids, as strings. */
  datatype Hop = Hop(
    id: string,
    dial: string,
    operator: string,
    country: string,
    contradicted: bool,
    pairable: bool)

  /** The independent table that places an address in an autonomous system, or does not. */
  type Lookup = string -> Option<nat>

  /** The diversity bucket of a hop. Every hop the table cannot place shares Unknown. */
  datatype Bucket = Unknown | AS(number: nat)

  datatype Diversity = Diversity(asRepeated: bool, opRepeated: bool, resolved: nat, unresolved: nat) {
    predicate Degraded() {
      asRepeated || unresolved > 0
    }
  }

  datatype Fill = Fill(hops: seq<Hop>, div: Diversity)

  datatype SelectError = TooShort | NoPinnedHead

  const NO_DIVERSITY := Diversity(false, false, 0, 0)

  const EMPTY_FILL := Fill([], NO_DIVERSITY)

  function BucketOf(h: Hop, lookup: Lookup): Bucket {
    match lookup(h.dial)
    case Some(n) => AS(n)
    case None => Unknown
  }

  function Ids(hops: seq<Hop>): set<string> {
    set h | h in hops :: h.id
  }

  function Buckets(hops: seq<Hop>, lookup: Lookup): set<Bucket> {
    set h | h in hops :: BucketOf(h, lookup)
  }

  /** The operator tags in use. An empty tag is no assignment and never collides. */
  function Operators(hops: seq<Hop>): set<string> {
    set h | h in hops && h.operator != "" :: h.operator
  }

  // ---------- the fill over a pool in a fixed order ----------

  function Take(s: Fill, h: Hop, lookup: Lookup): Fill {
    var b := BucketOf(h, lookup);
    Fill(s.hops + [h],
         Diversity(s.div.asRepeated || b in Buckets(s.hops, lookup),
                   s.div.opRepeated || h.operator in Operators(s.hops),
                   s.div.resolved + (if b.AS? then 1 else 0),
                   s.div.unresolved + (if b.AS? then 0 else 1)))
  }

  predicate Admits(hops: seq<Hop>, h: Hop, needAS: bool, needOp: bool, lookup: Lookup) {
    && h.id !in Ids(hops)
    && (needAS ==> BucketOf(h, lookup).AS? && BucketOf(h, lookup) !in Buckets(hops, lookup))
    && (needOp ==> h.operator !in Operators(hops))
  }

  function Pass(pool: seq<Hop>, s: Fill, want: int, needAS: bool, needOp: bool, lookup: Lookup): Fill {
    if pool == [] || |s.hops| >= want then
      s
    else if Admits(s.hops, pool[0], needAS, needOp, lookup) then
      Pass(pool[1..], Take(s, pool[0], lookup), want, needAS, needOp, lookup)
    else
      Pass(pool[1..], s, want, needAS, needOp, lookup)
  }

  /** The two rungs that demand an unused autonomous system. */
  function StrictRungs(pool: seq<Hop>, s: Fill, want: int, lookup: Lookup): Fill {
    Pass(pool, Pass(pool, s, want, true, true, lookup), want, true, false, lookup)
  }

  /** The two rungs that do not. */
  function RelaxedRungs(pool: seq<Hop>, s: Fill, want: int, lookup: Lookup): Fill {
    Pass(pool, Pass(pool, s, want, false, true, lookup), want, false, false, lookup)
  }

  predicate CanHead(h: Hop, pin: string) {
    if pin != "" then h.id == pin else h.pairable
  }

  function Head(pool: seq<Hop>, pin: string): Option<Hop> {
    if pool == [] then None
    else if CanHead(pool[0], pin) then Some(pool[0])
    else Head(pool[1..], pin)
  }

  function Ladder(pool: seq<Hop>, head: Hop, want: int, lookup: Lookup): Fill {
    RelaxedRungs(pool, StrictRungs(pool, Take(EMPTY_FILL, head, lookup), want, lookup), want, lookup)
  }

  function Select(pool: seq<Hop>, want: int, pin: string, lookup: Lookup): Result<Fill, SelectError> {
    if want <= 0 then
      Ok(EMPTY_FILL)
    else
      match Head(pool, pin)
      case None => Err(if pin != "" then NoPinnedHead else TooShort)
      case Some(h) =>
        var s := Ladder(pool, h, want, lookup);
        if |s.hops| < want then Err(TooShort) else Ok(s)
  }

  // ---------- what a fill keeps ----------

  ghost predicate DistinctIds(hops: seq<Hop>) {
    forall i, j :: 0 <= i < j < |hops| ==> hops[i].id != hops[j].id
  }

  ghost predicate SharesBucket(hops: seq<Hop>, lookup: Lookup) {
    exists i, j :: 0 <= i < j < |hops| && BucketOf(hops[i], lookup) == BucketOf(hops[j], lookup)
  }

  ghost predicate SharesOperator(hops: seq<Hop>) {
    exists i, j :: 0 <= i < j < |hops| && hops[i].operator == hops[j].operator != ""
  }

  function CountPlaced(hops: seq<Hop>, lookup: Lookup): (n: nat)
    ensures n <= |hops|
  {
    if hops == [] then 0
    else CountPlaced(hops[..|hops| - 1], lookup) + (if BucketOf(hops[|hops| - 1], lookup).AS? then 1 else 0)
  }

  /** The report describes the hops it came with. */
  ghost predicate Truthful(s: Fill, lookup: Lookup) {
    && (s.div.asRepeated <==> SharesBucket(s.hops, lookup))
    && (s.div.opRepeated <==> SharesOperator(s.hops))
    && s.div.resolved == CountPlaced(s.hops, lookup)
    && s.div.unresolved == |s.hops| - CountPlaced(s.hops, lookup)
  }

  ghost predicate GoodFill(s: Fill, pool: seq<Hop>, lookup: Lookup) {
    && DistinctIds(s.hops)
    && Truthful(s, lookup)
    && forall h :: h in s.hops ==> h in pool
  }

  lemma AppendSharesBucket(hops: seq<Hop>, h: Hop, lookup: Lookup)
    ensures SharesBucket(hops + [h], lookup)
       <==> SharesBucket(hops, lookup) || BucketOf(h, lookup) in Buckets(hops, lookup)
  {
    var all, n := hops + [h], |hops|;
    if SharesBucket(hops, lookup) {
      var i, j :| 0 <= i < j < n && BucketOf(hops[i], lookup) == BucketOf(hops[j], lookup);
      assert BucketOf(all[i], lookup) == BucketOf(all[j], lookup);
    }
    if BucketOf(h, lookup) in Buckets(hops, lookup) {
      var i :| 0 <= i < n && BucketOf(hops[i], lookup) == BucketOf(h, lookup);
      assert BucketOf(all[i], lookup) == BucketOf(all[n], lookup);
    }
    if SharesBucket(all, lookup) {
      var i, j :| 0 <= i < j <= n && BucketOf(all[i], lookup) == BucketOf(all[j], lookup);
      assert hops[i] in hops;
      if j < n {
        assert BucketOf(hops[i], lookup) == BucketOf(hops[j], lookup);
      }
    }
  }

  lemma AppendSharesOperator(hops: seq<Hop>, h: Hop)
    ensures SharesOperator(hops + [h]) <==> SharesOperator(hops) || h.operator in Operators(hops)
  {
    var all, n := hops + [h], |hops|;
    if SharesOperator(hops) {
      var i, j :| 0 <= i < j < n && hops[i].operator == hops[j].operator != "";
      assert all[i].operator == all[j].operator != "";
    }
    if h.operator in Operators(hops) {
      var i :| 0 <= i < n && hops[i].operator == h.operator;
      assert all[i].operator == all[n].operator != "";
    }
    if SharesOperator(all) {
      var i, j :| 0 <= i < j <= n && all[i].operator == all[j].operator != "";
      assert hops[i] in hops;
      if j < n {
        assert hops[i].operator == hops[j].operator != "";
      }
    }
  }

  lemma TakeKeepsTruth(s: Fill, h: Hop, lookup: Lookup)
    requires Truthful(s, lookup)
    ensures Truthful(Take(s, h, lookup), lookup)
  {
    AppendSharesBucket(s.hops, h, lookup);
    AppendSharesOperator(s.hops, h);
    assert (s.hops + [h])[..|s.hops|] == s.hops;
  }

  lemma TakeKeepsGood(s: Fill, h: Hop, pool: seq<Hop>, lookup: Lookup)
    requires GoodFill(s, pool, lookup) && h in pool && h.id !in Ids(s.hops)
    ensures GoodFill(Take(s, h, lookup), pool, lookup)
  {
    TakeKeepsTruth(s, h, lookup);
  }

  lemma {:induction false} PassKeepsGood(rest: seq<Hop>, s: Fill, want: int, needAS: bool, needOp: bool,
                                         pool: seq<Hop>, lookup: Lookup)
    requires GoodFill(s, pool, lookup) && |s.hops| <= want
    requires forall h :: h in rest ==> h in pool
    ensures var t := Pass(rest, s, want, needAS, needOp, lookup);
            GoodFill(t, pool, lookup) && s.hops <= t.hops && |t.hops| <= want
  {
    if rest != [] && |s.hops| < want {
      if Admits(s.hops, rest[0], needAS, needOp, lookup) {
        TakeKeepsGood(s, rest[0], pool, lookup);
        PassKeepsGood(rest[1..], Take(s, rest[0], lookup), want, needAS, needOp, pool, lookup);
      } else {
        PassKeepsGood(rest[1..], s, want, needAS, needOp, pool, lookup);
      }
    }
  }

  lemma LadderKeepsGood(pool: seq<Hop>, head: Hop, want: int, lookup: Lookup)
    requires head in pool && want >= 1
    ensures var strict := StrictRungs(pool, Take(EMPTY_FILL, head, lookup), want, lookup);
            var all := Ladder(pool, head, want, lookup);
            && GoodFill(strict, pool, lookup) && |strict.hops| <= want && [head] <= strict.hops
            && GoodFill(all, pool, lookup) && |all.hops| <= want && strict.hops <= all.hops
  {
    var s0 := Take(EMPTY_FILL, head, lookup);
    HeadIsGood(pool, head, lookup);
    TwoPassesKeepGood(pool, s0, want, true, lookup);
    TwoPassesKeepGood(pool, StrictRungs(pool, s0, want, lookup), want, false, lookup);
  }

  lemma HeadIsGood(pool: seq<Hop>, head: Hop, lookup: Lookup)
    requires head in pool
    ensures GoodFill(Take(EMPTY_FILL, head, lookup), pool, lookup) && Take(EMPTY_FILL, head, lookup).hops == [head]
  {
    assert !SharesBucket([], lookup) && !SharesOperator([]);
    TakeKeepsGood(EMPTY_FILL, head, pool, lookup);
  }

  lemma TwoPassesKeepGood(pool: seq<Hop>, s: Fill, want: int, needAS: bool, lookup: Lookup)
    requires GoodFill(s, pool, lookup) && |s.hops| <= want
    ensures var t := Pass(pool, Pass(pool, s, want, needAS, true, lookup), want, needAS, false, lookup);
            GoodFill(t, pool, lookup) && s.hops <= t.hops && |t.hops| <= want
  {
    PassKeepsGood(pool, s, want, needAS, true, pool, lookup);
    var u := Pass(pool, s, want, needAS, true, lookup);
    PassKeepsGood(pool, u, want, needAS, false, pool, lookup);
  }

  lemma {:induction false} HeadFound(pool: seq<Hop>, pin: string)
    ensures Head(pool, pin).None? <==> forall h :: h in pool ==> !CanHead(h, pin)
    ensures Head(pool, pin).Some? ==> Head(pool, pin).value in pool && CanHead(Head(pool, pin).value, pin)
  {
    if pool != [] && !CanHead(pool[0], pin) {
      HeadFound(pool[1..], pin);
      assert forall h :: h in pool ==> h == pool[0] || h in pool[1..];
    }
  }

  // ---------- completeness: when the fill fails ----------

  /** The last rung leaves out no id it had room for. */
  lemma {:induction false} LastRungExhausts(rest: seq<Hop>, s: Fill, want: int, lookup: Lookup)
    ensures var t := Pass(rest, s, want, false, false, lookup);
            && s.hops <= t.hops
            && (|t.hops| < want ==> Ids(rest) <= Ids(t.hops))
  {
    if rest != [] && |s.hops| < want {
      var h := rest[0];
      var s' := if Admits(s.hops, h, false, false, lookup) then Take(s, h, lookup) else s;
      LastRungExhausts(rest[1..], s', want, lookup);
      var t := Pass(rest, s, want, false, false, lookup);
      assert h.id in Ids(s'.hops) by {
        if s' != s {
          assert s'.hops[|s.hops|] == h;
        }
      }
      assert forall k :: 0 <= k < |s'.hops| ==> s'.hops[k] == t.hops[k];
      assert Ids(s'.hops) <= Ids(t.hops);
      assert Ids(rest) <= Ids(rest[1..]) + {h.id};
    }
  }

  lemma {:induction false} DistinctIdsCount(hops: seq<Hop>)
    requires DistinctIds(hops)
    ensures |Ids(hops)| == |hops|
  {
    if hops != [] {
      var n := |hops| - 1;
      DistinctIdsCount(hops[..n]);
      assert Ids(hops) == Ids(hops[..n]) + {hops[n].id};
    }
  }

  lemma IdsSubset(a: seq<Hop>, b: seq<Hop>)
    requires forall h :: h in a ==> h in b
    ensures Ids(a) <= Ids(b) && |Ids(a)| <= |Ids(b)|
  {
    CardMonotone(Ids(a), Ids(b));
  }

  lemma {:induction false} CardMonotone<T>(a: set<T>, b: set<T>)
    requires a <= b
    ensures |a| <= |b|
  {
    assert b == a + (b - a);
    assert |b| == |a| + |b - a|;
  }

  /** The pool could supply the chain asked for. */
  ghost predicate Suppliable(pool: seq<Hop>, want: int, pin: string) {
    want <= 0 || ((exists h :: h in pool && (if pin == "" then h.pairable else h.id == pin)) && |Ids(pool)| >= want)
  }

  /**
   Selection succeeds exactly when some entry can head the chain and the pool holds enough distinct
   ids, whatever the order of the pool and whatever the table places. A success has the length asked
   for, uses no id twice, starts at a node that may head it, and reports itself truthfully.
   */
  lemma SelectIsComplete(pool: seq<Hop>, want: int, pin: string, lookup: Lookup)
    ensures Select(pool, want, pin, lookup).Ok? <==> Suppliable(pool, want, pin)
    ensures Select(pool, want, pin, lookup).Err? ==>
              (Select(pool, want, pin, lookup).error == NoPinnedHead <==>
                 pin != "" && forall h :: h in pool ==> h.id != pin)
    ensures Select(pool, want, pin, lookup).Ok? && want > 0 ==>
              var s := Select(pool, want, pin, lookup).value;
              && |s.hops| == want && GoodFill(s, pool, lookup)
              && (if pin == "" then s.hops[0].pairable else s.hops[0].id == pin)
  {
    HeadFound(pool, pin);
    if want > 0 && Head(pool, pin).Some? {
      var h := Head(pool, pin).value;
      LadderKeepsGood(pool, h, want, lookup);
      LadderFillsUp(pool, h, want, lookup);
    }
  }

  /** The ladder reaches the length asked for exactly when the pool holds that many ids. */
  lemma LadderFillsUp(pool: seq<Hop>, head: Hop, want: int, lookup: Lookup)
    requires head in pool && want >= 1
    ensures |Ladder(pool, head, want, lookup).hops| == want <==> |Ids(pool)| >= want
  {
    LadderKeepsGood(pool, head, want, lookup);
    var s := Ladder(pool, head, want, lookup).hops;
    DistinctIdsCount(s);
    IdsSubset(s, pool);
    if |s| < want {
      LadderExhausts(pool, head, want, lookup);
      CardMonotone(Ids(pool), Ids(s));
    }
  }

  lemma LadderExhausts(pool: seq<Hop>, head: Hop, want: int, lookup: Lookup)
    ensures var s := Ladder(pool, head, want, lookup); |s.hops| < want ==> Ids(pool) <= Ids(s.hops)
  {
    var s3 := Pass(pool, StrictRungs(pool, Take(EMPTY_FILL, head, lookup), want, lookup), want, false, true, lookup);
    LastRungExhausts(pool, s3, want, lookup);
  }

  /** A chain that is not reported degraded sits in pairwise distinct, resolved systems. */
  lemma UndegradedIsDiverse(s: Fill, pool: seq<Hop>, lookup: Lookup, i: nat, j: nat)
    requires GoodFill(s, pool, lookup) && !s.div.Degraded()
    requires i < j < |s.hops|
    ensures BucketOf(s.hops[i], lookup).AS? && BucketOf(s.hops[j], lookup).AS?
    ensures BucketOf(s.hops[i], lookup) != BucketOf(s.hops[j], lookup)
  {
    AllPlaced(s.hops, lookup, i);
    AllPlaced(s.hops, lookup, j);
  }

  lemma {:induction false} AllPlaced(hops: seq<Hop>, lookup: Lookup, i: nat)
    requires CountPlaced(hops, lookup) == |hops| && i < |hops|
    ensures BucketOf(hops[i], lookup).AS?
  {
    if i < |hops| - 1 {
      AllPlaced(hops[..|hops| - 1], lookup, i);
    }
  }

  // ---------- optimality: no chain covers more autonomous systems ----------

  ghost function Systems(hops: seq<Hop>, lookup: Lookup): set<nat> {
    set h | h in hops && lookup(h.dial).Some? :: lookup(h.dial).value
  }

  /**
   Two entries of one node, in two systems, and another node in the first one's system; none of them the
   head's, by id or by system. Taking the first entry wastes the node on a system the other could cover.
   */
  ghost predicate Swap(head: Hop, t1: Hop, o: Hop, t2: Hop, lookup: Lookup) {
    && t1.id == t2.id != o.id && head.id != t1.id && head.id != o.id
    && BucketOf(t1, lookup).AS? && BucketOf(o, lookup) == BucketOf(t1, lookup)
    && BucketOf(t2, lookup).AS? && BucketOf(t2, lookup) != BucketOf(t1, lookup)
    && BucketOf(head, lookup) != BucketOf(t1, lookup) && BucketOf(head, lookup) != BucketOf(t2, lookup)
  }

  ghost predicate OpsApart(hops: seq<Hop>) {
    forall i, j :: 0 <= i < j < |hops| && hops[i].operator == hops[j].operator ==> hops[i].operator == ""
  }

  /** What the first rung may have taken: a head, and hops that differ in node, placed system and operator. */
  ghost predicate FirstRung(chain: seq<Hop>, lookup: Lookup) {
    |chain| >= 1 && CanHead(chain[0], chain[0].id) && DistinctIds(chain) && Spread(chain, lookup) && OpsApart(chain)
  }

  /**
   A swap that greedy falls into behind such a chain: the chain touches neither node nor system of it, and
   the tags let the first entry in before the others. Either its operator is not in use, so that the first
   rung takes it; or the operators of all three are, so that the second rung meets them in any order.
   */
  ghost predicate Loss(chain: seq<Hop>, t1: Hop, o: Hop, t2: Hop, lookup: Lookup) {
    && FirstRung(chain, lookup) && Swap(chain[0], t1, o, t2, lookup)
    && t1.id !in Ids(chain) && o.id !in Ids(chain)
    && BucketOf(t1, lookup) !in Buckets(chain, lookup) && BucketOf(t2, lookup) !in Buckets(chain, lookup)
    && (|| t1.operator !in Operators(chain)
        || (t1.operator in Operators(chain) && o.operator in Operators(chain) && t2.operator in Operators(chain)))
  }

  ghost predicate Within(hops: seq<Hop>, pool: seq<Hop>) {
    forall h :: h in hops ==> h in pool
  }

  ghost predicate HasLoss(pool: seq<Hop>, head: Hop, lookup: Lookup) {
    exists chain, t1, o, t2 ::
      Loss(chain, t1, o, t2, lookup) && chain[0] == head && Within(chain, pool) && Within([t1, o, t2], pool)
  }

  /** A chain the same selection could have returned: this length, this head, drawn from this pool. */
  ghost predicate Rival(alt: seq<Hop>, head: Hop, want: int, pool: seq<Hop>) {
    && |alt| == want >= 1
    && alt[0] == head
    && DistinctIds(alt)
    && forall h :: h in alt ==> h in pool
  }

  lemma SystemsAppend(hops: seq<Hop>, h: Hop, lookup: Lookup)
    ensures Systems(hops + [h], lookup)
         == Systems(hops, lookup) + (if BucketOf(h, lookup).AS? then {BucketOf(h, lookup).number} else {})
  {
    var all := hops + [h];
    assert h == all[|hops|];
    assert forall g :: g in hops ==> g in all;
  }

  function HeadShare(head: Hop, lookup: Lookup): nat {
    if BucketOf(head, lookup).AS? then 1 else 0
  }

  /** A chain covers at most one system for each hop behind its head, and the head's own if placed. */
  lemma {:induction false} CoverageBound(hops: seq<Hop>, lookup: Lookup)
    requires |hops| >= 1
    ensures |Systems(hops, lookup)| <= |hops| - 1 + HeadShare(hops[0], lookup)
  {
    var n := |hops| - 1;
    assert hops[..n] + [hops[n]] == hops;
    SystemsAppend(hops[..n], hops[n], lookup);
    if n == 0 {
      assert hops[..n] == [];
      assert Systems([], lookup) == {};
    } else {
      CoverageBound(hops[..n], lookup);
    }
  }

  /** Every hop a strict rung takes adds a system the chain did not have. */
  lemma {:induction false} StrictPassGains(rest: seq<Hop>, s: Fill, want: int, needOp: bool, lookup: Lookup)
    ensures var t := Pass(rest, s, want, true, needOp, lookup);
            && s.hops <= t.hops
            && |Systems(t.hops, lookup)| == |Systems(s.hops, lookup)| + |t.hops| - |s.hops|
  {
    if rest != [] && |s.hops| < want {
      var h := rest[0];
      if Admits(s.hops, h, true, needOp, lookup) {
        SystemsAppend(s.hops, h, lookup);
        StrictPassGains(rest[1..], Take(s, h, lookup), want, needOp, lookup);
      } else {
        StrictPassGains(rest[1..], s, want, needOp, lookup);
      }
    }
  }

  /** Behind its head a strict chain sits in placed systems, and no two of its hops in one. */
  ghost predicate Spread(hops: seq<Hop>, lookup: Lookup) {
    && (forall i :: 1 <= i < |hops| ==> BucketOf(hops[i], lookup).AS?)
    && (forall i, j :: 0 <= i < j < |hops| ==> BucketOf(hops[i], lookup) != BucketOf(hops[j], lookup))
  }

  lemma {:induction false} StrictPassSpreads(rest: seq<Hop>, s: Fill, want: int, needOp: bool, lookup: Lookup)
    requires |s.hops| >= 1 && Spread(s.hops, lookup)
    ensures Spread(Pass(rest, s, want, true, needOp, lookup).hops, lookup)
  {
    if rest != [] && |s.hops| < want {
      var h := rest[0];
      if Admits(s.hops, h, true, needOp, lookup) {
        SpreadOne(s.hops, h, lookup);
        StrictPassSpreads(rest[1..], Take(s, h, lookup), want, needOp, lookup);
      } else {
        StrictPassSpreads(rest[1..], s, want, needOp, lookup);
      }
    }
  }

  lemma SpreadOne(hops: seq<Hop>, h: Hop, lookup: Lookup)
    requires Spread(hops, lookup) && BucketOf(h, lookup).AS? && BucketOf(h, lookup) !in Buckets(hops, lookup)
    ensures Spread(hops + [h], lookup)
  {
    assert forall i :: 0 <= i < |hops| ==> hops[i] in hops;
  }

  /** The chain has no use for this entry: it is unplaced, its system is covered, or its node is taken. */
  ghost predicate Spent(h: Hop, hops: seq<Hop>, lookup: Lookup) {
    BucketOf(h, lookup).AS? ==> BucketOf(h, lookup).number in Systems(hops, lookup) || h.id in Ids(hops)
  }

  /** A strict rung that stops short has no use left for any candidate. */
  lemma {:induction false} StrictPassExhausts(rest: seq<Hop>, s: Fill, want: int, lookup: Lookup)
    requires |Pass(rest, s, want, true, false, lookup).hops| < want
    ensures var t := Pass(rest, s, want, true, false, lookup);
            s.hops <= t.hops && forall h :: h in rest ==> Spent(h, t.hops, lookup)
  {
    if rest != [] && |s.hops| < want {
      var h := rest[0];
      var s' := if Admits(s.hops, h, true, false, lookup) then Take(s, h, lookup) else s;
      StrictPassExhausts(rest[1..], s', want, lookup);
      var t := Pass(rest, s, want, true, false, lookup);
      SystemsAppend(s.hops, h, lookup);
      assert s'.hops == s.hops || s'.hops == s.hops + [h];
      assert Spent(h, s'.hops, lookup);
      SpentStays(h, s'.hops, t.hops, lookup);
      assert rest == [h] + rest[1..];
    }
  }

  lemma SpentStays(h: Hop, hops: seq<Hop>, more: seq<Hop>, lookup: Lookup)
    requires Spent(h, hops, lookup) && hops <= more
    ensures Spent(h, more, lookup)
  {
    assert forall g :: g in hops ==> g in more;
  }

  lemma SystemsSubset(a: seq<Hop>, b: seq<Hop>, lookup: Lookup)
    requires forall h :: h in a ==> h in b
    ensures Systems(a, lookup) <= Systems(b, lookup) && |Systems(a, lookup)| <= |Systems(b, lookup)|
  {
    CardMonotone(Systems(a, lookup), Systems(b, lookup));
  }

  /** The strict rungs reach the full length, each hop in a system of its own, or leave no entry of use. */
  lemma StrictRungsExhaust(pool: seq<Hop>, head: Hop, want: int, lookup: Lookup)
    requires head in pool && want >= 1
    ensures var s := StrictRungs(pool, Take(EMPTY_FILL, head, lookup), want, lookup);
            && Spread(s.hops, lookup)
            && (|s.hops| == want ==> |Systems(s.hops, lookup)| == want - 1 + HeadShare(head, lookup))
            && (|s.hops| < want ==> forall h :: h in pool ==> Spent(h, s.hops, lookup))
  {
    var s0 := Take(EMPTY_FILL, head, lookup);
    var s1 := Pass(pool, s0, want, true, true, lookup);
    var s := Pass(pool, s1, want, true, false, lookup);
    StrictPassSpreads(pool, s0, want, true, lookup);
    StrictPassGains(pool, s0, want, true, lookup);
    StrictPassSpreads(pool, s1, want, false, lookup);
    StrictPassGains(pool, s1, want, false, lookup);
    SystemsAppend([], head, lookup);
    assert [] + [head] == s0.hops;
    if |s.hops| < want {
      StrictPassExhausts(pool, s1, want, lookup);
    }
  }

  /** The first rung leaves out, of what it has room for, only nodes taken, systems covered and operators in use. */
  ghost predicate Kept(h: Hop, hops: seq<Hop>, lookup: Lookup) {
    BucketOf(h, lookup).AS? ==>
      h.id in Ids(hops) || BucketOf(h, lookup) in Buckets(hops, lookup) || h.operator in Operators(hops)
  }

  lemma KeptStays(h: Hop, hops: seq<Hop>, more: seq<Hop>, lookup: Lookup)
    requires Kept(h, hops, lookup) && hops <= more
    ensures Kept(h, more, lookup)
  {
    assert forall g :: g in hops ==> g in more;
  }

  lemma {:induction false} FirstPassExhausts(rest: seq<Hop>, s: Fill, want: int, lookup: Lookup)
    requires |Pass(rest, s, want, true, true, lookup).hops| < want
    ensures var t := Pass(rest, s, want, true, true, lookup);
            s.hops <= t.hops && forall h :: h in rest ==> Kept(h, t.hops, lookup)
  {
    if rest != [] && |s.hops| < want {
      var h := rest[0];
      var s' := if Admits(s.hops, h, true, true, lookup) then Take(s, h, lookup) else s;
      FirstPassExhausts(rest[1..], s', want, lookup);
      assert s' != s ==> s'.hops[|s.hops|] == h;
      assert Kept(h, s'.hops, lookup);
      KeptStays(h, s'.hops, Pass(rest, s, want, true, true, lookup).hops, lookup);
      assert rest == [h] + rest[1..];
    }
  }

  lemma OpsApartOne(hops: seq<Hop>, h: Hop)
    requires OpsApart(hops) && h.operator !in Operators(hops)
    ensures OpsApart(hops + [h])
  {
    assert forall i :: 0 <= i < |hops| ==> hops[i] in hops;
  }

  lemma {:induction false} FirstPassKeepsOpsApart(rest: seq<Hop>, s: Fill, want: int, lookup: Lookup)
    requires OpsApart(s.hops)
    ensures OpsApart(Pass(rest, s, want, true, true, lookup).hops)
  {
    if rest != [] && |s.hops| < want {
      if Admits(s.hops, rest[0], true, true, lookup) {
        OpsApartOne(s.hops, rest[0]);
        FirstPassKeepsOpsApart(rest[1..], Take(s, rest[0], lookup), want, lookup);
      } else {
        FirstPassKeepsOpsApart(rest[1..], s, want, lookup);
      }
    }
  }

  /** What the strict rungs leave when they stop short: the first rung's chain, and all of it. */
  ghost predicate Stopped(pool: seq<Hop>, first: seq<Hop>, greedy: seq<Hop>, lookup: Lookup) {
    && FirstRung(first, lookup) && first <= greedy
    && DistinctIds(greedy) && Spread(greedy, lookup) && Within(greedy, pool)
    && (forall h :: h in pool ==> Kept(h, first, lookup) && Spent(h, greedy, lookup))
  }

  lemma StrictRungsStop(pool: seq<Hop>, head: Hop, want: int, lookup: Lookup)
    requires head in pool && CanHead(head, head.id)
    requires |StrictRungs(pool, Take(EMPTY_FILL, head, lookup), want, lookup).hops| < want
    ensures var s0 := Take(EMPTY_FILL, head, lookup);
            var first := Pass(pool, s0, want, true, true, lookup).hops;
            Stopped(pool, first, StrictRungs(pool, s0, want, lookup).hops, lookup) && first[0] == head
  {
    var s0 := Take(EMPTY_FILL, head, lookup);
    var s1 := Pass(pool, s0, want, true, true, lookup);
    HeadIsGood(pool, head, lookup);
    PassKeepsGood(pool, s0, want, true, true, pool, lookup);
    PassKeepsGood(pool, s1, want, true, false, pool, lookup);
    StrictPassSpreads(pool, s0, want, true, lookup);
    StrictPassSpreads(pool, s1, want, false, lookup);
    FirstPassKeepsOpsApart(pool, s0, want, lookup);
    FirstPassExhausts(pool, s0, want, lookup);
    StrictPassExhausts(pool, s1, want, lookup);
  }

  lemma SameIdSameHop(alt: seq<Hop>, g: Hop, h: Hop)
    requires DistinctIds(alt) && g in alt && h in alt
    ensures g.id == h.id ==> g == h
  {
    var i :| 0 <= i < |alt| && alt[i] == g;
    var j :| 0 <= j < |alt| && alt[j] == h;
  }

  lemma SameBucketSameHop(hops: seq<Hop>, g: Hop, h: Hop, lookup: Lookup)
    requires Spread(hops, lookup) && g in hops && h in hops && BucketOf(g, lookup) == BucketOf(h, lookup)
    ensures g == h
  {
    var i :| 0 <= i < |hops| && hops[i] == g;
    var j :| 0 <= j < |hops| && hops[j] == h;
  }

  // A rival's systems go over, one to one, into systems of the greedy chain.

  /** The first hop of a chain in a system. */
  ghost function At(hops: seq<Hop>, x: nat, lookup: Lookup): (r: Option<Hop>)
    ensures r.Some? <==> x in Systems(hops, lookup)
    ensures r.Some? ==> r.value in hops && BucketOf(r.value, lookup) == AS(x)
    ensures hops != [] && BucketOf(hops[0], lookup) == AS(x) ==> r == Some(hops[0])
  {
    if hops == [] then None
    else
      assert hops == [hops[0]] + hops[1..];
      if BucketOf(hops[0], lookup) == AS(x) then Some(hops[0]) else At(hops[1..], x, lookup)
  }

  ghost function ById(hops: seq<Hop>, id: string): (r: Option<Hop>)
    ensures r.Some? <==> id in Ids(hops)
    ensures r.Some? ==> r.value in hops && r.value.id == id
  {
    if hops == [] then None
    else
      assert hops == [hops[0]] + hops[1..];
      if hops[0].id == id then Some(hops[0]) else ById(hops[1..], id)
  }

  /** The hop is the rival's first in its own system, which it thus stands for. */
  ghost predicate Stands(alt: seq<Hop>, h: Hop, lookup: Lookup) {
    BucketOf(h, lookup).AS? && At(alt, BucketOf(h, lookup).number, lookup) == Some(h)
  }

  /**
   The greedy hop that answers for a rival's system x, covered there by o. If greedy uses o's node, the hop
   that is; else greedy covers x itself, by g, and that is the hop unless the rival uses g's node in another
   system y that it stands for: then the hop is the one by which greedy covers y.
   */
  ghost function Answer(greedy: seq<Hop>, alt: seq<Hop>, x: nat, lookup: Lookup): Option<Hop> {
    match At(alt, x, lookup)
    case None => None
    case Some(o) =>
      match ById(greedy, o.id)
      case Some(g) => Some(g)
      case None =>
        match At(greedy, x, lookup)
        case None => None
        case Some(g) =>
          match ById(alt, g.id)
          case None => Some(g)
          case Some(t2) => if Stands(alt, t2, lookup) then At(greedy, BucketOf(t2, lookup).number, lookup) else Some(g)
  }

  /** The facts the exchange rests on. */
  ghost predicate Compared(pool: seq<Hop>, first: seq<Hop>, greedy: seq<Hop>, alt: seq<Hop>, lookup: Lookup) {
    && Stopped(pool, first, greedy, lookup)
    && alt != [] && alt[0] == first[0] && DistinctIds(alt) && Within(alt, pool)
    && !HasLoss(pool, first[0], lookup)
  }

  /** A swap whose first entry the first rung took is a loss: nothing was in its way. */
  lemma TakenSwapIsLoss(pool: seq<Hop>, first: seq<Hop>, greedy: seq<Hop>, lookup: Lookup, g: Hop, o: Hop, t2: Hop)
    requires Stopped(pool, first, greedy, lookup) && g in first && o in pool && t2 in pool
    requires Swap(first[0], g, o, t2, lookup)
    ensures HasLoss(pool, first[0], lookup)
  {
    var head := first[0];
    assert head in greedy && g in greedy;
    OwnOperator(first, g);
    AloneIsLoss(head, g, o, t2, lookup);
    assert Within([head], pool) && Within([g, o, t2], pool);
  }

  lemma OwnOperator(first: seq<Hop>, g: Hop)
    requires first != [] && OpsApart(first) && g in first && g != first[0]
    ensures g.operator == first[0].operator ==> g.operator == ""
  {
    var i :| 0 <= i < |first| && first[i] == g;
  }

  /** Behind its head alone, a swap is a loss unless its first entry shares the head's operator. */
  lemma AloneIsLoss(head: Hop, t1: Hop, o: Hop, t2: Hop, lookup: Lookup)
    requires Swap(head, t1, o, t2, lookup) && CanHead(head, head.id)
    requires t1.operator == head.operator ==> t1.operator == ""
    ensures Loss([head], t1, o, t2, lookup)
  {
  }

  /** So is one the second rung met, if the first could have taken none of it but for their operators. */
  lemma HeldSwapIsLoss(pool: seq<Hop>, first: seq<Hop>, greedy: seq<Hop>, lookup: Lookup, g: Hop, o: Hop, t2: Hop)
    requires Stopped(pool, first, greedy, lookup) && g in pool && o in pool && t2 in pool
    requires Swap(first[0], g, o, t2, lookup) && g.id !in Ids(first) && o.id !in Ids(first)
    requires BucketOf(g, lookup) !in Buckets(first, lookup) && BucketOf(t2, lookup) !in Buckets(first, lookup)
    ensures HasLoss(pool, first[0], lookup)
  {
    assert Kept(g, first, lookup) && Kept(o, first, lookup) && Kept(t2, first, lookup);
    assert Loss(first, g, o, t2, lookup);
    assert forall h :: h in first ==> h in greedy;
    assert Within(first, pool) && Within([g, o, t2], pool);
  }

  /** Without a loss, a swap whose first entry greedy holds has its second system covered by the first rung. */
  lemma TwinIsCovered(pool: seq<Hop>, first: seq<Hop>, greedy: seq<Hop>, alt: seq<Hop>, lookup: Lookup, g: Hop,
                      o: Hop, t2: Hop)
    requires Compared(pool, first, greedy, alt, lookup)
    requires g in greedy && o in alt && t2 in alt && o.id !in Ids(greedy) && Swap(first[0], g, o, t2, lookup)
    ensures g !in first && BucketOf(t2, lookup) in Buckets(first, lookup)
  {
    assert forall h :: h in first ==> h in greedy;
    if g in first {
      TakenSwapIsLoss(pool, first, greedy, lookup, g, o, t2);
    } else {
      NotInFirst(first, greedy, g, lookup);
      if BucketOf(t2, lookup) !in Buckets(first, lookup) {
        HeldSwapIsLoss(pool, first, greedy, lookup, g, o, t2);
      }
    }
  }

  lemma NotInFirst(first: seq<Hop>, greedy: seq<Hop>, g: Hop, lookup: Lookup)
    requires first <= greedy && DistinctIds(greedy) && Spread(greedy, lookup) && g in greedy && g !in first
    ensures g.id !in Ids(first) && BucketOf(g, lookup) !in Buckets(first, lookup)
  {
    forall h | h in first
      ensures h.id != g.id && BucketOf(h, lookup) != BucketOf(g, lookup)
    {
      assert h in greedy;
      SameIdSameHop(greedy, g, h);
      if BucketOf(h, lookup) == BucketOf(g, lookup) {
        SameBucketSameHop(greedy, g, h, lookup);
      }
    }
  }

  /** How the answer for a system came about. */
  datatype Way = SameNode(g: Hop) | SameSystem(g: Hop) | ByTwin(g: Hop, t2: Hop, p: Hop)

  ghost predicate Goes(first: seq<Hop>, greedy: seq<Hop>, alt: seq<Hop>, lookup: Lookup, x: nat, w: Way, e: Hop) {
    && At(alt, x, lookup).Some?
    && var o := At(alt, x, lookup).value;
       match w
       case SameNode(g) => g in greedy && g.id == o.id && e == g && BucketOf(g, lookup).AS?
       case SameSystem(g) =>
         && o.id !in Ids(greedy) && g in greedy && BucketOf(g, lookup) == AS(x) && e == g
         && !exists t2 :: t2 in alt && t2.id == g.id && Stands(alt, t2, lookup)
       case ByTwin(g, t2, p) =>
         && o.id !in Ids(greedy) && g in greedy && BucketOf(g, lookup) == AS(x) && g !in first
         && t2 in alt && t2.id == g.id && Stands(alt, t2, lookup)
         && p in first && BucketOf(p, lookup) == BucketOf(t2, lookup) && e == p && p != first[0]
         && BucketOf(t2, lookup) != BucketOf(first[0], lookup)
  }

  /** Standing for the head's system is the head's own part. */
  lemma HeadStands(alt: seq<Hop>, h: Hop, lookup: Lookup)
    requires alt != [] && Stands(alt, h, lookup)
    ensures BucketOf(h, lookup) == BucketOf(alt[0], lookup) ==> h == alt[0]
  {
  }

  lemma AnswerGoes(pool: seq<Hop>, first: seq<Hop>, greedy: seq<Hop>, alt: seq<Hop>, lookup: Lookup, x: nat)
    returns (w: Way, e: Hop)
    requires Compared(pool, first, greedy, alt, lookup) && x in Systems(alt, lookup)
    ensures Goes(first, greedy, alt, lookup, x, w, e) && Answer(greedy, alt, x, lookup) == Some(e)
    ensures e in greedy && BucketOf(e, lookup).AS?
  {
    var o := At(alt, x, lookup).value;
    var head := first[0];
    assert head in first && head in greedy && greedy[0] == head;
    match ById(greedy, o.id)
    case Some(g) =>
      OwnHead(alt, o);
      PlacedBehindHead(greedy, g, lookup);
      w, e := SameNode(g), g;
    case None =>
      assert Spent(o, greedy, lookup);
      var g := At(greedy, x, lookup).value;
      assert g != head;
      SameIdSameHop(greedy, g, head);
      match ById(alt, g.id)
      case None => w, e := SameSystem(g), g;
      case Some(t2) =>
        if Stands(alt, t2, lookup) {
          w, e := TwinGoes(pool, first, greedy, alt, lookup, x, g, t2);
        } else {
          OnlyOne(alt, t2);
          w, e := SameSystem(g), g;
        }
  }

  lemma OnlyOne(alt: seq<Hop>, t2: Hop)
    requires DistinctIds(alt) && t2 in alt
    ensures forall h :: h in alt && h.id == t2.id ==> h == t2
  {
    forall h | h in alt && h.id == t2.id
      ensures h == t2
    {
      SameIdSameHop(alt, h, t2);
    }
  }

  lemma OwnHead(alt: seq<Hop>, o: Hop)
    requires alt != [] && DistinctIds(alt) && o in alt
    ensures o.id == alt[0].id ==> o == alt[0]
  {
    SameIdSameHop(alt, o, alt[0]);
  }

  lemma PlacedBehindHead(greedy: seq<Hop>, g: Hop, lookup: Lookup)
    requires greedy != [] && Spread(greedy, lookup) && g in greedy
    ensures g != greedy[0] ==> BucketOf(g, lookup).AS?
  {
    var i :| 0 <= i < |greedy| && greedy[i] == g;
  }

  lemma TwinGoes(pool: seq<Hop>, first: seq<Hop>, greedy: seq<Hop>, alt: seq<Hop>, lookup: Lookup, x: nat, g: Hop,
                 t2: Hop)
    returns (w: Way, e: Hop)
    requires Compared(pool, first, greedy, alt, lookup) && x in Systems(alt, lookup)
    requires At(alt, x, lookup).value.id !in Ids(greedy)
    requires g in greedy && BucketOf(g, lookup) == AS(x) && g.id != first[0].id
    requires ById(alt, g.id) == Some(t2) && Stands(alt, t2, lookup)
    requires At(greedy, x, lookup) == Some(g)
    ensures Goes(first, greedy, alt, lookup, x, w, e) && Answer(greedy, alt, x, lookup) == Some(e)
    ensures e in greedy && BucketOf(e, lookup).AS?
  {
    var o, head := At(alt, x, lookup).value, first[0];
    assert head in first && head in greedy;
    HeadStands(alt, t2, lookup);
    SameIdSameHop(alt, o, t2);
    if BucketOf(g, lookup) == BucketOf(head, lookup) {
      SameBucketSameHop(greedy, g, head, lookup);
    }
    assert Swap(head, g, o, t2, lookup);
    TwinIsCovered(pool, first, greedy, alt, lookup, g, o, t2);
    e :| e in first && BucketOf(e, lookup) == BucketOf(t2, lookup);
    OneOfSystem(greedy, e, t2, lookup);
    w := ByTwin(g, t2, e);
  }

  /** Of a system greedy covers behind its head, the hop that covers it is the one found. */
  lemma OneOfSystem(greedy: seq<Hop>, e: Hop, t2: Hop, lookup: Lookup)
    requires greedy != [] && Spread(greedy, lookup) && e in greedy
    requires BucketOf(e, lookup) == BucketOf(t2, lookup) && BucketOf(t2, lookup).AS?
    ensures At(greedy, BucketOf(t2, lookup).number, lookup) == Some(e)
  {
    SameBucketSameHop(greedy, e, At(greedy, BucketOf(t2, lookup).number, lookup).value, lookup);
  }

  /** No two systems of the rival get one answer. */
  lemma AnswersDiffer(pool: seq<Hop>, first: seq<Hop>, greedy: seq<Hop>, alt: seq<Hop>, lookup: Lookup,
                      x: nat, w: Way, y: nat, v: Way, e: Hop)
    requires Compared(pool, first, greedy, alt, lookup)
    requires Goes(first, greedy, alt, lookup, x, w, e) && Goes(first, greedy, alt, lookup, y, v, e)
    ensures x == y
  {
    var ox, oy := At(alt, x, lookup).value, At(alt, y, lookup).value;
    assert Stands(alt, ox, lookup) && Stands(alt, oy, lookup);
    match (w, v)
    case (SameNode(_), SameNode(_)) => SameIdSameHop(alt, ox, oy);
    case (SameNode(_), ByTwin(g, t2, p)) => NodeAndTwin(pool, first, greedy, alt, lookup, ox, g, t2, p);
    case (ByTwin(g, t2, p), SameNode(_)) => NodeAndTwin(pool, first, greedy, alt, lookup, oy, g, t2, p);
    case (ByTwin(g, t2, _), ByTwin(g', t2', _)) => SameIdSameHop(greedy, g, g');
    case _ =>
  }

  /** A node greedy's first rung took for the twin's system is not one the rival stands for a system with. */
  lemma NodeAndTwin(pool: seq<Hop>, first: seq<Hop>, greedy: seq<Hop>, alt: seq<Hop>, lookup: Lookup,
                    q: Hop, g: Hop, t2: Hop, p: Hop)
    requires Compared(pool, first, greedy, alt, lookup) && q in alt && Stands(alt, q, lookup)
    requires g in greedy && g !in first && t2 in alt && t2.id == g.id && Stands(alt, t2, lookup)
    requires p in first && p != first[0] && BucketOf(p, lookup) == BucketOf(t2, lookup)
    requires BucketOf(t2, lookup) != BucketOf(first[0], lookup)
    ensures q.id != p.id
  {
    var head := first[0];
    assert p in greedy && head in first && head in greedy;
    SameIdSameHop(greedy, p, g);
    SameIdSameHop(greedy, p, head);
    SameIdSameHop(greedy, g, head);
    HeadStands(alt, q, lookup);
    assert BucketOf(q, lookup) == BucketOf(t2, lookup) ==> q == t2;
    if q.id == p.id {
      TakenSwapIsLoss(pool, first, greedy, lookup, p, t2, q);
    }
  }

  /** The system that answers for a rival's system. */
  ghost function Target(greedy: seq<Hop>, alt: seq<Hop>, lookup: Lookup, x: nat): nat {
    match Answer(greedy, alt, x, lookup)
    case None => 0
    case Some(e) => if BucketOf(e, lookup).AS? then BucketOf(e, lookup).number else 0
  }

  lemma TargetIsCovered(pool: seq<Hop>, first: seq<Hop>, greedy: seq<Hop>, alt: seq<Hop>, lookup: Lookup, x: nat)
    requires Compared(pool, first, greedy, alt, lookup) && x in Systems(alt, lookup)
    ensures Target(greedy, alt, lookup, x) in Systems(greedy, lookup)
  {
    var w, e := AnswerGoes(pool, first, greedy, alt, lookup, x);
  }

  lemma TargetsDiffer(pool: seq<Hop>, first: seq<Hop>, greedy: seq<Hop>, alt: seq<Hop>, lookup: Lookup, x: nat, y: nat)
    requires Compared(pool, first, greedy, alt, lookup) && x in Systems(alt, lookup) && y in Systems(alt, lookup)
    ensures Target(greedy, alt, lookup, x) == Target(greedy, alt, lookup, y) ==> x == y
  {
    var w, e := AnswerGoes(pool, first, greedy, alt, lookup, x);
    var v, f := AnswerGoes(pool, first, greedy, alt, lookup, y);
    if BucketOf(e, lookup) == BucketOf(f, lookup) {
      SameBucketSameHop(greedy, e, f, lookup);
      AnswersDiffer(pool, first, greedy, alt, lookup, x, w, y, v, e);
    }
  }

  /** Any of the rival's systems are no more than the systems that answer for them. */
  lemma {:induction false} ExchangeBound(pool: seq<Hop>, first: seq<Hop>, greedy: seq<Hop>, alt: seq<Hop>,
                                         lookup: Lookup,
                                         xs: set<nat>, es: set<nat>)
    requires Compared(pool, first, greedy, alt, lookup) && xs <= Systems(alt, lookup)
    requires forall x :: x in xs ==> Target(greedy, alt, lookup, x) in es
    ensures |xs| <= |es|
    decreases xs
  {
    if xs != {} {
      var x :| x in xs;
      var e := Target(greedy, alt, lookup, x);
      forall y | y in xs - {x}
        ensures Target(greedy, alt, lookup, y) in es - {e}
      {
        TargetsDiffer(pool, first, greedy, alt, lookup, x, y);
      }
      ExchangeBound(pool, first, greedy, alt, lookup, xs - {x}, es - {e});
      assert |xs| == |xs - {x}| + 1 && |es| == |es - {e}| + 1;
    }
  }

  lemma NoRivalCoversMore(pool: seq<Hop>, first: seq<Hop>, greedy: seq<Hop>, alt: seq<Hop>, lookup: Lookup)
    requires Compared(pool, first, greedy, alt, lookup)
    ensures |Systems(alt, lookup)| <= |Systems(greedy, lookup)|
  {
    forall x | x in Systems(alt, lookup)
      ensures Target(greedy, alt, lookup, x) in Systems(greedy, lookup)
    {
      TargetIsCovered(pool, first, greedy, alt, lookup, x);
    }
    ExchangeBound(pool, first, greedy, alt, lookup, Systems(alt, lookup), Systems(greedy, lookup));
  }

  /**
   The greedy fill is optimal where the pool holds no loss behind its head: no chain of the same length and
   head drawn from the same pool covers more autonomous systems than the one returned, whatever order the
   shuffle left it in.
   */
  lemma SelectIsOptimal(pool: seq<Hop>, want: int, pin: string, lookup: Lookup, alt: seq<Hop>)
    requires want > 0 && Select(pool, want, pin, lookup).Ok?
    requires |Select(pool, want, pin, lookup).value.hops| > 0
    requires !HasLoss(pool, Select(pool, want, pin, lookup).value.hops[0], lookup)
    requires Rival(alt, Select(pool, want, pin, lookup).value.hops[0], want, pool)
    ensures |Systems(alt, lookup)| <= |Systems(Select(pool, want, pin, lookup).value.hops, lookup)|
  {
    HeadFound(pool, pin);
    var head := Head(pool, pin).value;
    LadderKeepsGood(pool, head, want, lookup);
    StrictRungsExhaust(pool, head, want, lookup);
    var s0 := Take(EMPTY_FILL, head, lookup);
    var strict := StrictRungs(pool, s0, want, lookup).hops;
    var out := Ladder(pool, head, want, lookup).hops;
    assert forall k :: 0 <= k < |strict| ==> strict[k] == out[k];
    SystemsSubset(strict, out, lookup);
    if |strict| == want {
      CoverageBound(alt, lookup);
    } else {
      StrictRungsStop(pool, head, want, lookup);
      NoRivalCoversMore(pool, Pass(pool, s0, want, true, true, lookup).hops, strict, alt, lookup);
    }
  }

  // Any loss makes greedy lose.

  /** The fill after taking these hops in order. */
  ghost function FillOf(hops: seq<Hop>, lookup: Lookup): (s: Fill)
    ensures s.hops == hops
  {
    if hops == [] then EMPTY_FILL
    else Take(FillOf(hops[..|hops| - 1], lookup), hops[|hops| - 1], lookup)
  }

  lemma FillOfSnoc(hops: seq<Hop>, h: Hop, lookup: Lookup)
    ensures FillOf(hops + [h], lookup) == Take(FillOf(hops, lookup), h, lookup)
  {
    assert (hops + [h])[..|hops|] == hops;
  }

  /** Nodes already taken are passed over on every rung. */
  lemma {:induction false} PassesOver(pre: seq<Hop>, rest: seq<Hop>, s: Fill, want: int, needAS: bool, needOp: bool,
                                      lookup: Lookup)
    requires forall h :: h in pre ==> h.id in Ids(s.hops)
    ensures Pass(pre + rest, s, want, needAS, needOp, lookup) == Pass(rest, s, want, needAS, needOp, lookup)
  {
    if pre == [] {
      assert pre + rest == rest;
    } else {
      assert (pre + rest)[0] == pre[0] && (pre + rest)[1..] == pre[1..] + rest;
      PassesOver(pre[1..], rest, s, want, needAS, needOp, lookup);
    }
  }

  lemma PassTakes(h: Hop, rest: seq<Hop>, s: Fill, want: int, lookup: Lookup)
    requires |s.hops| < want && Admits(s.hops, h, true, true, lookup)
    ensures Pass([h] + rest, s, want, true, true, lookup) == Pass(rest, Take(s, h, lookup), want, true, true, lookup)
  {
    assert ([h] + rest)[1..] == rest;
  }

  lemma ChainStep(chain: seq<Hop>, k: nat, rest: seq<Hop>, lookup: Lookup)
    requires k < |chain|
    ensures chain[k..] + rest == [chain[k]] + (chain[k + 1..] + rest)
    ensures FillOf(chain[..k + 1], lookup) == Take(FillOf(chain[..k], lookup), chain[k], lookup)
  {
    assert chain[..k + 1] == chain[..k] + [chain[k]];
    FillOfSnoc(chain[..k], chain[k], lookup);
  }

  /** The first rung takes the chain as it stands. */
  lemma {:induction false} TakesChain(chain: seq<Hop>, k: nat, rest: seq<Hop>, want: int, lookup: Lookup)
    requires FirstRung(chain, lookup) && 1 <= k <= |chain| < want
    ensures Pass(chain[k..] + rest, FillOf(chain[..k], lookup), want, true, true, lookup)
         == Pass(rest, FillOf(chain, lookup), want, true, true, lookup)
    decreases |chain| - k
  {
    if k == |chain| {
      assert chain[k..] + rest == rest && chain[..k] == chain;
    } else {
      TakesNext(chain, k, rest, want, lookup);
      TakesChain(chain, k + 1, rest, want, lookup);
    }
  }

  lemma TakesNext(chain: seq<Hop>, k: nat, rest: seq<Hop>, want: int, lookup: Lookup)
    requires FirstRung(chain, lookup) && 1 <= k < |chain| < want
    ensures Pass(chain[k..] + rest, FillOf(chain[..k], lookup), want, true, true, lookup)
         == Pass(chain[k + 1..] + rest, FillOf(chain[..k + 1], lookup), want, true, true, lookup)
  {
    NextAdmitted(chain, k, lookup);
    ChainStep(chain, k, rest, lookup);
    PassTakes(chain[k], chain[k + 1..] + rest, FillOf(chain[..k], lookup), want, lookup);
  }

  lemma NextAdmitted(chain: seq<Hop>, k: nat, lookup: Lookup)
    requires FirstRung(chain, lookup) && 1 <= k < |chain|
    ensures Admits(chain[..k], chain[k], true, true, lookup)
  {
    var before := chain[..k];
    forall g | g in before
      ensures g.id != chain[k].id && BucketOf(g, lookup) != BucketOf(chain[k], lookup)
      ensures g.operator == chain[k].operator ==> g.operator == ""
    {
      var i :| 0 <= i < |before| && before[i] == g;
    }
  }

  lemma FirstRungOver(chain: seq<Hop>, rest: seq<Hop>, want: int, lookup: Lookup)
    requires FirstRung(chain, lookup) && |chain| < want
    ensures Pass(chain + rest, Take(EMPTY_FILL, chain[0], lookup), want, true, true, lookup)
         == Pass(rest, FillOf(chain, lookup), want, true, true, lookup)
  {
    var s0 := Take(EMPTY_FILL, chain[0], lookup);
    assert [] + [chain[0]] == chain[..1];
    FillOfSnoc([], chain[0], lookup);
    assert s0.hops[0] == chain[0];
    assert chain + rest == chain[..1] + (chain[1..] + rest);
    PassesOver(chain[..1], chain[1..] + rest, s0, want, true, true, lookup);
    TakesChain(chain, 1, rest, want, lookup);
  }

  /** Once the first entry is in, neither strict rung takes the others. */
  lemma OthersLeft(s: Fill, t1: Hop, o: Hop, t2: Hop, want: int, needOp: bool, lookup: Lookup)
    requires t1 in s.hops && o.id !in Ids(s.hops) && t1.id == t2.id && BucketOf(o, lookup) == BucketOf(t1, lookup)
    ensures Pass([o, t2], s, want, true, needOp, lookup) == s
  {
    assert [o, t2][1..] == [t2] && [t2][1..] == [];
    assert Pass([t2], s, want, true, needOp, lookup) == s;
  }

  lemma TakesFirst(s: Fill, t1: Hop, o: Hop, t2: Hop, want: int, needOp: bool, lookup: Lookup)
    requires |s.hops| + 2 == want && Admits(s.hops, t1, true, needOp, lookup)
    requires t1.id == t2.id != o.id && o.id !in Ids(s.hops) && BucketOf(o, lookup) == BucketOf(t1, lookup)
    ensures Pass([t1, o, t2], s, want, true, needOp, lookup) == Take(s, t1, lookup)
  {
    var s1 := Take(s, t1, lookup);
    assert s1.hops[|s.hops|] == t1;
    assert [t1, o, t2][1..] == [o, t2];
    OthersLeft(s1, t1, o, t2, want, needOp, lookup);
  }

  lemma NoneAdmitted(s: Fill, t1: Hop, o: Hop, t2: Hop, want: int, lookup: Lookup)
    requires t1.operator in Operators(s.hops) && o.operator in Operators(s.hops) && t2.operator in Operators(s.hops)
    ensures Pass([t1, o, t2], s, want, true, true, lookup) == s
  {
    assert [t1, o, t2][1..] == [o, t2] && [o, t2][1..] == [t2] && [t2][1..] == [];
    assert Pass([t2], s, want, true, true, lookup) == s;
    assert Pass([o, t2], s, want, true, true, lookup) == s;
  }

  /** The first entry in, the second rung finds nothing more to take. */
  lemma SecondRungIdles(chain: seq<Hop>, t1: Hop, o: Hop, t2: Hop, lookup: Lookup, s1: Fill, want: int)
    requires s1.hops == chain + [t1] && o.id !in Ids(s1.hops)
    requires t1.id == t2.id && BucketOf(o, lookup) == BucketOf(t1, lookup)
    ensures Pass(chain + [t1, o, t2], s1, want, true, false, lookup) == s1
  {
    assert chain + [t1, o, t2] == (chain + [t1]) + [o, t2];
    PassesOver(chain + [t1], [o, t2], s1, want, true, false, lookup);
    assert s1.hops[|chain|] == t1;
    OthersLeft(s1, t1, o, t2, want, false, lookup);
  }

  /** Its operator free, the first rung takes the first entry, and the second rung nothing. */
  lemma FreeStrictRungs(chain: seq<Hop>, t1: Hop, o: Hop, t2: Hop, lookup: Lookup, s: Fill, s1: Fill, want: int)
    requires Loss(chain, t1, o, t2, lookup) && t1.operator !in Operators(chain) && want == |chain| + 2
    requires s == FillOf(chain, lookup) && s1 == Take(s, t1, lookup)
    ensures Pass([t1, o, t2], s, want, true, true, lookup) == s1
    ensures Pass(chain + [t1, o, t2], s1, want, true, false, lookup) == s1
  {
    TakesFirst(s, t1, o, t2, want, true, lookup);
    NotTheOther(chain, t1, o);
    SecondRungIdles(chain, t1, o, t2, lookup, s1, want);
  }

  lemma NotTheOther(chain: seq<Hop>, t1: Hop, o: Hop)
    requires o.id !in Ids(chain) && o.id != t1.id
    ensures o.id !in Ids(chain + [t1])
  {
    assert forall h :: h in chain + [t1] ==> h in chain || h == t1;
  }

  /** All operators in use, the first rung takes none of them and the second the first. */
  lemma HeldStrictRungs(chain: seq<Hop>, t1: Hop, o: Hop, t2: Hop, lookup: Lookup, s: Fill, want: int)
    requires Loss(chain, t1, o, t2, lookup) && t1.operator in Operators(chain) && want == |chain| + 2
    requires s == FillOf(chain, lookup)
    ensures Pass([t1, o, t2], s, want, true, true, lookup) == s
    ensures Pass(chain + [t1, o, t2], s, want, true, false, lookup) == FillOf(chain + [t1], lookup)
  {
    FillOfSnoc(chain, t1, lookup);
    NoneAdmitted(s, t1, o, t2, want, lookup);
    PassesOver(chain, [t1, o, t2], s, want, true, false, lookup);
    TakesFirst(s, t1, o, t2, want, false, lookup);
  }

  lemma LossStrictRungs(chain: seq<Hop>, t1: Hop, o: Hop, t2: Hop, lookup: Lookup, pool: seq<Hop>, want: int)
    requires Loss(chain, t1, o, t2, lookup) && pool == chain + [t1, o, t2] && want == |chain| + 2
    ensures StrictRungs(pool, Take(EMPTY_FILL, chain[0], lookup), want, lookup) == FillOf(chain + [t1], lookup)
  {
    FirstRungOver(chain, [t1, o, t2], want, lookup);
    if t1.operator !in Operators(chain) {
      FillOfSnoc(chain, t1, lookup);
      FreeStrictRungs(chain, t1, o, t2, lookup, FillOf(chain, lookup), FillOf(chain + [t1], lookup), want);
    } else {
      HeldStrictRungs(chain, t1, o, t2, lookup, FillOf(chain, lookup), want);
    }
  }

  lemma OnlyOtherFits(s: Fill, o: Hop, t2: Hop, want: int, needOp: bool, lookup: Lookup)
    requires |s.hops| + 1 == want && o.id !in Ids(s.hops) && t2.id in Ids(s.hops)
    ensures Pass([o, t2], s, want, false, needOp, lookup)
         == if needOp && o.operator in Operators(s.hops) then s else Take(s, o, lookup)
  {
    assert [o, t2][1..] == [t2] && [t2][1..] == [];
    assert Pass([t2], s, want, false, needOp, lookup) == s;
  }

  lemma LossRelaxedRungs(chain: seq<Hop>, t1: Hop, o: Hop, t2: Hop, lookup: Lookup, pool: seq<Hop>, want: int)
    requires Loss(chain, t1, o, t2, lookup) && pool == chain + [t1, o, t2] && want == |chain| + 2
    ensures RelaxedRungs(pool, FillOf(chain + [t1], lookup), want, lookup).hops == chain + [t1, o]
  {
    var s1 := FillOf(chain + [t1], lookup);
    assert s1.hops[|chain|] == t1;
    assert pool == (chain + [t1]) + [o, t2];
    NotTheOther(chain, t1, o);
    PassesOver(chain + [t1], [o, t2], s1, want, false, true, lookup);
    OnlyOtherFits(s1, o, t2, want, true, lookup);
    PassesOver(chain + [t1], [o, t2], s1, want, false, false, lookup);
    OnlyOtherFits(s1, o, t2, want, false, lookup);
    assert chain + [t1] + [o] == chain + [t1, o];
  }

  lemma LossSystems(chain: seq<Hop>, t1: Hop, o: Hop, t2: Hop, lookup: Lookup)
    requires Loss(chain, t1, o, t2, lookup)
    ensures |Systems(chain + [o, t2], lookup)| == |Systems(chain + [t1, o], lookup)| + 1
  {
    var y := BucketOf(t2, lookup).number;
    SystemsOfTwo(chain, t1, o, lookup);
    SystemsOfTwo(chain, o, t2, lookup);
    assert Systems(chain + [o, t2], lookup) == Systems(chain + [t1, o], lookup) + {y};
    assert y !in Systems(chain, lookup);
  }

  lemma SystemsOfTwo(chain: seq<Hop>, a: Hop, b: Hop, lookup: Lookup)
    requires BucketOf(a, lookup).AS? && BucketOf(b, lookup).AS?
    ensures Systems(chain + [a, b], lookup)
         == Systems(chain, lookup) + {BucketOf(a, lookup).number} + {BucketOf(b, lookup).number}
  {
    SystemsAppend(chain, a, lookup);
    SystemsAppend(chain + [a], b, lookup);
    assert chain + [a] + [b] == chain + [a, b];
  }

  lemma LossRival(chain: seq<Hop>, t1: Hop, o: Hop, t2: Hop, lookup: Lookup)
    requires Loss(chain, t1, o, t2, lookup)
    ensures Rival(chain + [o, t2], chain[0], |chain| + 2, chain + [t1, o, t2])
  {
    var alt := chain + [o, t2];
    forall i, j | 0 <= i < j < |alt|
      ensures alt[i].id != alt[j].id
    {
      assert i < |chain| ==> chain[i] in chain;
    }
  }

  /**
   With the entries of a loss in this order and the length asked for, greedy covers one system less than
   another chain of the same length and head drawn from them.
   */
  lemma LossLoses(chain: seq<Hop>, t1: Hop, o: Hop, t2: Hop, lookup: Lookup)
    requires Loss(chain, t1, o, t2, lookup)
    ensures var pool, alt, want := chain + [t1, o, t2], chain + [o, t2], |chain| + 2;
            var r := Select(pool, want, chain[0].id, lookup);
            && r.Ok? && r.value.hops == chain + [t1, o]
            && Rival(alt, chain[0], want, pool)
            && |Systems(alt, lookup)| == |Systems(r.value.hops, lookup)| + 1
  {
    var pool, want := chain + [t1, o, t2], |chain| + 2;
    assert pool[0] == chain[0];
    assert Head(pool, chain[0].id) == Some(chain[0]);
    LossStrictRungs(chain, t1, o, t2, lookup, pool, want);
    LossRelaxedRungs(chain, t1, o, t2, lookup, pool, want);
    LossRival(chain, t1, o, t2, lookup);
    LossSystems(chain, t1, o, t2, lookup);
  }

  // ---------- exactly when ----------

  ghost predicate Optimal(pool: seq<Hop>, want: int, pin: string, lookup: Lookup) {
    var r := Select(pool, want, pin, lookup);
    want > 0 && r.Ok? && |r.value.hops| > 0 ==>
      forall alt :: Rival(alt, r.value.hops[0], want, pool) ==>
                      |Systems(alt, lookup)| <= |Systems(r.value.hops, lookup)|
  }

  ghost predicate Lossy(listed: seq<Hop>, lookup: Lookup) {
    exists head :: HasLoss(listed, head, lookup)
  }

  lemma LossyLoses(listed: seq<Hop>, lookup: Lookup) returns (pool: seq<Hop>, want: int, pin: string)
    requires Lossy(listed, lookup)
    ensures Within(pool, listed) && !Optimal(pool, want, pin, lookup)
  {
    var head :| HasLoss(listed, head, lookup);
    var chain, t1, o, t2 :|
      Loss(chain, t1, o, t2, lookup) && chain[0] == head && Within(chain, listed) && Within([t1, o, t2], listed);
    pool, want, pin := chain + [t1, o, t2], |chain| + 2, head.id;
    NotOptimal(chain, t1, o, t2, lookup);
  }

  lemma NotOptimal(chain: seq<Hop>, t1: Hop, o: Hop, t2: Hop, lookup: Lookup)
    requires Loss(chain, t1, o, t2, lookup)
    ensures !Optimal(chain + [t1, o, t2], |chain| + 2, chain[0].id, lookup)
  {
    LossLoses(chain, t1, o, t2, lookup);
    assert Rival(chain + [o, t2], chain[0], |chain| + 2, chain + [t1, o, t2]);
  }

  lemma LossIsListed(pool: seq<Hop>, head: Hop, listed: seq<Hop>, lookup: Lookup)
    requires Within(pool, listed)
    ensures HasLoss(pool, head, lookup) ==> Lossy(listed, lookup)
  {
    if HasLoss(pool, head, lookup) {
      var chain, t1, o, t2 :|
        Loss(chain, t1, o, t2, lookup) && chain[0] == head && Within(chain, pool) && Within([t1, o, t2], pool);
      assert Within(chain, listed) && Within([t1, o, t2], listed);
      assert HasLoss(listed, head, lookup);
    }
  }

  lemma NoLossIsOptimal(pool: seq<Hop>, want: int, pin: string, lookup: Lookup, listed: seq<Hop>)
    requires Within(pool, listed) && !Lossy(listed, lookup)
    ensures Optimal(pool, want, pin, lookup)
  {
    var r := Select(pool, want, pin, lookup);
    if want > 0 && r.Ok? && |r.value.hops| > 0 {
      LossIsListed(pool, r.value.hops[0], listed, lookup);
      forall alt | Rival(alt, r.value.hops[0], want, pool)
        ensures |Systems(alt, lookup)| <= |Systems(r.value.hops, lookup)|
      {
        SelectIsOptimal(pool, want, pin, lookup, alt);
      }
    }
  }

  /**
   Greedy is optimal on every pool, order, length and pin drawn from a directory, exactly when the
   directory holds no loss.
   */
  lemma OptimalExactly(listed: seq<Hop>, lookup: Lookup)
    ensures (forall pool, want, pin :: Within(pool, listed) ==> Optimal(pool, want, pin, lookup))
       <==> !Lossy(listed, lookup)
  {
    if Lossy(listed, lookup) {
      var pool, want, pin := LossyLoses(listed, lookup);
      assert Within(pool, listed) && !Optimal(pool, want, pin, lookup);
    } else {
      forall pool, want, pin | Within(pool, listed)
        ensures Optimal(pool, want, pin, lookup)
      {
        NoLossIsOptimal(pool, want, pin, lookup, listed);
      }
    }
  }

  /** In particular a swap whose first entry carries no tag, or another than the head's, is one. */
  lemma PlainSwapIsLoss(listed: seq<Hop>, head: Hop, t1: Hop, o: Hop, t2: Hop, lookup: Lookup)
    requires Within([head], listed) && Within([t1, o, t2], listed) && Swap(head, t1, o, t2, lookup)
    requires CanHead(head, head.id) && (t1.operator == head.operator ==> t1.operator == "")
    ensures Lossy(listed, lookup)
  {
    AloneIsLoss(head, t1, o, t2, lookup);
    assert HasLoss(listed, head, lookup);
  }

  // ---------- a table that places nothing ----------

  /** The fill this replaced: operator-diverse first, then anything unused. */
  function OperatorFill(pool: seq<Hop>, hops: seq<Hop>, want: int, diverse: bool): seq<Hop> {
    if pool == [] || |hops| >= want then
      hops
    else if pool[0].id in Ids(hops) || (diverse && pool[0].operator in Operators(hops)) then
      OperatorFill(pool[1..], hops, want, diverse)
    else
      OperatorFill(pool[1..], hops + [pool[0]], want, diverse)
  }

  lemma {:induction false} RelaxedPassIsOperatorFill(rest: seq<Hop>, s: Fill, want: int, needOp: bool, lookup: Lookup)
    ensures Pass(rest, s, want, false, needOp, lookup).hops == OperatorFill(rest, s.hops, want, needOp)
  {
    if rest != [] && |s.hops| < want {
      if Admits(s.hops, rest[0], false, needOp, lookup) {
        RelaxedPassIsOperatorFill(rest[1..], Take(s, rest[0], lookup), want, needOp, lookup);
      } else {
        RelaxedPassIsOperatorFill(rest[1..], s, want, needOp, lookup);
      }
    }
  }

  lemma {:induction false} UnplacedPassTakesNothing(rest: seq<Hop>, s: Fill, want: int, needOp: bool, lookup: Lookup)
    requires forall h :: h in rest ==> BucketOf(h, lookup) == Unknown
    ensures Pass(rest, s, want, true, needOp, lookup) == s
  {
    if rest != [] && |s.hops| < want {
      assert BucketOf(rest[0], lookup) == Unknown;
      UnplacedPassTakesNothing(rest[1..], s, want, needOp, lookup);
    }
  }

  /** With no hop placed, selection is exactly the two-pass operator-diverse fill from the same order. */
  lemma NoTableIsOperatorFill(pool: seq<Hop>, want: int, pin: string, lookup: Lookup)
    requires forall h :: h in pool ==> BucketOf(h, lookup) == Unknown
    requires want > 0 && Select(pool, want, pin, lookup).Ok?
    ensures Head(pool, pin).Some?
    ensures Select(pool, want, pin, lookup).value.hops
         == OperatorFill(pool, OperatorFill(pool, [Head(pool, pin).value], want, true), want, false)
  {
    var s0 := Take(EMPTY_FILL, Head(pool, pin).value, lookup);
    assert s0.hops == [Head(pool, pin).value];
    UnplacedPassTakesNothing(pool, s0, want, true, lookup);
    UnplacedPassTakesNothing(pool, s0, want, false, lookup);
    RelaxedPassIsOperatorFill(pool, s0, want, true, lookup);
    RelaxedPassIsOperatorFill(pool, Pass(pool, s0, want, false, true, lookup), want, false, lookup);
  }

  // ---------- the selection as the source runs it ----------

  /** One index drawn for each place, from those not above it; the first has no choice. */
  predicate Drawn(draws: seq<nat>, n: nat) {
    |draws| == n && forall i :: 0 <= i < n ==> draws[i] <= i
  }

  function Exchanged<T>(s: seq<T>, i: nat, k: nat): seq<T>
    requires i < |s| && k < |s|
  {
    s[i := s[k]][k := s[i]]
  }

  /** The order these draws make of s, the last place filled first. */
  function Shuffled<T>(s: seq<T>, draws: seq<nat>): (t: seq<T>)
    requires Drawn(draws, |s|)
    ensures |t| == |s|
    decreases |s|
  {
    if |s| <= 1 then s
    else
      var n := |s| - 1;
      var t := Exchanged(s, n, draws[n]);
      Shuffled(t[..n], draws[..n]) + [t[n]]
  }

  lemma ExchangeKeepsAll<T>(s: seq<T>, i: nat, k: nat)
    requires i < |s| && k < |s|
    ensures multiset(Exchanged(s, i, k)) == multiset(s)
  {
  }

  lemma LastApart<T>(s: seq<T>)
    requires s != []
    ensures multiset(s) == multiset(s[..|s| - 1]) + multiset{s[|s| - 1]}
  {
    assert s == s[..|s| - 1] + [s[|s| - 1]];
  }

  /** Shuffling only changes the order. */
  lemma {:induction false} ShuffledIsPermuted<T>(s: seq<T>, draws: seq<nat>)
    requires Drawn(draws, |s|)
    ensures multiset(Shuffled(s, draws)) == multiset(s)
    decreases |s|
  {
    if |s| > 1 {
      var n := |s| - 1;
      var t := Exchanged(s, n, draws[n]);
      ShuffledIsPermuted(t[..n], draws[..n]);
      ExchangeKeepsAll(s, n, draws[n]);
      LastKeepsAll(t, Shuffled(t[..n], draws[..n]));
    }
  }

  lemma LastKeepsAll<T>(t: seq<T>, front: seq<T>)
    requires t != [] && multiset(front) == multiset(t[..|t| - 1])
    ensures multiset(front + [t[|t| - 1]]) == multiset(t)
  {
    LastApart(t);
  }

  ghost predicate AllDifferent<T(!new)>(s: seq<T>) {
    forall i, j :: 0 <= i < j < |s| ==> s[i] != s[j]
  }

  /** Every order of s comes of some draws. */
  lemma {:induction false} EveryOrderIsDrawn<T>(s: seq<T>, order: seq<T>) returns (draws: seq<nat>)
    requires multiset(order) == multiset(s)
    ensures Drawn(draws, |s|) && Shuffled(s, draws) == order
    decreases |s|
  {
    SameSize(s, order);
    if |s| <= 1 {
      draws := seq(|s|, _ => 0);
      if |s| == 1 {
        assert order[0] in multiset(s);
      }
    } else {
      var n := |s| - 1;
      var k := LastIsDrawn(s, order);
      var rest := EveryOrderIsDrawn(Exchanged(s, n, k)[..n], order[..n]);
      draws := rest + [k];
      OneMoreDraw(rest, k);
      LastDrawn(s, draws, Exchanged(s, n, k)[..n], order);
    }
  }

  lemma LastIsDrawn<T>(s: seq<T>, order: seq<T>) returns (k: nat)
    requires multiset(order) == multiset(s) && |order| == |s| > 1
    ensures k < |s| && s[k] == order[|s| - 1]
    ensures multiset(order[..|s| - 1]) == multiset(Exchanged(s, |s| - 1, k)[..|s| - 1])
  {
    var n := |s| - 1;
    assert order[n] in multiset(s);
    k :| k < |s| && s[k] == order[n];
    ExchangeKeepsAll(s, n, k);
    LastApart(Exchanged(s, n, k));
    LastApart(order);
    SameWithoutLast(multiset(order[..n]), multiset(Exchanged(s, n, k)[..n]), order[n]);
  }

  lemma SameWithoutLast<T>(a: multiset<T>, b: multiset<T>, x: T)
    requires a + multiset{x} == b + multiset{x}
    ensures a == b
  {
    assert a == (a + multiset{x}) - multiset{x};
    assert b == (b + multiset{x}) - multiset{x};
  }

  lemma LastDrawn<T>(s: seq<T>, draws: seq<nat>, front: seq<T>, order: seq<T>)
    requires 1 < |s| == |order| && Drawn(draws, |s|)
    requires front == Exchanged(s, |s| - 1, draws[|s| - 1])[..|s| - 1]
    requires Shuffled(front, draws[..|s| - 1]) == order[..|s| - 1]
    requires s[draws[|s| - 1]] == order[|s| - 1]
    ensures Shuffled(s, draws) == order
  {
    SplitLast(order);
  }

  lemma SplitLast<T>(s: seq<T>)
    requires s != []
    ensures s == s[..|s| - 1] + [s[|s| - 1]]
  {
  }

  lemma OneMoreDraw(rest: seq<nat>, k: nat)
    requires Drawn(rest, |rest|) && k <= |rest|
    ensures Drawn(rest + [k], |rest| + 1) && (rest + [k])[..|rest|] == rest && (rest + [k])[|rest|] == k
  {
  }

  lemma SameSize<T>(a: seq<T>, b: seq<T>)
    requires multiset(a) == multiset(b)
    ensures |a| == |b|
  {
    assert |multiset(a)| == |a| && |multiset(b)| == |b|;
  }

  lemma DifferentAfter<T(!new)>(s: seq<T>, k: nat)
    requires AllDifferent(s) && k < |s|
    ensures AllDifferent(Exchanged(s, |s| - 1, k)[..|s| - 1])
  {
  }

  /** And of no others: so uniform draws make every order of different hops equally likely. */
  lemma {:induction false} DrawnOnce<T(!new)>(s: seq<T>, a: seq<nat>, b: seq<nat>)
    requires AllDifferent(s) && Drawn(a, |s|) && Drawn(b, |s|) && Shuffled(s, a) == Shuffled(s, b)
    ensures a == b
    decreases |s|
  {
    if |s| > 1 {
      var n := |s| - 1;
      var t := Exchanged(s, n, a[n]);
      assert Shuffled(s, a)[n] == s[a[n]] && Shuffled(s, b)[n] == s[b[n]];
      assert a[n] == b[n];
      assert Shuffled(t[..n], a[..n]) == Shuffled(s, a)[..n];
      assert Shuffled(t[..n], b[..n]) == Shuffled(s, b)[..n];
      DifferentAfter(s, a[n]);
      DrawnOnce(t[..n], a[..n], b[..n]);
      assert a == a[..n] + [a[n]] && b == b[..n] + [b[n]];
    }
  }

  lemma OnePlaceMore<T>(s: seq<T>, draws: seq<nat>, i: nat)
    requires Drawn(draws, |s|) && 1 <= i < |s|
    ensures ShuffledFrom(s, draws, i + 1) == ShuffledFrom(Exchanged(s, i, draws[i]), draws, i)
  {
    var left, t := s[..i + 1], Exchanged(s, i, draws[i]);
    assert draws[..i + 1][..i] == draws[..i];
    assert Exchanged(left, i, draws[i])[..i] == t[..i];
    assert [t[i]] + s[i + 1..] == t[i..];
  }

  /** The indices are drawn uniformly in the source; here they are any in range. */
  method DrawIndices(n: nat) returns (draws: seq<nat>)
    ensures Drawn(draws, n)
  {
    draws := [];
    while |draws| < n
      invariant |draws| <= n && Drawn(draws, |draws|)
    {
      var k: nat :| k <= |draws|;
      draws := draws + [k];
    }
  }

  /** shuffleHops, over the indices drawn for it. */
  method ShuffleHops(a: array<Hop>, draws: seq<nat>)
    requires Drawn(draws, a.Length)
    modifies a
    ensures a[..] == Shuffled(old(a[..]), draws)
  {
    var i := a.Length;
    NoneShuffled(a[..], draws);
    while i > 1
      invariant 0 <= i <= a.Length
      invariant ShuffledFrom(a[..], draws, i) == Shuffled(old(a[..]), draws)
    {
      i := i - 1;
      OnePlaceMore(a[..], draws, i);
      var k := draws[i];
      ghost var was := a[..];
      a[i], a[k] := a[k], a[i];
      assert a[..] == Exchanged(was, i, k);
    }
    AllShuffled(a[..], draws, i);
  }

  /** The order, once all places but the first i are filled. */
  ghost function ShuffledFrom<T>(s: seq<T>, draws: seq<nat>, i: nat): seq<T>
    requires Drawn(draws, |s|) && i <= |s|
  {
    Shuffled(s[..i], draws[..i]) + s[i..]
  }

  lemma NoneShuffled<T>(s: seq<T>, draws: seq<nat>)
    requires Drawn(draws, |s|)
    ensures ShuffledFrom(s, draws, |s|) == Shuffled(s, draws)
  {
    assert s[..|s|] == s && draws[..|s|] == draws;
  }

  lemma AllShuffled<T>(s: seq<T>, draws: seq<nat>, i: nat)
    requires Drawn(draws, |s|) && i <= 1 && i <= |s|
    ensures ShuffledFrom(s, draws, i) == s
  {
  }

  /** The state the fill keeps beside its output: the ids, buckets and operators already in use. */
  ghost predicate Tracks(s: Fill, usedId: set<string>, usedAS: set<Bucket>, usedOp: set<string>, lookup: Lookup) {
    && usedId == Ids(s.hops)
    && usedAS == Buckets(s.hops, lookup)
    && usedOp == Operators(s.hops)
  }

  method TakeHop(s: Fill, usedId: set<string>, usedAS: set<Bucket>, usedOp: set<string>, h: Hop, lookup: Lookup)
    returns (t: Fill, usedId': set<string>, usedAS': set<Bucket>, usedOp': set<string>)
    requires Tracks(s, usedId, usedAS, usedOp, lookup)
    ensures t == Take(s, h, lookup)
    ensures Tracks(t, usedId', usedAS', usedOp', lookup)
  {
    var key := BucketOf(h, lookup);
    var div := s.div;
    if key in usedAS {
      div := div.(asRepeated := true);
    }
    if h.operator != "" && h.operator in usedOp {
      div := div.(opRepeated := true);
    }
    if key.AS? {
      div := div.(resolved := div.resolved + 1);
    } else {
      div := div.(unresolved := div.unresolved + 1);
    }
    t := Fill(s.hops + [h], div);
    usedId', usedAS', usedOp' := usedId + {h.id}, usedAS + {key}, usedOp;
    if h.operator != "" {
      usedOp' := usedOp + {h.operator};
    }
    assert forall g :: g in t.hops <==> g in s.hops || g == h;
  }

  /** One pass over the pool. */
  method FillPass(pool: seq<Hop>, s: Fill, usedId: set<string>, usedAS: set<Bucket>, usedOp: set<string>,
                  want: int, needAS: bool, needOp: bool, lookup: Lookup)
    returns (t: Fill, usedId': set<string>, usedAS': set<Bucket>, usedOp': set<string>)
    requires Tracks(s, usedId, usedAS, usedOp, lookup)
    ensures t == Pass(pool, s, want, needAS, needOp, lookup)
    ensures Tracks(t, usedId', usedAS', usedOp', lookup)
  {
    t, usedId', usedAS', usedOp' := s, usedId, usedAS, usedOp;
    var j := 0;
    while j < |pool| && |t.hops| < want
      invariant 0 <= j <= |pool|
      invariant Tracks(t, usedId', usedAS', usedOp', lookup)
      invariant Pass(pool, s, want, needAS, needOp, lookup) == Pass(pool[j..], t, want, needAS, needOp, lookup)
    {
      var h := pool[j];
      var key := BucketOf(h, lookup);
      if && h.id !in usedId'
         && !(needAS && (key.Unknown? || key in usedAS'))
         && !(needOp && h.operator != "" && h.operator in usedOp') {
        t, usedId', usedAS', usedOp' := TakeHop(t, usedId', usedAS', usedOp', h, lookup);
      }
      j := j + 1;
    }
  }

  method FillFrom(pool: seq<Hop>, want: int, pin: string, lookup: Lookup) returns (r: Result<Fill, SelectError>)
    ensures r == Select(pool, want, pin, lookup)
  {
    if want <= 0 {
      return Ok(EMPTY_FILL);
    }
    var out, usedId, usedAS, usedOp := EMPTY_FILL, {}, {}, {};
    var i := 0;
    while i < |pool| && !CanHead(pool[i], pin)
      invariant 0 <= i <= |pool|
      invariant Head(pool, pin) == Head(pool[i..], pin)
    {
      i := i + 1;
    }
    if i == |pool| {
      return Err(if pin != "" then NoPinnedHead else TooShort);
    }
    out, usedId, usedAS, usedOp := TakeHop(out, usedId, usedAS, usedOp, pool[i], lookup);
    ghost var start := out;
    var pass := 0;
    while pass < 4 && |out.hops| < want
      invariant 0 <= pass <= 4
      invariant Tracks(out, usedId, usedAS, usedOp, lookup)
      invariant RungsFrom(pool, start, 0, want, lookup) == RungsFrom(pool, out, pass, want, lookup)
    {
      var needAS, needOp := pass == 0 || pass == 1, pass == 0 || pass == 2;
      out, usedId, usedAS, usedOp := FillPass(pool, out, usedId, usedAS, usedOp, want, needAS, needOp, lookup);
      pass := pass + 1;
    }
    FullPassesAreInert(pool, out, pass, want, lookup);
    if |out.hops| < want {
      return Err(TooShort);
    }
    return Ok(out);
  }

  /** The rungs still to run, as the loop counts them. */
  ghost function RungsFrom(pool: seq<Hop>, s: Fill, pass: nat, want: int, lookup: Lookup): Fill
    decreases 4 - pass
  {
    if pass >= 4 then s
    else RungsFrom(pool, Pass(pool, s, want, pass <= 1, pass == 0 || pass == 2, lookup), pass + 1, want, lookup)
  }

  lemma {:induction false} FullPassesAreInert(pool: seq<Hop>, s: Fill, pass: nat, want: int, lookup: Lookup)
    requires pass >= 4 || |s.hops| >= want
    ensures RungsFrom(pool, s, pass, want, lookup) == s
    decreases 4 - pass
  {
    if pass < 4 {
      FullPassesAreInert(pool, s, pass + 1, want, lookup);
    }
  }

  /**
   selectHopsHeaded: drop the excluded id, shuffle, fill. The result is Select of some order of the
   remaining candidates, so every lemma above about Select speaks about it.
   */
  method SelectHopsHeaded(cand: seq<Hop>, want: int, exclude: string, pin: string, lookup: Lookup)
    returns (r: Result<Fill, SelectError>)
    ensures exists pool ::
              && multiset(pool) == multiset(Without(cand, exclude))
              && r == Select(pool, want, pin, lookup)
    ensures r.Ok? <==> Suppliable(Without(cand, exclude), want, pin)
    ensures r.Err? ==>
              (r.error == NoPinnedHead <==> pin != "" && forall h :: h in Without(cand, exclude) ==> h.id != pin)
    ensures want <= 0 ==> r == Ok(EMPTY_FILL)
    ensures r.Ok? && want > 0 ==>
              && |r.value.hops| == want
              && GoodFill(r.value, Without(cand, exclude), lookup)
              && (if pin == "" then r.value.hops[0].pairable else r.value.hops[0].id == pin)
    ensures r.Ok? && want > 0 && !HasLoss(Without(cand, exclude), r.value.hops[0], lookup) ==>
              forall alt :: Rival(alt, r.value.hops[0], want, Without(cand, exclude)) ==>
                              |Systems(alt, lookup)| <= |Systems(r.value.hops, lookup)|
  {
    var kept := [];
    var i := 0;
    while i < |cand|
      invariant 0 <= i <= |cand|
      invariant kept + Without(cand[i..], exclude) == Without(cand, exclude)
    {
      if cand[i].id != exclude {
        kept := kept + [cand[i]];
      }
      i := i + 1;
    }
    var a := new Hop[|kept|](k requires 0 <= k < |kept| => kept[k]);
    assert a[..] == kept == Without(cand, exclude);
    var draws := DrawIndices(|kept|);
    ShuffleHops(a, draws);
    ghost var pool := a[..];
    ShuffledIsPermuted(kept, draws);
    r := FillFrom(a[..], want, pin, lookup);
    SelectIsComplete(pool, want, pin, lookup);
    ShuffleChangesNothing(pool, Without(cand, exclude), want, pin, lookup);
    if r.Ok? && want > 0 && !HasLoss(Without(cand, exclude), r.value.hops[0], lookup) {
      forall alt | Rival(alt, r.value.hops[0], want, Without(cand, exclude))
        ensures |Systems(alt, lookup)| <= |Systems(r.value.hops, lookup)|
      {
        SelectIsOptimal(pool, want, pin, lookup, alt);
      }
    }
  }

  function Without(cand: seq<Hop>, exclude: string): seq<Hop> {
    if cand == [] then []
    else if cand[0].id == exclude then Without(cand[1..], exclude)
    else [cand[0]] + Without(cand[1..], exclude)
  }

  lemma {:induction false} WithoutHolds(cand: seq<Hop>, exclude: string, h: Hop)
    ensures h in Without(cand, exclude) <==> h in cand && h.id != exclude
  {
    if cand != [] {
      WithoutHolds(cand[1..], exclude, h);
      assert cand == [cand[0]] + cand[1..];
    }
  }

  /** Reordering a pool changes none of the notions selection is judged by. */
  lemma ShuffleChangesNothing(a: seq<Hop>, b: seq<Hop>, want: int, pin: string, lookup: Lookup)
    requires multiset(a) == multiset(b)
    ensures forall h :: h in a <==> h in b
    ensures Suppliable(a, want, pin) <==> Suppliable(b, want, pin)
    ensures forall head :: HasLoss(a, head, lookup) <==> HasLoss(b, head, lookup)
  {
    assert forall h :: h in a <==> h in multiset(a);
    assert forall h :: h in b <==> h in multiset(b);
    assert Ids(a) == Ids(b);
  }
}
