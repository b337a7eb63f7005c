/**
 Assembling a chain from the signed directory: the terminating exit and the hops that reach it
 (core/relaychain.go, exitsIn, selectChain, buildChainHeaded, rebuildChain).
 */
module ChainPlan {
  import opened Wrappers
  import opened HopSelection

  /** The verified snapshot both selections read, with the table that places addresses. */
  datatype Directory = Directory(hops: seq<Hop>, exitAddr: map<string, string>, lookup: Lookup)

  datatype Role = Exit | Relay | Coordinator

  /** One entry of the coordinator-signed snapshot. */
  datatype Entry = Entry(
    id: string,
    role: Role,
    addr: string,
    ingress: string,
    operator: string,
    country: string,
    contradicted: bool)

  predicate IsHex(c: char) {
    '0' <= c <= '9' || 'a' <= c <= 'f' || 'A' <= c <= 'F'
  }

  /** The id decodes to a 32-byte key, so a client can run a handshake against it. */
  predicate IsKey(id: string) {
    |id| == 64 && forall c :: c in id ==> IsHex(c)
  }

  function HexValue(c: char): nat
    requires IsHex(c)
  {
    if c <= '9' then c as int - '0' as int
    else if c >= 'a' then c as int - 'a' as int + 10
    else c as int - 'A' as int + 10
  }

  /** The key an id decodes to, by half-bytes. */
  function KeyOf(id: string): seq<nat>
    requires IsKey(id)
  {
    seq(|id|, i requires 0 <= i < |id| => HexValue(id[i]))
  }

  function Lower(c: char): char {
    if 'A' <= c <= 'F' then (c as int + 32) as char else c
  }

  function Lowered(id: string): string {
    seq(|id|, i requires 0 <= i < |id| => Lower(id[i]))
  }

  const LOWER_DIGITS := "0123456789abcdef"
  const UPPER_DIGITS := "0123456789ABCDEF"

  /** The id of a key, written with these digits. */
  function Written(key: seq<nat>, digits: string): string
    requires |digits| == 16 && forall i :: 0 <= i < |key| ==> key[i] < 16
  {
    seq(|key|, i requires 0 <= i < |key| => digits[key[i]])
  }

  /** Every 32-byte key decodes from its id written in either letter case, and an id decodes to nothing else. */
  lemma KeyRoundTrip(key: seq<nat>)
    requires |key| == 64 && forall i :: 0 <= i < |key| ==> key[i] < 16
    ensures IsKey(Written(key, LOWER_DIGITS)) && KeyOf(Written(key, LOWER_DIGITS)) == key
    ensures IsKey(Written(key, UPPER_DIGITS)) && KeyOf(Written(key, UPPER_DIGITS)) == key
  {
    forall n: nat | n < 16
      ensures IsHex(LOWER_DIGITS[n]) && HexValue(LOWER_DIGITS[n]) == n
      ensures IsHex(UPPER_DIGITS[n]) && HexValue(UPPER_DIGITS[n]) == n
    {
      DigitRoundTrip(n);
    }
  }

  lemma DigitRoundTrip(n: nat)
    requires n < 16
    ensures IsHex(LOWER_DIGITS[n]) && HexValue(LOWER_DIGITS[n]) == n
    ensures IsHex(UPPER_DIGITS[n]) && HexValue(UPPER_DIGITS[n]) == n
  {
  }

  /** And what an id decodes to is a key: 64 half-bytes. */
  lemma IdIsOfKey(id: string)
    requires IsKey(id)
    ensures |KeyOf(id)| == 64 && forall i :: 0 <= i < 64 ==> KeyOf(id)[i] < 16
  {
    forall i | 0 <= i < 64
      ensures KeyOf(id)[i] < 16
    {
      assert id[i] in id;
    }
  }

  /** Decoding takes both letter cases: two ids are one key exactly when they differ in case alone. */
  lemma SameKeyExactly(a: string, b: string)
    requires IsKey(a) && IsKey(b)
    ensures KeyOf(a) == KeyOf(b) <==> Lowered(a) == Lowered(b)
  {
    forall i | 0 <= i < 64
      ensures KeyOf(a)[i] == KeyOf(b)[i] <==> Lowered(a)[i] == Lowered(b)[i]
    {
      assert a[i] in a && b[i] in b;
    }
    if KeyOf(a) == KeyOf(b) {
      assert forall i :: 0 <= i < 64 ==> KeyOf(a)[i] == KeyOf(b)[i];
    }
    if Lowered(a) == Lowered(b) {
      assert forall i :: 0 <= i < 64 ==> Lowered(a)[i] == Lowered(b)[i];
    }
  }

  /** So hops hold distinct keys exactly when no two of their ids are the same but for letter case. */
  lemma DistinctKeysExactly(hops: seq<Hop>)
    requires forall h :: h in hops ==> IsKey(h.id)
    ensures (forall i, j :: 0 <= i < j < |hops| ==> KeyOf(hops[i].id) != KeyOf(hops[j].id))
       <==> (forall i, j :: 0 <= i < j < |hops| ==> Lowered(hops[i].id) != Lowered(hops[j].id))
  {
    forall i, j | 0 <= i < j < |hops|
      ensures KeyOf(hops[i].id) == KeyOf(hops[j].id) <==> Lowered(hops[i].id) == Lowered(hops[j].id)
    {
      SameKeyExactly(hops[i].id, hops[j].id);
    }
  }

  function DialOf(e: Entry): string {
    if e.ingress == "" && e.role == Exit then e.addr else e.ingress
  }

  /** An entry that can be a hop: its id is a key, and it has an ingress, or is an exit with an address. */
  ghost predicate CanHop(e: Entry) {
    IsKey(e.id) && (e.ingress != "" || (e.role == Exit && e.addr != ""))
  }

  /** The hop an entry becomes: dialed at its ingress, and only for want of one at its address. */
  ghost predicate EntryFor(h: Hop, e: Entry) {
    h == Hop(e.id, if e.ingress != "" then e.ingress else e.addr, e.operator, e.country, e.contradicted,
             e.role == Exit && e.addr != "")
  }

  /** The exit addresses are those of the entries that have one, the last one of each id. */
  ghost predicate Addressed(exitAddr: map<string, string>, entries: seq<Entry>) {
    && (forall e :: e in entries && e.role == Exit && e.addr != "" ==> e.id in exitAddr)
    && (forall id :: id in exitAddr ==> exists k :: 0 <= k < |entries| && LastAddress(entries, k, id, exitAddr[id]))
  }

  ghost predicate LastAddress(entries: seq<Entry>, k: nat, id: string, addr: string)
    requires k < |entries|
  {
    && entries[k].id == id && entries[k].role == Exit && entries[k].addr == addr != ""
    && forall j :: k < j < |entries| && entries[j].role == Exit && entries[j].addr != "" ==> entries[j].id != id
  }

  /** The hops are those the entries that can be one become. */
  ghost predicate Hopped(hops: seq<Hop>, entries: seq<Entry>) {
    forall h :: h in hops <==> exists e :: e in entries && CanHop(e) && EntryFor(h, e)
  }

  lemma OneMoreHop(hops: seq<Hop>, entries: seq<Entry>, e: Entry, after: seq<Hop>)
    requires Hopped(hops, entries)
    requires if CanHop(e) then exists h :: EntryFor(h, e) && after == hops + [h] else after == hops
    ensures Hopped(after, entries + [e])
  {
    forall h
      ensures h in after <==> exists x :: x in entries + [e] && CanHop(x) && EntryFor(h, x)
    {
      if x :| x in entries && CanHop(x) && EntryFor(h, x) {
        assert x in entries + [e];
      }
      assert e in entries + [e];
    }
  }

  lemma SomeHop(hops: seq<Hop>, entries: seq<Entry>)
    requires Hopped(hops, entries)
    ensures hops == [] <==> forall e :: e in entries ==> !CanHop(e)
  {
    forall e | e in entries && CanHop(e)
      ensures hops != []
    {
      var h := Hop(e.id, if e.ingress != "" then e.ingress else e.addr, e.operator, e.country, e.contradicted,
                   e.role == Exit && e.addr != "");
      assert EntryFor(h, e) && h in hops;
    }
    if hops != [] {
      assert hops[0] in hops;
    }
  }

  lemma OneMoreAddress(exitAddr: map<string, string>, entries: seq<Entry>, e: Entry, after: map<string, string>)
    requires Addressed(exitAddr, entries)
    requires after == if e.role == Exit && e.addr != "" then exitAddr[e.id := e.addr] else exitAddr
    ensures Addressed(after, entries + [e])
  {
    var all := entries + [e];
    forall id | id in after
      ensures exists k :: 0 <= k < |all| && LastAddress(all, k, id, after[id])
    {
      if e.role == Exit && e.addr != "" && id == e.id {
        assert LastAddress(all, |entries|, id, after[id]);
      } else {
        var k :| 0 <= k < |entries| && LastAddress(entries, k, id, exitAddr[id]);
        assert LastAddress(all, k, id, after[id]);
      }
    }
  }

  /** What every loaded directory guarantees its readers. */
  ghost predicate Loaded(d: Directory) {
    forall h :: h in d.hops ==>
                  && IsKey(h.id)
                  && h.dial != ""
                  && (h.pairable ==> h.id in d.exitAddr && d.exitAddr[h.id] != "")
  }

  /** loadRelayDirectory's indexing of a verified, unexpired snapshot; None when it names no usable hop. */
  method IndexEntries(entries: seq<Entry>, lookup: Lookup) returns (r: Option<Directory>)
    ensures r.None? <==> forall e :: e in entries ==> !CanHop(e)
    ensures r.Some? ==> Loaded(r.value) && r.value.lookup == lookup
    ensures r.Some? ==> Addressed(r.value.exitAddr, entries) && Hopped(r.value.hops, entries)
  {
    var hops: seq<Hop>, exitAddr: map<string, string> := [], map[];
    var i := 0;
    while i < |entries|
      invariant 0 <= i <= |entries|
      invariant Loaded(Directory(hops, exitAddr, lookup))
      invariant Addressed(exitAddr, entries[..i]) && Hopped(hops, entries[..i])
    {
      var e := entries[i];
      assert entries[..i + 1] == entries[..i] + [e];
      OneMoreAddress(exitAddr, entries[..i], e,
                     if e.role == Exit && e.addr != "" then exitAddr[e.id := e.addr] else exitAddr);
      if e.role == Exit && e.addr != "" {
        exitAddr := exitAddr[e.id := e.addr];
      }
      ghost var before := hops;
      if IsKey(e.id) && DialOf(e) != "" {
        hops := hops + [Hop(e.id, DialOf(e), e.operator, e.country, e.contradicted, e.role == Exit && e.addr != "")];
      }
      OneMoreHop(before, entries[..i], e, hops);
      i := i + 1;
    }
    assert entries[..i] == entries;
    SomeHop(hops, entries);
    if |hops| == 0 {
      return None;
    }
    return Some(Directory(hops, exitAddr, lookup));
  }

  /** Canonical country form; only that it is some function matters here. */
  type Canonical = string -> string

  datatype Plan = Plan(hops: seq<Hop>, exitId: string, exitDial: string, country: string)

  datatype ChainError = NoExit | Selection(error: SelectError) | NoChainToRebuild

  /**
   An exit a chain may end at: pairable, its country not contradicted, and in the country asked for, if one is.
   */
  ghost predicate UsableExit(d: Directory, h: Hop, country: string, canon: Canonical) {
    && h in d.hops
    && h.pairable && !h.contradicted
    && (canon(country) == "" || canon(h.country) == canon(country))
    && h.id in d.exitAddr && d.exitAddr[h.id] != ""
  }

  /** The candidates a selection that avoids cooling nodes may draw from; a pinned head always stays. */
  function HopsAvoiding(cand: seq<Hop>, avoid: set<string>, pin: string): seq<Hop> {
    if cand == [] then []
    else if cand[0].id == pin || cand[0].id !in avoid then [cand[0]] + HopsAvoiding(cand[1..], avoid, pin)
    else HopsAvoiding(cand[1..], avoid, pin)
  }

  lemma {:induction false} AvoidingHolds(cand: seq<Hop>, avoid: set<string>, pin: string, h: Hop)
    ensures h in HopsAvoiding(cand, avoid, pin) <==> h in cand && (h.id == pin || h.id !in avoid)
  {
    if cand != [] {
      AvoidingHolds(cand[1..], avoid, pin, h);
      assert cand == [cand[0]] + cand[1..];
    }
  }

  lemma {:induction false} AvoidingNothing(cand: seq<Hop>, pin: string)
    ensures HopsAvoiding(cand, {}, pin) == cand
  {
    if cand != [] {
      AvoidingNothing(cand[1..], pin);
    }
  }

  /** What the hops that reach this exit are drawn from. */
  ghost function Candidates(d: Directory, exitId: string, pin: string, avoid: set<string>): seq<Hop> {
    Without(HopsAvoiding(d.hops, avoid, pin), exitId)
  }

  /** The hops that reach this exit could be selected. */
  ghost predicate Reachable(d: Directory, exit: Hop, n: int, pin: string, avoid: set<string>) {
    Suppliable(Candidates(d, exit.id, pin, avoid), n - 1, pin)
  }

  /**
   By the directory's own table, no chain of this length behind this head covers more systems, unless the
   candidates hold a loss behind it.
   */
  ghost predicate MostDiverse(hops: seq<Hop>, d: Directory, exitId: string, n: int, pin: string, avoid: set<string>) {
    var cand := Candidates(d, exitId, pin, avoid);
    && Within(hops, cand)
    && (n > 1 && hops != [] && !HasLoss(cand, hops[0], d.lookup) ==>
          forall alt :: Rival(alt, hops[0], n - 1, cand) ==> |Systems(alt, d.lookup)| <= |Systems(hops, d.lookup)|)
  }

  /** The hops sit in pairwise different systems of the directory's table, all of them placed. */
  ghost predicate AllApart(hops: seq<Hop>, lookup: Lookup) {
    && EachPlaced(hops, lookup)
    && !SharesBucket(hops, lookup)
  }

  ghost predicate NoExitAvoiding(d: Directory, country: string, canon: Canonical, avoid: set<string>) {
    forall exit :: UsableExit(d, exit, country, canon) ==> exit.id in avoid
  }

  ghost predicate SomeExitOutOfReach(d: Directory, n: int, country: string, pin: string, canon: Canonical,
                                     avoid: set<string>) {
    exists exit :: UsableExit(d, exit, country, canon) && exit.id !in avoid && !Reachable(d, exit, n, pin, avoid)
  }

  /** A chain of depth n: n - 1 distinct hops, the first one allowed to head it, none of them its exit. */
  ghost predicate HopsFor(hops: seq<Hop>, d: Directory, exit: Hop, n: int, pin: string) {
    && |hops| == (if n > 1 then n - 1 else 0)
    && DistinctIds(hops)
    && (forall h :: h in hops ==> h in d.hops && h.id != exit.id)
    && (n > 1 ==> if pin == "" then hops[0].pairable else hops[0].id == pin)
  }

  ghost predicate GoodPlan(p: Plan, d: Directory, n: int, country: string, pin: string, canon: Canonical) {
    && p.country == country
    && exists exit ::
         && UsableExit(d, exit, country, canon)
         && p.exitId == exit.id
         && p.exitDial == d.exitAddr[exit.id]
         && HopsFor(p.hops, d, exit, n, pin)
  }

  /**
   While every exit that is not cooling is reachable through nodes that are not, nothing cooling is used but
   the pinned head.
   */
  ghost predicate AvoidsCooling(p: Plan, d: Directory, n: int, country: string, pin: string, canon: Canonical,
                                cooling: set<string>) {
    !NoExitAvoiding(d, country, canon, cooling) && !SomeExitOutOfReach(d, n, country, pin, canon, cooling) ==>
      NothingCooling(p, pin, cooling)
  }

  /** No exit at all can be reached, whatever is avoided. */
  ghost predicate NoChainAtAll(d: Directory, n: int, country: string, pin: string, canon: Canonical) {
    forall exit :: UsableExit(d, exit, country, canon) ==> forall avoid :: !Reachable(d, exit, n, pin, avoid)
  }

  method ExitsIn(d: Directory, country: string, canon: Canonical, avoid: set<string>) returns (usable: seq<Hop>)
    ensures forall h :: h in usable <==> UsableExit(d, h, country, canon) && h.id !in avoid
  {
    usable := [];
    var i := 0;
    while i < |d.hops|
      invariant 0 <= i <= |d.hops|
      invariant forall h :: h in usable <==> h in d.hops[..i] && UsableExit(d, h, country, canon) && h.id !in avoid
    {
      var h := d.hops[i];
      var there := canon(country) == "" || canon(h.country) == canon(country);
      if h.pairable && !h.contradicted && there && h.id in d.exitAddr && d.exitAddr[h.id] != "" && h.id !in avoid {
        usable := usable + [h];
      }
      assert d.hops[..i + 1] == d.hops[..i] + [h];
      i := i + 1;
    }
    assert d.hops[..i] == d.hops;
  }

  /** Why the hops that reach an exit could not be had: the pinned head is not there, or there are too few. */
  ghost predicate WhyNot(e: SelectError, d: Directory, exit: Hop, n: int, pin: string, avoid: set<string>) {
    && !Reachable(d, exit, n, pin, avoid)
    && (e == NoPinnedHead <==> pin != "" && forall h :: h in Candidates(d, exit.id, pin, avoid) ==> h.id != pin)
  }

  /** selectChain: one attempt at both selections, under one avoidance. */
  method SelectChain(d: Directory, n: int, country: string, pin: string, canon: Canonical, avoid: set<string>)
    returns (r: Result<(Hop, Fill), ChainError>)
    ensures r.Ok? ==>
              && UsableExit(d, r.value.0, country, canon) && r.value.0.id !in avoid
              && HopsFor(r.value.1.hops, d, r.value.0, n, pin)
              && forall h :: h in r.value.1.hops ==> h.id == pin || h.id !in avoid
    ensures r.Ok? ==> Reachable(d, r.value.0, n, pin, avoid)
    ensures r.Ok? ==> Truthful(r.value.1, d.lookup)
    ensures r.Ok? ==> MostDiverse(r.value.1.hops, d, r.value.0.id, n, pin, avoid)
    ensures r.Err? && r.error.Selection? ==>
              exists exit :: UsableExit(d, exit, country, canon) && exit.id !in avoid
                             && WhyNot(r.error.error, d, exit, n, pin, avoid)
    ensures r == Err(NoExit) <==> NoExitAvoiding(d, country, canon, avoid)
    ensures r.Err? && r.error != NoExit ==> SomeExitOutOfReach(d, n, country, pin, canon, avoid)
  {
    var usable := ExitsIn(d, country, canon, avoid);
    if |usable| == 0 {
      return Err(NoExit);
    }
    // The draw is uniform in the source; here it is any candidate.
    var k: nat :| k < |usable|;
    var exit := usable[k];
    assert exit in usable;
    var cand := HopsAvoiding(d.hops, avoid, pin);
    var picked := SelectHopsHeaded(cand, n - 1, exit.id, pin, d.lookup);
    if picked.Err? {
      assert WhyNot(picked.error, d, exit, n, pin, avoid);
      return Err(Selection(picked.error));
    }
    r := Ok((exit, picked.value));
    forall h | h in picked.value.hops
      ensures h in d.hops && h.id != exit.id && (h.id == pin || h.id !in avoid)
    {
      if n > 1 {
        WithoutHolds(cand, exit.id, h);
        AvoidingHolds(d.hops, avoid, pin, h);
      }
    }
    assert n <= 1 ==> picked.value.hops == [];
  }

  /** How loudly a weaker chain is reported: mildly when the table places none of its hops at all. */
  datatype Level = Mild | Grave

  /** What the user is told with a plan: that it reuses a node that just failed, and is weaker than its depth. */
  datatype Notices = Notices(reuses: bool, weak: Option<Level>)

  ghost predicate NothingCooling(p: Plan, pin: string, cooling: set<string>) {
    p.exitId !in cooling && forall h :: h in p.hops ==> h.id == pin || h.id !in cooling
  }

  /** The report of a truthful fill says exactly whether its hops are apart, and whether any is placed. */
  lemma DegradedExactly(s: Fill, lookup: Lookup)
    requires Truthful(s, lookup)
    ensures s.div.Degraded() <==> !AllApart(s.hops, lookup)
    ensures s.div.resolved == 0 <==> Systems(s.hops, lookup) == {}
  {
    CountsPlaced(s.hops, lookup);
    if CountPlaced(s.hops, lookup) > 0 {
      var i :| 0 <= i < |s.hops| && !BucketOf(s.hops[i], lookup).Unknown?;
      assert BucketOf(s.hops[i], lookup).number in Systems(s.hops, lookup);
    }
  }

  ghost predicate EachPlaced(hops: seq<Hop>, lookup: Lookup) {
    forall i :: 0 <= i < |hops| ==> BucketOf(hops[i], lookup).AS?
  }

  ghost predicate NonePlaced(hops: seq<Hop>, lookup: Lookup) {
    forall i :: 0 <= i < |hops| ==> BucketOf(hops[i], lookup).Unknown?
  }

  lemma {:induction false} CountsPlaced(hops: seq<Hop>, lookup: Lookup)
    ensures CountPlaced(hops, lookup) == |hops| <==> EachPlaced(hops, lookup)
    ensures CountPlaced(hops, lookup) == 0 <==> NonePlaced(hops, lookup)
  {
    if hops != [] {
      var front, last := hops[..|hops| - 1], hops[|hops| - 1];
      CountsPlaced(front, lookup);
      LastPlaced(front, last, hops, lookup);
    }
  }

  lemma LastPlaced(front: seq<Hop>, last: Hop, hops: seq<Hop>, lookup: Lookup)
    requires hops == front + [last]
    ensures EachPlaced(hops, lookup) <==> EachPlaced(front, lookup) && BucketOf(last, lookup).AS?
    ensures NonePlaced(hops, lookup) <==> NonePlaced(front, lookup) && BucketOf(last, lookup).Unknown?
  {
    var n := |front|;
    assert hops[n] == last;
    forall i | 0 <= i < n ensures BucketOf(hops[i], lookup) == BucketOf(front[i], lookup) {
    }
  }

  /**
   buildChainHeaded: prefer nodes that have not just failed, and fall back to the whole directory
   rather than refuse. What it never does is return a chain of another depth, country or head.
   */
  method BuildChainHeaded(d: Directory, n: int, country: string, pin: string, canon: Canonical, cooling: set<string>)
    returns (r: Result<Plan, ChainError>, told: Notices)
    ensures r.Ok? ==> GoodPlan(r.value, d, n, country, pin, canon)
    // By the table, it is as diverse as can be among the nodes it was drawn from, and the user is told the truth.
    ensures r.Ok? ==> MostDiverse(r.value.hops, d, r.value.exitId, n, pin, if told.reuses then {} else cooling)
    ensures r.Ok? ==> (told.weak.None? <==> AllApart(r.value.hops, d.lookup))
    ensures r.Ok? ==> (told.weak == Some(Mild) <==> r.value.hops != [] && Systems(r.value.hops, d.lookup) == {})
    // The nodes that are cooling are drawn on only after an attempt without them failed.
    ensures r.Ok? && !told.reuses ==> NothingCooling(r.value, pin, cooling)
    ensures told.reuses ==> NoExitAvoiding(d, country, canon, cooling)
                            || SomeExitOutOfReach(d, n, country, pin, canon, cooling)
    // What is reported is why that first attempt failed, and nothing is told of a plan that is not there.
    ensures r.Err? ==> told == Notices(false, None)
    ensures r.Err? ==> (r.error == NoExit <==> NoExitAvoiding(d, country, canon, cooling))
    // It fails only when an exit cannot be had, or some exit the draw may land on cannot be reached.
    ensures r.Err? ==> NoExitAvoiding(d, country, canon, {}) || SomeExitOutOfReach(d, n, country, pin, canon, {})
    // It fails whenever no exit at all can be reached.
    ensures NoChainAtAll(d, n, country, pin, canon) ==> r.Err?
    ensures r.Ok? ==> AvoidsCooling(r.value, d, n, country, pin, canon, cooling)
  {
    var got := SelectChain(d, n, country, pin, canon, cooling);
    told := Notices(false, None);
    if got.Err? {
      var relaxed := SelectChain(d, n, country, pin, canon, {});
      if relaxed.Err? {
        return Err(got.error), told;
      }
      got := relaxed;
      told := told.(reuses := true);
    }
    var (exit, fill) := got.value;
    if fill.div.Degraded() {
      told := told.(weak := Some(if fill.div.resolved == 0 then Mild else Grave));
    }
    DegradedExactly(fill, d.lookup);
    r := Ok(Plan(fill.hops, exit.id, d.exitAddr[exit.id], country));
  }

  /** rebuildChain: a whole fresh chain of the same depth, in the same country, behind the same head. */
  method RebuildChain(prev: Plan, d: Directory, canon: Canonical, cooling: set<string>)
    returns (r: Result<Plan, ChainError>, told: Notices)
    ensures prev.hops == [] ==> r == Err(NoChainToRebuild)
    ensures r.Ok? ==> prev.hops != []
                      && GoodPlan(r.value, d, |prev.hops| + 1, prev.country, prev.hops[0].id, canon)
                      && AvoidsCooling(r.value, d, |prev.hops| + 1, prev.country, prev.hops[0].id, canon, cooling)
    ensures r.Ok? ==> MostDiverse(r.value.hops, d, r.value.exitId, |prev.hops| + 1, prev.hops[0].id,
                                  if told.reuses then {} else cooling)
    ensures r.Ok? ==> (told.weak.None? <==> AllApart(r.value.hops, d.lookup))
    ensures r.Err? ==> told == Notices(false, None)
    ensures told.reuses ==>
              || NoExitAvoiding(d, prev.country, canon, cooling)
              || SomeExitOutOfReach(d, |prev.hops| + 1, prev.country, prev.hops[0].id, canon, cooling)
    ensures r.Err? && prev.hops != [] ==>
              || NoExitAvoiding(d, prev.country, canon, {})
              || SomeExitOutOfReach(d, |prev.hops| + 1, prev.country, prev.hops[0].id, canon, {})
    ensures prev.hops != [] && NoChainAtAll(d, |prev.hops| + 1, prev.country, prev.hops[0].id, canon) ==> r.Err?
  {
    if |prev.hops| == 0 {
      return Err(NoChainToRebuild), Notices(false, None);
    }
    r, told := BuildChainHeaded(d, |prev.hops| + 1, prev.country, prev.hops[0].id, canon, cooling);
  }
}
