/**
 What an intermediate hop will carry: forwarded circuits bounded per previous hop and in aggregate,
 with a bounded memory of idle neighbours (core/relaychain.go, forwardLimits).
 */
module ForwardLimits {

  const DEFAULT_MAX_PER_PEER := 32
  const DEFAULT_MAX_TOTAL := 256

  /** One previous hop. Its pace bucket matters only as an identity. */
  datatype Peer = Peer(circuits: int, pace: nat, saturated: bool, refused: nat)

  datatype Limits = Limits(
    maxPerPeer: int,
    maxTotal: int,
    total: int,
    saturated: bool,
    refused: nat,
    peers: map<string, Peer>,
    idle: seq<string>,   // most recently idled first
    nextPace: nat)

  datatype Cause = NodeBusy | PeerBusy

  datatype Reply = Granted(pace: nat) | Busy(cause: Cause, first: bool)

  // ---------- the transitions ----------

  function NewLimits(perPeer: int, total: int): Limits {
    var each := if perPeer <= 0 then DEFAULT_MAX_PER_PEER else perPeer;
    var all := if total <= 0 then DEFAULT_MAX_TOTAL else total;
    Limits(if each > all then all else each, all, 0, false, 0, map[], [], 0)
  }

  function Removed(idle: seq<string>, peer: string): seq<string> {
    if idle == [] then []
    else if idle[0] == peer then Removed(idle[1..], peer)
    else [idle[0]] + Removed(idle[1..], peer)
  }

  /** The record acquire works on: the peer's own, or a new one with a fresh bucket. */
  function Record(s: Limits, peer: string): Peer {
    if peer in s.peers then s.peers[peer] else Peer(0, s.nextPace, false, 0)
  }

  function Acquired(s: Limits, peer: string): (Limits, Reply) {
    if s.total >= s.maxTotal then
      (s.(saturated := true, refused := s.refused + 1), Busy(NodeBusy, !s.saturated))
    else
      var p := Record(s, peer);
      var t := s.(idle := Removed(s.idle, peer), nextPace := if peer in s.peers then s.nextPace else s.nextPace + 1);
      if p.circuits >= s.maxPerPeer then
        (t.(peers := if p.circuits == 0 then s.peers - {peer}
                     else s.peers[peer := p.(saturated := true, refused := p.refused + 1)]),
         Busy(PeerBusy, !p.saturated))
      else
        (t.(peers := s.peers[peer := p.(circuits := p.circuits + 1)], total := s.total + 1), Granted(p.pace))
  }

  /** Evict the least recently idled until the memory fits. */
  function Trimmed(s: Limits): Limits
    decreases |s.idle|
  {
    if |s.idle| == 0 || |s.idle| <= s.maxTotal then s
    else
      var back := |s.idle| - 1;
      Trimmed(s.(idle := s.idle[..back], peers := s.peers - {s.idle[back]}))
  }

  function Retired(s: Limits, peer: string): Limits {
    Trimmed(s.(idle := [peer] + s.idle))
  }

  datatype Episode = Episode(refused: nat, ended: bool)

  /** The slot given back and both episodes closed, before an idle peer is retired. */
  function Lowered(s: Limits, peer: string): Limits {
    var t := s.(total := if s.total > 0 then s.total - 1 else s.total, saturated := false,
                refused := if s.saturated then 0 else s.refused);
    if peer !in s.peers then t
    else
      var p := s.peers[peer];
      t.(peers := s.peers[peer := p.(circuits := p.circuits - 1, saturated := false,
                                     refused := if p.saturated then 0 else p.refused)])
  }

  function Released(s: Limits, peer: string): (Limits, Episode) {
    var node := if s.saturated then s.refused else 0;
    var own := if peer in s.peers && s.peers[peer].saturated then s.peers[peer].refused else 0;
    var ended := s.saturated || (peer in s.peers && s.peers[peer].saturated);
    var t := Lowered(s, peer);
    (if peer in t.peers && t.peers[peer].circuits <= 0 then Retired(t, peer) else t, Episode(node + own, ended))
  }

  // ---------- the object, as the source updates it ----------

  class Allocator {
    const maxPerPeer: int
    const maxTotal: int
    var total: int
    var saturated: bool
    var refused: nat
    var peers: map<string, Peer>
    var idle: seq<string>
    var nextPace: nat

    ghost function View(): Limits
      reads this
    {
      Limits(maxPerPeer, maxTotal, total, saturated, refused, peers, idle, nextPace)
    }

    constructor (perPeer: int, total: int)
      ensures View() == NewLimits(perPeer, total)
    {
      var each, all := perPeer, total;
      if each <= 0 {
        each := DEFAULT_MAX_PER_PEER;
      }
      if all <= 0 {
        all := DEFAULT_MAX_TOTAL;
      }
      if each > all {
        each := all;
      }
      maxPerPeer, maxTotal, this.total := each, all, 0;
      saturated, refused, peers, idle, nextPace := false, 0, map[], [], 0;
    }

    method Acquire(peer: string) returns (r: Reply)
      modifies this
      ensures (View(), r) == Acquired(old(View()), peer)
    {
      if total >= maxTotal {
        r := Busy(NodeBusy, !saturated);
        saturated, refused := true, refused + 1;
        return;
      }
      var p;
      if peer in peers {
        p := peers[peer];
      } else {
        p := Peer(0, nextPace, false, 0);
        nextPace := nextPace + 1;
      }
      idle := Removed(idle, peer);
      if p.circuits >= maxPerPeer {
        r := Busy(PeerBusy, !p.saturated);
        peers := if p.circuits == 0 then peers - {peer}
                 else peers[peer := p.(saturated := true, refused := p.refused + 1)];
        return;
      }
      peers := peers[peer := p.(circuits := p.circuits + 1)];
      total := total + 1;
      r := Granted(p.pace);
    }

    method Release(peer: string) returns (e: Episode)
      modifies this
      ensures (View(), e) == Released(old(View()), peer)
    {
      e := Episode(0, false);
      if total > 0 {
        total := total - 1;
      }
      if saturated {
        e := Episode(refused, true);
        saturated, refused := false, 0;
      }
      if peer in peers {
        var p := peers[peer];
        p := p.(circuits := p.circuits - 1);
        if p.saturated {
          e := Episode(e.refused + p.refused, true);
          p := p.(saturated := false, refused := 0);
        }
        peers := peers[peer := p];
        if p.circuits <= 0 {
          RetirePeer(peer);
        }
      }
    }

    method RetirePeer(peer: string)
      modifies this`idle, this`peers
      ensures View() == Retired(old(View()), peer)
    {
      idle := [peer] + idle;
      while |idle| > 0 && |idle| > maxTotal
        invariant Trimmed(View()) == Retired(old(View()), peer)
        decreases |idle|
      {
        var back := idle[|idle| - 1];
        idle := idle[..|idle| - 1];
        peers := peers - {back};
      }
    }
  }

  // ---------- runs, and what the outside world can count ----------

  datatype Op = Acquire(peer: string) | Release(peer: string)

  /**
   The allocator beside an independent account of the same run: which circuits are held, how many
   acquires were turned away, how many of those a release reported, which of them await a per-peer
   report, which saturation episodes are open, and which pace bucket each peer was last handed.
   */
  datatype World = World(
    lim: Limits,
    held: multiset<string>,
    turnedAway: nat,
    reported: nat,
    awaiting: multiset<string>,
    nodeOpen: bool,
    peersOpen: set<string>,
    handed: map<string, nat>)

  function Step(w: World, op: Op): World {
    match op
    case Acquire(p) =>
      var (lim, r) := Acquired(w.lim, p);
      (match r
       case Granted(pace) => w.(lim := lim, held := w.held + multiset{p}, handed := w.handed[p := pace])
       case Busy(NodeBusy, _) => w.(lim := lim, turnedAway := w.turnedAway + 1, nodeOpen := true)
       case Busy(PeerBusy, _) => w.(lim := lim, turnedAway := w.turnedAway + 1,
                                    awaiting := w.awaiting + multiset{p}, peersOpen := w.peersOpen + {p}))
    case Release(p) =>
      var (lim, e) := Released(w.lim, p);
      w.(lim := lim, held := w.held - multiset{p}, reported := w.reported + e.refused,
         awaiting := w.awaiting[p := 0], nodeOpen := false, peersOpen := w.peersOpen - {p})
  }

  function Start(perPeer: int, total: int): World {
    World(NewLimits(perPeer, total), multiset{}, 0, 0, multiset{}, false, {}, map[])
  }

  function Exec(w: World, ops: seq<Op>): World {
    if ops == [] then w else Step(Exec(w, ops[..|ops| - 1]), ops[|ops| - 1])
  }

  /** Every release returns a slot that is held, as the source's own release closures do. */
  ghost predicate Matched(w: World, ops: seq<Op>) {
    ops == [] || (Matched(w, ops[..|ops| - 1])
                  && (ops[|ops| - 1].Release? ==> ops[|ops| - 1].peer in Exec(w, ops[..|ops| - 1]).held))
  }

  function Circuits(s: Limits, p: string): int {
    if p in s.peers then s.peers[p].circuits else 0
  }

  ghost predicate NoDup(idle: seq<string>) {
    forall i, j :: 0 <= i < j < |idle| ==> idle[i] != idle[j]
  }

  /** Both caps hold, and the counters are the circuits held. */
  ghost predicate Counts(s: Limits, held: multiset<string>) {
    && 1 <= s.maxPerPeer <= s.maxTotal
    && s.total == |held| <= s.maxTotal
    && forall p :: Circuits(s, p) == held[p] <= s.maxPerPeer
  }

  /** The idle memory holds exactly the peers without circuits, once each, and not too many. */
  ghost predicate IdleExact(s: Limits) {
    && NoDup(s.idle)
    && (forall p :: p in s.idle <==> p in s.peers && s.peers[p].circuits == 0)
    && |s.idle| <= s.maxTotal
  }

  /** The accounting half: flags are open episodes, counters are refusals not yet reported. */
  ghost predicate Accounting(w: World) {
    var s := w.lim;
    && (s.saturated <==> w.nodeOpen)
    && (s.saturated ==> s.total == s.maxTotal)
    && (!s.saturated ==> s.refused == 0)
    && (forall p :: p in w.peersOpen <==> p in s.peers && s.peers[p].saturated)
    && (forall p :: p in s.peers && s.peers[p].saturated ==> s.peers[p].circuits == s.maxPerPeer)
    && (forall p :: w.awaiting[p] == if p in s.peers then s.peers[p].refused else 0)
    && (forall p :: p in s.peers && !s.peers[p].saturated ==> s.peers[p].refused == 0)
    && w.turnedAway == w.reported + s.refused + |w.awaiting|
  }

  /** No two remembered peers share a pace bucket, and a new one differs from all of them. */
  ghost predicate PacesApart(s: Limits) {
    && (forall p :: p in s.peers ==> s.peers[p].pace < s.nextPace)
    && (forall p, q :: p in s.peers && q in s.peers && p != q ==> s.peers[p].pace != s.peers[q].pace)
  }

  /** A remembered peer's record names the bucket it was last handed. */
  ghost predicate Handed(w: World) {
    forall p :: p in w.lim.peers ==> p in w.handed && w.lim.peers[p].pace == w.handed[p]
  }

  ghost predicate Inv(w: World) {
    Counts(w.lim, w.held) && IdleExact(w.lim) && Accounting(w) && PacesApart(w.lim) && Handed(w)
  }

  // ---------- every step keeps it ----------

  lemma {:induction false} RemovedHolds(idle: seq<string>, peer: string)
    ensures forall q :: q in Removed(idle, peer) <==> q in idle && q != peer
    ensures |Removed(idle, peer)| <= |idle|
    ensures NoDup(idle) ==> NoDup(Removed(idle, peer))
  {
    if idle != [] {
      RemovedHolds(idle[1..], peer);
      assert idle == [idle[0]] + idle[1..];
      if NoDup(idle) {
        assert idle[0] !in idle[1..];
      }
    }
  }

  /** Retiring a peer pushes it to the front and evicts at most the one behind a full memory. */
  lemma RetireShape(s: Limits, peer: string)
    requires s.maxTotal >= 1 && |s.idle| <= s.maxTotal
    ensures Retired(s, peer) ==
            if |s.idle| < s.maxTotal then s.(idle := [peer] + s.idle)
            else s.(idle := [peer] + s.idle[..|s.idle| - 1], peers := s.peers - {s.idle[|s.idle| - 1]})
  {
    var u := s.(idle := [peer] + s.idle);
    if |s.idle| == s.maxTotal {
      var back := |u.idle| - 1;
      var v := u.(idle := u.idle[..back], peers := u.peers - {u.idle[back]});
      assert u.idle[..back] == [peer] + s.idle[..|s.idle| - 1];
      assert u.idle[back] == s.idle[|s.idle| - 1];
      assert Trimmed(u) == Trimmed(v) == v;
    }
  }

  /** What a retirement evicts has no circuits, no flag and no refusals, so nobody misses it. */
  ghost predicate Blank(s: Limits, t: Limits) {
    && t.peers.Keys <= s.peers.Keys
    && forall q :: q in s.peers ==> if q in t.peers then t.peers[q] == s.peers[q] else s.peers[q].circuits == 0
  }

  lemma RetireIsExact(s: Limits, p: string)
    requires s.maxTotal >= 1 && NoDup(s.idle) && |s.idle| <= s.maxTotal && p !in s.idle
    requires forall q :: q in s.idle || q == p <==> q in s.peers && s.peers[q].circuits == 0
    ensures IdleExact(Retired(s, p)) && Blank(s, Retired(s, p))
    ensures p in Retired(s, p).peers
  {
    RetireShape(s, p);
    if |s.idle| == s.maxTotal {
      var last := |s.idle| - 1;
      assert s.idle == s.idle[..last] + [s.idle[last]];
      assert s.idle[last] in s.idle;
    }
  }

  lemma LoweredCounts(s: Limits, held: multiset<string>, p: string)
    requires Counts(s, held) && p in held
    ensures p in s.peers && Counts(Lowered(s, p), held - multiset{p})
  {
    assert Circuits(s, p) == held[p];
    forall q
      ensures Circuits(Lowered(s, p), q) == (held - multiset{p})[q] <= s.maxPerPeer
    {
      assert Circuits(s, q) == held[q];
    }
  }

  lemma BlankKeepsCounts(s: Limits, t: Limits, held: multiset<string>)
    requires Counts(s, held) && Blank(s, t)
    requires t == s.(peers := t.peers, idle := t.idle)
    ensures Counts(t, held)
  {
    forall q
      ensures Circuits(t, q) == held[q] <= t.maxPerPeer
    {
      assert Circuits(s, q) == held[q];
    }
  }

  lemma ReleaseKeepsOccupancy(w: World, p: string)
    requires Inv(w) && p in w.held
    ensures Counts(Step(w, Release(p)).lim, w.held - multiset{p}) && IdleExact(Step(w, Release(p)).lim)
    ensures Blank(Lowered(w.lim, p), Step(w, Release(p)).lim)
  {
    var u := Lowered(w.lim, p);
    LoweredCounts(w.lim, w.held, p);
    assert Circuits(u, p) == w.held[p] - 1;
    if u.peers[p].circuits <= 0 {
      RetireIsExact(u, p);
      RetireShape(u, p);
      BlankKeepsCounts(u, Retired(u, p), w.held - multiset{p});
    }
  }

  lemma ReleaseKeepsAccounting(w: World, p: string)
    requires Inv(w) && p in w.held
    ensures Accounting(Step(w, Release(p)))
  {
    ReleaseKeepsOccupancy(w, p);
    var u, t := Lowered(w.lim, p), Step(w, Release(p));
    assert Circuits(w.lim, p) == w.held[p];
    assert w.awaiting[p] == w.lim.peers[p].refused;
    assert |t.awaiting| == |w.awaiting| - w.awaiting[p];
    RetireShape(u, p);
    forall q
      ensures t.awaiting[q] == if q in t.lim.peers then t.lim.peers[q].refused else 0
      ensures q in t.peersOpen <==> q in t.lim.peers && t.lim.peers[q].saturated
    {
      assert w.awaiting[q] == if q in w.lim.peers then w.lim.peers[q].refused else 0;
    }
  }

  lemma RefusedAtNodeKeepsInv(w: World, p: string)
    requires Inv(w) && w.lim.total >= w.lim.maxTotal
    ensures Inv(Step(w, Acquire(p)))
  {
    StepKeepsHanded(w, Acquire(p));
    var t := Step(w, Acquire(p));
    assert t.lim.peers == w.lim.peers;
    assert forall q :: Circuits(t.lim, q) == Circuits(w.lim, q);
  }

  lemma AcquireKeepsCounts(w: World, p: string)
    requires Counts(w.lim, w.held) && w.lim.total < w.lim.maxTotal
    ensures Counts(Step(w, Acquire(p)).lim, Step(w, Acquire(p)).held)
  {
    var t := Step(w, Acquire(p));
    assert Circuits(w.lim, p) == w.held[p];
    assert |t.held| == t.lim.total;
    forall q
      ensures Circuits(t.lim, q) == t.held[q] <= t.lim.maxPerPeer
    {
      assert Circuits(w.lim, q) == w.held[q];
    }
  }

  lemma AcquireKeepsIdle(w: World, p: string)
    requires Counts(w.lim, w.held) && IdleExact(w.lim) && w.lim.total < w.lim.maxTotal
    ensures IdleExact(Step(w, Acquire(p)).lim)
  {
    RemovedHolds(w.lim.idle, p);
    assert Circuits(w.lim, p) == w.held[p];
    var s, t := w.lim, Step(w, Acquire(p)).lim;
    assert t.idle == Removed(s.idle, p);
    assert p in t.peers ==> t.peers[p].circuits > 0;
    assert forall q :: q != p ==> (q in t.peers <==> q in s.peers) && (q in s.peers ==> t.peers[q] == s.peers[q]);
  }

  lemma GrantKeepsAccounting(w: World, p: string)
    requires Counts(w.lim, w.held) && Accounting(w) && w.lim.total < w.lim.maxTotal && Acquired(w.lim, p).1.Granted?
    ensures Accounting(Step(w, Acquire(p)))
  {
    assert Circuits(w.lim, p) == w.held[p];
    var t := Step(w, Acquire(p));
    forall q
      ensures t.awaiting[q] == if q in t.lim.peers then t.lim.peers[q].refused else 0
    {
      assert w.awaiting[q] == if q in w.lim.peers then w.lim.peers[q].refused else 0;
    }
  }

  lemma PeerRefusalKeepsAccounting(w: World, p: string)
    requires Counts(w.lim, w.held) && Accounting(w) && w.lim.total < w.lim.maxTotal && Acquired(w.lim, p).1.Busy?
    ensures Accounting(Step(w, Acquire(p)))
  {
    assert Circuits(w.lim, p) == w.held[p];
    var t := Step(w, Acquire(p));
    forall q
      ensures t.awaiting[q] == if q in t.lim.peers then t.lim.peers[q].refused else 0
    {
      assert w.awaiting[q] == if q in w.lim.peers then w.lim.peers[q].refused else 0;
    }
  }

  /** Trimming the memory only forgets. */
  lemma {:induction false} TrimmedForgets(s: Limits)
    ensures Trimmed(s).nextPace == s.nextPace && Trimmed(s).peers.Keys <= s.peers.Keys
    ensures forall q :: q in Trimmed(s).peers ==> Trimmed(s).peers[q] == s.peers[q]
    decreases |s.idle|
  {
    if |s.idle| != 0 && |s.idle| > s.maxTotal {
      var back := |s.idle| - 1;
      TrimmedForgets(s.(idle := s.idle[..back], peers := s.peers - {s.idle[back]}));
    }
  }

  lemma AcquireKeepsPaces(s: Limits, p: string)
    requires PacesApart(s)
    ensures PacesApart(Acquired(s, p).0) && s.nextPace <= Acquired(s, p).0.nextPace
    ensures Acquired(s, p).1.Granted? ==> Acquired(s, p).1.pace < Acquired(s, p).0.nextPace
    ensures Acquired(s, p).1.Granted? && p !in s.peers ==> Acquired(s, p).1.pace == s.nextPace
  {
  }

  lemma ReleaseKeepsPaces(s: Limits, p: string)
    requires PacesApart(s)
    ensures PacesApart(Released(s, p).0) && s.nextPace == Released(s, p).0.nextPace
  {
    var t := Lowered(s, p);
    assert PacesApart(t);
    TrimmedForgets(t.(idle := [p] + t.idle));
  }

  lemma ReleaseKeepsPace(s: Limits, p: string, q: string)
    requires q in Released(s, p).0.peers
    ensures q in s.peers && Released(s, p).0.peers[q].pace == s.peers[q].pace
  {
    var t := Lowered(s, p);
    TrimmedForgets(t.(idle := [p] + t.idle));
  }

  lemma AcquireKeepsPace(s: Limits, p: string, q: string)
    requires s.maxPerPeer >= 1 && q in Acquired(s, p).0.peers
    ensures q != p || Acquired(s, p).1.Busy? ==> q in s.peers && Acquired(s, p).0.peers[q].pace == s.peers[q].pace
    ensures q == p && Acquired(s, p).1.Granted? ==> Acquired(s, p).0.peers[q].pace == Acquired(s, p).1.pace
  {
  }

  lemma StepKeepsHanded(w: World, op: Op)
    requires w.lim.maxPerPeer >= 1 && Handed(w)
    ensures Handed(Step(w, op))
  {
    var t := Step(w, op);
    forall q | q in t.lim.peers ensures q in t.handed && t.lim.peers[q].pace == t.handed[q] {
      match op
      case Acquire(p) => AcquireKeepsPace(w.lim, p, q);
      case Release(p) => ReleaseKeepsPace(w.lim, p, q);
    }
  }

  lemma StepKeepsInv(w: World, op: Op)
    requires Inv(w) && (op.Release? ==> op.peer in w.held)
    ensures Inv(Step(w, op))
  {
    StepKeepsHanded(w, op);
    match op
    case Acquire(p) =>
      AcquireKeepsPaces(w.lim, p);
      if w.lim.total >= w.lim.maxTotal {
        RefusedAtNodeKeepsInv(w, p);
      } else {
        AcquireKeepsCounts(w, p);
        AcquireKeepsIdle(w, p);
        if Acquired(w.lim, p).1.Granted? {
          GrantKeepsAccounting(w, p);
        } else {
          PeerRefusalKeepsAccounting(w, p);
        }
      }
    case Release(p) =>
      ReleaseKeepsPaces(w.lim, p);
      ReleaseKeepsOccupancy(w, p);
      ReleaseKeepsAccounting(w, p);
  }

  lemma {:induction false} RunKeepsInv(w: World, ops: seq<Op>)
    requires Inv(w) && Matched(w, ops)
    ensures Inv(Exec(w, ops))
  {
    if ops != [] {
      RunKeepsInv(w, ops[..|ops| - 1]);
      StepKeepsInv(Exec(w, ops[..|ops| - 1]), ops[|ops| - 1]);
    }
  }

  // ---------- occupancy over every run ----------

  ghost function Holders(held: multiset<string>): set<string> {
    set p | p in held
  }

  lemma {:induction false} HoldersBound(held: multiset<string>)
    ensures |Holders(held)| <= |held|
    decreases |held|
  {
    if held == multiset{} {
      assert Holders(held) == {};
    } else {
      var p :| p in held;
      var less := held[p := 0];
      assert |less| == |held| - held[p];
      HoldersBound(less);
      assert Holders(held) == Holders(less) + {p};
    }
  }

  lemma {:induction false} DistinctBound(s: seq<string>, bound: set<string>)
    requires NoDup(s) && forall i :: 0 <= i < |s| ==> s[i] in bound
    ensures |s| <= |bound|
  {
    if s != [] {
      var last := |s| - 1;
      DistinctBound(s[..last], bound - {s[last]});
    }
  }

  lemma {:induction false} SeqSetBound(s: seq<string>)
    ensures |set p | p in s| <= |s|
  {
    if s != [] {
      SeqSetBound(s[1..]);
      assert (set p | p in s) == (set p | p in s[1..]) + {s[0]};
    }
  }

  lemma StartKeepsInv(perPeer: int, total: int)
    ensures Inv(Start(perPeer, total))
  {
  }

  /**
   On every run of acquires and matching releases: the total is the sum of the per-peer circuits and
   neither cap is exceeded; a peer with circuits is never forgotten; the idle memory is exactly the
   remembered peers without circuits; and however many peers appear, at most twice the aggregate cap
   are remembered.
   */
  lemma OccupancyIsBounded(perPeer: int, total: int, ops: seq<Op>)
    requires Matched(Start(perPeer, total), ops)
    ensures var w := Exec(Start(perPeer, total), ops);
            && w.lim.total == |w.held| <= w.lim.maxTotal
            && (forall p :: Circuits(w.lim, p) == w.held[p] <= w.lim.maxPerPeer)
            && (forall p :: p in w.held ==> p in w.lim.peers)
            && IdleExact(w.lim)
            && |w.lim.peers| <= 2 * w.lim.maxTotal
  {
    StartKeepsInv(perPeer, total);
    RunKeepsInv(Start(perPeer, total), ops);
    var w := Exec(Start(perPeer, total), ops);
    HoldersBound(w.held);
    SeqSetBound(w.lim.idle);
    var idle := set p | p in w.lim.idle;
    forall p
      ensures p in w.held ==> p in w.lim.peers
      ensures p in w.lim.peers ==> p in Holders(w.held) + idle
    {
      assert Circuits(w.lim, p) == w.held[p];
    }
    assert w.lim.peers.Keys <= Holders(w.held) + idle;
    SubsetCard(w.lim.peers.Keys, Holders(w.held) + idle);
    assert |Holders(w.held) + idle| <= |Holders(w.held)| + |idle|;
  }

  lemma {:induction false} RunKeepsCaps(w: World, ops: seq<Op>)
    requires Inv(w) && Matched(w, ops)
    ensures Exec(w, ops).lim.maxTotal == w.lim.maxTotal && Exec(w, ops).lim.maxPerPeer == w.lim.maxPerPeer
  {
    if ops != [] {
      var n := |ops| - 1;
      RunKeepsCaps(w, ops[..n]);
      RunKeepsInv(w, ops[..n]);
      StepKeepsCaps(Exec(w, ops[..n]), ops[n]);
    }
  }

  /**
   After any run the caps are still the configured ones, a missing or senseless one being 32 per peer and 256 in
   all and the per-peer one never above the other; and a circuit is granted if and only if both have room for it,
   the aggregate one being asked first.
   */
  lemma GrantedExactlyWithinTheCaps(perPeer: int, total: int, ops: seq<Op>, p: string)
    requires Matched(Start(perPeer, total), ops)
    ensures var w := Exec(Start(perPeer, total), ops);
            var all := if total > 0 then total else 256;
            var each := if perPeer > 0 then perPeer else 32;
            var r := Acquired(w.lim, p).1;
            && (r.Granted? <==> |w.held| < all && w.held[p] < each && w.held[p] < all)
            && (r.Busy? ==> (r.cause == NodeBusy <==> |w.held| >= all))
  {
    StartKeepsInv(perPeer, total);
    RunKeepsInv(Start(perPeer, total), ops);
    RunKeepsCaps(Start(perPeer, total), ops);
    var w := Exec(Start(perPeer, total), ops);
    assert Circuits(w.lim, p) == w.held[p];
  }

  lemma SubsetCard(a: set<string>, b: set<string>)
    requires a <= b
    ensures |a| <= |b|
  {
    assert b == a + (b - a);
  }

  // ---------- refusals ----------

  /**
   Refusals are conserved at every point of every run: those a release has reported, those pending in
   aggregate and those pending per peer are together the acquires turned away. A raised flag means its
   cap is exactly reached.
   */
  lemma RefusalsAreConserved(perPeer: int, total: int, ops: seq<Op>)
    requires Matched(Start(perPeer, total), ops)
    ensures var w := Exec(Start(perPeer, total), ops);
            && w.turnedAway == w.reported + w.lim.refused + |w.awaiting|
            && (forall p :: w.awaiting[p] == if p in w.lim.peers then w.lim.peers[p].refused else 0)
            && (w.lim.saturated ==> w.lim.total == w.lim.maxTotal)
            && (forall p :: p in w.lim.peers && w.lim.peers[p].saturated ==>
                              w.lim.peers[p].circuits == w.lim.maxPerPeer)
  {
    StartKeepsInv(perPeer, total);
    RunKeepsInv(Start(perPeer, total), ops);
  }

  /**
   A refusal is reported as first exactly when it opens an episode: no refusal of its kind since the
   release that closed the last one. A release reports an ending exactly when it closes an episode.
   */
  lemma EpisodesReportOnce(perPeer: int, total: int, ops: seq<Op>, p: string)
    requires Matched(Start(perPeer, total), ops)
    ensures var w := Exec(Start(perPeer, total), ops);
            var r := Acquired(w.lim, p).1;
            && (r.Busy? && r.cause == NodeBusy ==> (r.first <==> !w.nodeOpen))
            && (r.Busy? && r.cause == PeerBusy ==> (r.first <==> p !in w.peersOpen))
            && (p in w.held ==> (Released(w.lim, p).1.ended <==> w.nodeOpen || p in w.peersOpen))
  {
    StartKeepsInv(perPeer, total);
    RunKeepsInv(Start(perPeer, total), ops);
  }

  // ---------- retention ----------

  /** The peers a run brought to zero circuits. */
  ghost function Idled(w: World, ops: seq<Op>): set<string> {
    if ops == [] then {}
    else
      var n := |ops| - 1;
      Idled(w, ops[..n])
      + (if ops[n].Release? && Exec(w, ops).held[ops[n].peer] == 0 then {ops[n].peer} else {})
  }

  /** The peer holds no circuit at any point of the run. */
  ghost predicate Away(w: World, ops: seq<Op>, p: string) {
    p !in Exec(w, ops).held && (ops != [] ==> Away(w, ops[..|ops| - 1], p))
  }

  /** The peer is remembered with this bucket, and only peers in since were idled after it. */
  ghost predicate Remembered(s: Limits, p: string, pace: nat, since: set<string>) {
    && p in s.peers && s.peers[p].pace == pace
    && exists k :: 0 <= k < |s.idle| && s.idle[k] == p && forall i :: 0 <= i < k ==> s.idle[i] in since
  }

  lemma {:induction false} RemovedKeepsFront(idle: seq<string>, p: string, q: string, k: nat, since: set<string>)
    requires k < |idle| && idle[k] == p && q != p
    requires forall i :: 0 <= i < k ==> idle[i] in since
    ensures exists j :: 0 <= j < |Removed(idle, q)| && Removed(idle, q)[j] == p
                        && forall i :: 0 <= i < j ==> Removed(idle, q)[i] in since
  {
    if k == 0 {
      assert Removed(idle, q)[0] == p;
    } else {
      RemovedKeepsFront(idle[1..], p, q, k - 1, since);
      var j :| 0 <= j < |Removed(idle[1..], q)| && Removed(idle[1..], q)[j] == p
               && forall i :: 0 <= i < j ==> Removed(idle[1..], q)[i] in since;
      if idle[0] != q {
        assert Removed(idle, q)[j + 1] == p;
      } else {
        assert Removed(idle, q)[j] == p;
      }
    }
  }

  lemma AcquireRemembers(w: World, p: string, q: string, pace: nat, since: set<string>)
    requires Inv(w) && Remembered(w.lim, p, pace, since)
    requires p !in Step(w, Acquire(q)).held
    ensures Remembered(Step(w, Acquire(q)).lim, p, pace, since)
  {
    var k :| 0 <= k < |w.lim.idle| && w.lim.idle[k] == p && forall i :: 0 <= i < k ==> w.lim.idle[i] in since;
    assert p in w.lim.idle;
    if w.lim.total < w.lim.maxTotal {
      assert Circuits(w.lim, q) == w.held[q];
      assert q != p;
      RemovedKeepsFront(w.lim.idle, p, q, k, since);
    } else {
      assert Step(w, Acquire(q)).lim.idle[k] == p;
    }
  }

  /** Going idle pushes others back by one, and evicts only from behind a full memory. */
  lemma RetireRemembers(u: Limits, p: string, q: string, pace: nat, since: set<string>)
    requires u.maxTotal >= 1 && NoDup(u.idle) && |u.idle| <= u.maxTotal && q !in u.idle && q != p
    requires Remembered(u, p, pace, since) && q in since && |since| < u.maxTotal
    ensures Remembered(Retired(u, q), p, pace, since)
  {
    var k :| 0 <= k < |u.idle| && u.idle[k] == p && forall i :: 0 <= i < k ==> u.idle[i] in since;
    var ahead := [q] + u.idle[..k];
    DistinctBound(ahead, since);
    RetireShape(u, q);
    var t := Retired(u, q);
    assert t.idle[k + 1] == p;
    assert forall i :: 0 <= i < k + 1 ==> t.idle[i] == ahead[i];
    if |u.idle| == u.maxTotal {
      assert u.idle[|u.idle| - 1] != p;
    }
  }

  lemma ReleaseRemembers(w: World, p: string, q: string, pace: nat, since: set<string>)
    requires Inv(w) && q in w.held && p !in w.held && Remembered(w.lim, p, pace, since)
    requires w.held[q] == 1 ==> q in since
    requires |since| < w.lim.maxTotal
    ensures Remembered(Step(w, Release(q)).lim, p, pace, since)
  {
    assert Circuits(w.lim, q) == w.held[q];
    var u := Lowered(w.lim, q);
    assert Remembered(u, p, pace, since);
    if u.peers[q].circuits <= 0 {
      RetireRemembers(u, p, q, pace, since);
    }
  }

  lemma RememberedMonotone(s: Limits, p: string, pace: nat, a: set<string>, b: set<string>)
    requires Remembered(s, p, pace, a) && a <= b
    ensures Remembered(s, p, pace, b)
  {
  }

  lemma StepRemembers(w: World, op: Op, p: string, pace: nat, since: set<string>)
    requires Inv(w) && (op.Release? ==> op.peer in w.held)
    requires p !in w.held && p !in Step(w, op).held && Remembered(w.lim, p, pace, since)
    requires op.Release? && Step(w, op).held[op.peer] == 0 ==> op.peer in since
    requires |since| < w.lim.maxTotal
    ensures Remembered(Step(w, op).lim, p, pace, since)
  {
    match op
    case Acquire(q) => AcquireRemembers(w, p, q, pace, since);
    case Release(q) => ReleaseRemembers(w, p, q, pace, since);
  }

  lemma StepKeepsCaps(w: World, op: Op)
    requires Inv(w) && (op.Release? ==> op.peer in w.held)
    ensures Step(w, op).lim.maxTotal == w.lim.maxTotal && Step(w, op).lim.maxPerPeer == w.lim.maxPerPeer
  {
    if op.Release? {
      LoweredCounts(w.lim, w.held, op.peer);
      RetireShape(Lowered(w.lim, op.peer), op.peer);
    }
  }

  lemma {:induction false} RunRemembers(w: World, ops: seq<Op>, p: string, pace: nat)
    requires Inv(w) && Remembered(w.lim, p, pace, {})
    requires Matched(w, ops) && Away(w, ops, p)
    requires |Idled(w, ops)| < w.lim.maxTotal
    ensures Remembered(Exec(w, ops).lim, p, pace, Idled(w, ops))
    ensures Exec(w, ops).lim.maxTotal == w.lim.maxTotal
  {
    if ops != [] {
      var n := |ops| - 1;
      var before := Exec(w, ops[..n]);
      assert Idled(w, ops[..n]) <= Idled(w, ops);
      SubsetCard(Idled(w, ops[..n]), Idled(w, ops));
      RunRemembers(w, ops[..n], p, pace);
      RunKeepsInv(w, ops[..n]);
      RememberedMonotone(before.lim, p, pace, Idled(w, ops[..n]), Idled(w, ops));
      StepKeepsCaps(before, ops[n]);
      StepRemembers(before, ops[n], p, pace, Idled(w, ops));
    }
  }

  lemma LastReleaseGoesToFront(w: World, p: string)
    requires Inv(w) && w.held[p] == 1
    ensures p in w.lim.peers && Remembered(Step(w, Release(p)).lim, p, w.lim.peers[p].pace, {})
  {
    assert Circuits(w.lim, p) == w.held[p];
    RetireShape(Lowered(w.lim, p), p);
    var t := Step(w, Release(p)).lim;
    assert t.idle[0] == p;
    if |w.lim.idle| > 0 {
      assert w.lim.idle[|w.lim.idle| - 1] in w.lim.idle;
    }
  }

  /**
   A neighbour that gives up its last circuit and comes back gets the pace bucket it had, which no other
   remembered neighbour holds, unless at least maxTotal distinct neighbours went idle after it did.
   */
  lemma ReturningNeighbourKeepsItsBucket(w: World, ops: seq<Op>, p: string)
    requires Inv(w) && w.held[p] == 1
    requires var gone := Step(w, Release(p));
             Matched(gone, ops) && Away(gone, ops, p) && |Idled(gone, ops)| < w.lim.maxTotal
    ensures p in w.lim.peers
    ensures var back := Exec(Step(w, Release(p)), ops).lim;
            var r := Acquired(back, p).1;
            && (r.Granted? ==> r.pace == w.lim.peers[p].pace)
            && (forall q :: q in back.peers && q != p ==> back.peers[q].pace != w.lim.peers[p].pace)
  {
    LastReleaseGoesToFront(w, p);
    StepKeepsInv(w, Release(p));
    StepKeepsCaps(w, Release(p));
    var gone := Step(w, Release(p));
    RunRemembers(gone, ops, p, w.lim.peers[p].pace);
    RunKeepsInv(gone, ops);
    OwnBucket(Exec(gone, ops).lim, p, w.lim.peers[p].pace, Idled(gone, ops));
  }

  lemma OwnBucket(s: Limits, p: string, pace: nat, since: set<string>)
    requires PacesApart(s) && Remembered(s, p, pace, since)
    ensures Acquired(s, p).1.Granted? ==> Acquired(s, p).1.pace == pace
    ensures forall q :: q in s.peers && q != p ==> s.peers[q].pace != pace
  {
  }

  lemma {:induction false} BucketsOnlyGrow(w: World, ops: seq<Op>)
    requires PacesApart(w.lim)
    ensures PacesApart(Exec(w, ops).lim) && w.lim.nextPace <= Exec(w, ops).lim.nextPace
  {
    if ops != [] {
      var n := |ops| - 1;
      BucketsOnlyGrow(w, ops[..n]);
      match ops[n]
      case Acquire(p) => AcquireKeepsPaces(Exec(w, ops[..n]).lim, p);
      case Release(p) => ReleaseKeepsPaces(Exec(w, ops[..n]).lim, p);
    }
  }

  /**
   A neighbour that is not remembered, forgotten or never seen, is granted a bucket no earlier acquire of
   the run was granted and no remembered neighbour holds.
   */
  lemma NewcomerGetsFreshBucket(w: World, ops: seq<Op>, p: string, n: nat, q: string)
    requires PacesApart(w.lim) && n < |ops| && ops[n] == Acquire(q) && p !in Exec(w, ops).lim.peers
    requires Acquired(Exec(w, ops[..n]).lim, q).1.Granted? && Acquired(Exec(w, ops).lim, p).1.Granted?
    ensures var pace := Acquired(Exec(w, ops).lim, p).1.pace;
            && pace != Acquired(Exec(w, ops[..n]).lim, q).1.pace
            && forall o :: o in Exec(w, ops).lim.peers ==> Exec(w, ops).lim.peers[o].pace != pace
  {
    BucketsOnlyGrow(w, ops[..n]);
    var at := Exec(w, ops[..n]);
    AcquireKeepsPaces(at.lim, q);
    assert ops[..n + 1][..n] == ops[..n];
    assert Exec(w, ops[..n + 1]) == Step(at, ops[n]);
    ExecSplits(w, ops, n + 1);
    BucketsOnlyGrow(Exec(w, ops[..n + 1]), ops[n + 1..]);
    AcquireKeepsPaces(Exec(w, ops).lim, p);
  }

  /**
   At every point of every run, what an acquire is granted is the bucket its neighbour was last handed, if that
   neighbour is remembered, and never one another remembered neighbour was last handed.
   */
  lemma GrantIsOwnBucket(perPeer: int, total: int, ops: seq<Op>, p: string, q: string)
    requires Matched(Start(perPeer, total), ops)
    requires Acquired(Exec(Start(perPeer, total), ops).lim, p).1.Granted?
    ensures var w := Exec(Start(perPeer, total), ops);
            var pace := Acquired(w.lim, p).1.pace;
            && (p in w.lim.peers ==> p in w.handed && pace == w.handed[p])
            && (q in w.lim.peers && q != p ==> q in w.handed && pace != w.handed[q])
  {
    StartKeepsInv(perPeer, total);
    RunKeepsInv(Start(perPeer, total), ops);
    var w := Exec(Start(perPeer, total), ops);
    if q in w.lim.peers {
      assert w.lim.peers[q].pace == w.handed[q] < w.lim.nextPace;
    }
  }

  lemma MatchedPrefix(w: World, ops: seq<Op>, n: nat)
    requires Matched(w, ops) && n <= |ops|
    ensures Matched(w, ops[..n])
    decreases |ops|
  {
    if n == |ops| {
      assert ops[..n] == ops;
    } else {
      MatchedPrefix(w, ops[..|ops| - 1], n);
      assert ops[..|ops| - 1][..n] == ops[..n];
    }
  }

  /** The neighbour is remembered in every state from the i-th to the j-th. */
  ghost predicate Throughout(w: World, ops: seq<Op>, p: string, i: nat, j: nat)
    requires i <= j <= |ops|
  {
    forall m :: i <= m <= j ==> p in Exec(w, ops[..m]).lim.peers
  }

  lemma ExecNext(w: World, ops: seq<Op>, n: nat)
    requires n < |ops|
    ensures Exec(w, ops[..n + 1]) == Step(Exec(w, ops[..n]), ops[n])
  {
    assert ops[..n + 1][..n] == ops[..n];
  }

  lemma StepHandsTheSame(w: World, op: Op, p: string)
    requires Inv(w) && p in w.lim.peers
    ensures p in w.handed && p in Step(w, op).handed && Step(w, op).handed[p] == w.handed[p]
  {
  }

  lemma {:induction false} HandedTheSameThroughout(w: World, ops: seq<Op>, p: string, i: nat, j: nat)
    requires Inv(w) && Matched(w, ops) && i <= j <= |ops| && Throughout(w, ops, p, i, j)
    ensures p in Exec(w, ops[..i]).handed && p in Exec(w, ops[..j]).handed
    ensures Exec(w, ops[..i]).handed[p] == Exec(w, ops[..j]).handed[p]
    decreases j
  {
    MatchedPrefix(w, ops, j);
    RunKeepsInv(w, ops[..j]);
    assert p in Exec(w, ops[..j]).lim.peers;
    if i < j {
      HandedTheSameThroughout(w, ops, p, i, j - 1);
      MatchedPrefix(w, ops, j - 1);
      RunKeepsInv(w, ops[..j - 1]);
      ExecNext(w, ops, j - 1);
      StepHandsTheSame(Exec(w, ops[..j - 1]), ops[j - 1], p);
    }
  }

  /** What the i-th step of a run, an acquire, was answered. */
  function ReplyAt(w: World, ops: seq<Op>, i: nat): Reply
    requires i < |ops|
  {
    Acquired(Exec(w, ops[..i]).lim, ops[i].peer).1
  }

  /** On every run, two grants to one neighbour that was remembered throughout between them carry the same bucket. */
  lemma GrantsToOneShare(perPeer: int, total: int, ops: seq<Op>, p: string, i: nat, j: nat)
    requires Matched(Start(perPeer, total), ops) && i < j < |ops|
    requires ops[i] == Acquire(p) && ops[j] == Acquire(p)
    requires Throughout(Start(perPeer, total), ops, p, i + 1, j)
    requires ReplyAt(Start(perPeer, total), ops, i).Granted? && ReplyAt(Start(perPeer, total), ops, j).Granted?
    ensures ReplyAt(Start(perPeer, total), ops, i) == ReplyAt(Start(perPeer, total), ops, j)
  {
    var w := Start(perPeer, total);
    StartKeepsInv(perPeer, total);
    ExecNext(w, ops, i);
    HandedTheSameThroughout(w, ops, p, i + 1, j);
    MatchedPrefix(w, ops, j);
    GrantIsOwnBucket(perPeer, total, ops[..j], p, p);
  }

  /** And two grants to two neighbours, the first still remembered at the second, never carry the same one. */
  lemma GrantsToTwoDiffer(perPeer: int, total: int, ops: seq<Op>, p: string, q: string, i: nat, j: nat)
    requires Matched(Start(perPeer, total), ops) && i < j < |ops| && p != q
    requires ops[i] == Acquire(p) && ops[j] == Acquire(q)
    requires Throughout(Start(perPeer, total), ops, p, i + 1, j)
    requires ReplyAt(Start(perPeer, total), ops, i).Granted? && ReplyAt(Start(perPeer, total), ops, j).Granted?
    ensures ReplyAt(Start(perPeer, total), ops, i) != ReplyAt(Start(perPeer, total), ops, j)
  {
    var w := Start(perPeer, total);
    StartKeepsInv(perPeer, total);
    ExecNext(w, ops, i);
    HandedTheSameThroughout(w, ops, p, i + 1, j);
    MatchedPrefix(w, ops, j);
    assert p in Exec(w, ops[..j]).lim.peers;
    GrantIsOwnBucket(perPeer, total, ops[..j], q, p);
  }

  lemma {:induction false} ExecSplits(w: World, ops: seq<Op>, n: nat)
    requires n <= |ops|
    ensures Exec(w, ops) == Exec(Exec(w, ops[..n]), ops[n..])
  {
    if n == |ops| {
      assert ops[..n] == ops && ops[n..] == [];
    } else {
      var prior := ops[..|ops| - 1];
      ExecSplits(w, prior, n);
      assert prior[..n] == ops[..n] && prior[n..] == ops[n..][..|ops| - n - 1];
    }
  }
}
