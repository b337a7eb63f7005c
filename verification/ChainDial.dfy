/** Why a telescoping dial failed, in the terms the recovery decision needs (core/relaychain.go, chainFault). */
module ChainFault {

  datatype Fault = HopDead | HopStalled | HopRefused | HopRejected
}

/**
 The telescoping dial and whom it blames (core/relaychain.go, dialChain, classifyLayer, the refusal
 frame and its sniffer).

 The network is a datatype: for every node of the path, the bytes it answers with as they reach the client,
 when they are there, and whether it then declines to forward. What a layer's handshake makes of a frame is
 an arbitrary function. Times are in nanoseconds; of two events at one instant, the close of a stream comes
 first.
 */
module ChainDial {
  import opened Wrappers
  import opened Bytes
  import opened ChainFault

  // ---------- the refusal frame ----------

  const HOP_REFUSED_MAGIC: seq<byte> :=
    [0, 98, 97, 99, 99, 104, 117, 115, 45, 104, 111, 112, 45, 114, 101, 102, 117, 115, 101, 100, 0]
  const MAX_REASON: nat := 32
  const SNIFF_CAP: nat := 2 + |HOP_REFUSED_MAGIC| + MAX_REASON

  function Clip<T>(s: seq<T>, n: nat): seq<T> {
    if |s| > n then s[..n] else s
  }

  function RefusalBody(reason: seq<byte>): (b: seq<byte>)
    ensures Framable(b)
  {
    HOP_REFUSED_MAGIC + Clip(reason, MAX_REASON)
  }

  function HopRefusalFrame(reason: seq<byte>): seq<byte> {
    Frame(RefusalBody(reason))
  }

  function ParseHopRefusal(b: seq<byte>): Option<seq<byte>> {
    if |b| < 2 then None
    else
      var n := ReadU16(b);
      if n < |HOP_REFUSED_MAGIC| || |b| < 2 + n then None
      else if b[2..2 + |HOP_REFUSED_MAGIC|] != HOP_REFUSED_MAGIC then None
      else Some(b[2 + |HOP_REFUSED_MAGIC|..2 + n])
  }

  /** A frame that reads as a refusal and fits what the sniffer keeps. */
  predicate RefusalShaped(frame: seq<byte>) {
    HOP_REFUSED_MAGIC <= frame && 2 + |frame| <= SNIFF_CAP
  }

  /** A refusal is read back with its reason, whatever follows it. */
  lemma RefusalRoundTrip(reason: seq<byte>, rest: seq<byte>)
    ensures ParseHopRefusal(HopRefusalFrame(reason) + rest) == Some(Clip(reason, MAX_REASON))
    ensures RefusalShaped(RefusalBody(reason))
  {
    FrameFirst(RefusalBody(reason), rest);
    var b := HopRefusalFrame(reason) + rest;
    assert ReadU16(b) == |RefusalBody(reason)|;
    assert b[2..2 + |HOP_REFUSED_MAGIC|] == HOP_REFUSED_MAGIC;
    assert b[2 + |HOP_REFUSED_MAGIC|..2 + ReadU16(b)] == Clip(reason, MAX_REASON);
  }

  /** What the capped copy of a stream says: a refusal exactly when the first frame has its shape. */
  lemma SniffedVerdict(stream: seq<byte>, seen: seq<byte>)
    requires seen <= stream && (HasFrame(stream) ==> HasFrame(seen))
    ensures ParseHopRefusal(Clip(seen, SNIFF_CAP)).Some? <==>
              HasFrame(stream) && RefusalShaped(FirstFrame(stream))
  {
    var kept := Clip(seen, SNIFF_CAP);
    var m := |HOP_REFUSED_MAGIC|;
    assert kept <= stream;
    if HasFrame(kept) {
      SamePrefixSameFrame(kept, stream);
      var f := FirstFrame(stream);
      assert |f| >= m ==> f[..m] == kept[2..2 + m];
    } else if HasFrame(stream) {
      SamePrefixSameFrame(seen, stream);
      assert |kept| >= 2 ==> kept[..2] == stream[..2];
    }
  }

  // ---------- the path ----------

  datatype Verdict = Accepts | CredentialRejected | BadMessage

  /**
   A refusal sealed instead of forwarding: its reason, what gets through of its bytes, as they are cut, and
   how long after the next layer began they are there, or the stream has ended without all of them.
   */
  datatype Refusal = Refusal(reason: seq<byte>, pieces: seq<seq<byte>>, after: nat) {
    ghost predicate Whole() {
      Concat(pieces) == HopRefusalFrame(reason)
    }
  }

  /**
   One node, and the client's own pace at its layer. reply is how long after the layer began the node's
   first frame is whole, or its stream has ended without one; none means neither ever happens. work is what
   the client then takes to verify the credential and write the target, lag what it takes from the end of
   the handshake to stopping the guard. refusal is what the node seals instead of forwarding, if it does.
   */
  datatype Node = Node(pieces: seq<seq<byte>>, reply: Option<nat>, work: nat, lag: nat, refusal: Option<Refusal>)

  /**
   The hops in order and the exit last, with what each layer's handshake makes of a first frame; when the
   dial began, how long a layer's guard waits, and when the stream is closed from outside, if ever: by the
   caller's own deadline, or because another stream's head fault closed the whole session.
   */
  datatype Path = Path(
    nodes: seq<Node>, noise: (nat, seq<byte>) -> Verdict, begins: nat, budget: nat, deadline: Option<nat>)

  datatype Outcome = Up | Blamed(hop: nat, fault: Fault)

  /** A refusal gets through whole or is cut off, and no layer takes one for a handshake reply. The guard is armed. */
  ghost predicate WellFormed(p: Path) {
    && p.nodes != [] && p.budget > 0
    && (forall i :: 0 <= i < |p.nodes| && p.nodes[i].refusal.Some? ==>
          Concat(p.nodes[i].refusal.value.pieces) <= HopRefusalFrame(p.nodes[i].refusal.value.reason))
    && (forall i: nat, reason :: p.noise(i, RefusalBody(reason)) == BadMessage)
    && p.nodes[|p.nodes| - 1].refusal == None
  }

  /** The caller's deadline has fired by this time. */
  predicate Fired(p: Path, t: nat) {
    p.deadline.Some? && p.deadline.value <= t
  }

  /** When the stream under a layer that began at start is closed, by its guard or by the deadline. */
  function CutAt(p: Path, start: nat): nat {
    var guard := start + p.budget;
    if !Fired(p, guard) then guard
    else if p.deadline.value <= start then start
    else p.deadline.value
  }

  // ---------- one layer ----------

  /** The first frame of a reply, read through the sniffer, and what the sniffer kept of it. */
  method ReadReply(pieces: seq<seq<byte>>) returns (frame: Option<seq<byte>>, refused: bool)
    ensures frame == FrameOf(pieces)
    ensures refused <==> frame.Some? && RefusalShaped(frame.value)
  {
    var rbuf: seq<byte>, sniffed: seq<byte> := [], [];
    var rest := pieces;
    while rest != [] && !HasFrame(rbuf)
      invariant rbuf + Concat(rest) == Concat(pieces)
      invariant sniffed == Clip(rbuf, SNIFF_CAP)
      decreases |rest|
    {
      var piece := rest[0];
      if |piece| > 0 && |sniffed| < SNIFF_CAP {
        sniffed := sniffed + Clip(piece, SNIFF_CAP - |sniffed|);
      }
      rbuf, rest := rbuf + piece, rest[1..];
    }
    assert rbuf <= Concat(pieces);
    if HasFrame(rbuf) {
      SamePrefixSameFrame(rbuf, Concat(pieces));
    }
    SniffedVerdict(Concat(pieces), rbuf);
    frame := if HasFrame(rbuf) then Some(FirstFrame(rbuf)) else None;
    refused := ParseHopRefusal(sniffed).Some?;
  }

  /** The first frame these bytes hold, however they are cut. */
  function FrameOf(pieces: seq<seq<byte>>): Option<seq<byte>> {
    var s := Concat(pieces);
    if HasFrame(s) then Some(FirstFrame(s)) else None
  }

  /**
   How a layer's handshake ended: the target written; or the stream closed under it, ended, or its frame
   turned down.
   */
  datatype Layer =
    | Through(at: nat)
    | Broken(at: nat)
    | Ended(at: nat)
    | TurnedDown(at: nat, frame: seq<byte>, rejected: bool)

  /** The handshake of layer i, begun at start, over bytes whose first frame or end is there after reply. */
  function Handshake(p: Path, i: nat, start: nat, pieces: seq<seq<byte>>, reply: Option<nat>): Layer
    requires i < |p.nodes|
  {
    var cut := CutAt(p, start);
    if reply.None? || start + reply.value >= cut then Broken(cut)
    else
      var at := start + reply.value;
      var done := at + p.nodes[i].work;
      match FrameOf(pieces)
      case None => Ended(at)
      case Some(frame) =>
        match p.noise(i, frame)
        case BadMessage => TurnedDown(at, frame, false)
        case CredentialRejected => TurnedDown(done, frame, true)
        case Accepts => if done >= cut then Broken(done) else Through(done)
  }

  /** classifyLayer: a rejection stays a rejection even when it raced the budget. */
  function Classify(stalled: bool, rejected: bool): Fault {
    if rejected then HopRejected else if stalled then HopStalled else HopDead
  }

  /** The guard of a layer had fired by the time it was stopped. */
  predicate Stalled(p: Path, i: nat, start: nat, at: nat)
    requires i < |p.nodes|
  {
    start + p.budget <= at + p.nodes[i].lag
  }

  /** What dialChain reports when layer i ends without coming through. */
  function BlameFor(p: Path, i: nat, start: nat, layer: Layer): Outcome
    requires i < |p.nodes|
  {
    if i > 0 && layer.TurnedDown? && RefusalShaped(layer.frame) then Blamed(i, HopRefused)
    else Blamed(i + 1, Classify(Stalled(p, i, start, layer.at), layer.TurnedDown? && layer.rejected))
  }

  /** What layer i hears: the node's own reply, or the refusal of the hop before it. */
  function Heard(p: Path, i: nat): (seq<seq<byte>>, Option<nat>)
    requires i < |p.nodes|
  {
    if i > 0 && p.nodes[i - 1].refusal.Some? then
      (p.nodes[i - 1].refusal.value.pieces, Some(p.nodes[i - 1].refusal.value.after))
    else (p.nodes[i].pieces, p.nodes[i].reply)
  }

  function LayerOf(p: Path, i: nat, start: nat, shut: bool): Layer
    requires i < |p.nodes|
  {
    if shut then Broken(start) else Handshake(p, i, start, Heard(p, i).0, Heard(p, i).1)
  }

  // ---------- who is really at fault ----------

  datatype Conduct = Carries | Fails(fault: Fault)

  /**
   What a node does within the budget of its layer, judged by its own bytes and times alone: neither by the
   caller's deadline nor by how soon the client stops its guard. The exit is asked to forward nothing.
   */
  function ConductOf(p: Path, i: nat): Conduct
    requires i < |p.nodes|
  {
    var node := p.nodes[i];
    if node.reply.None? || node.reply.value >= p.budget then Fails(HopStalled)
    else
      match FrameOf(node.pieces)
      case None => Fails(HopDead)
      case Some(frame) =>
        match p.noise(i, frame)
        case BadMessage => Fails(HopDead)
        case CredentialRejected => Fails(HopRejected)
        case Accepts =>
          if node.reply.value + node.work >= p.budget then Fails(HopStalled)
          else if node.refusal.Some? then Fails(HopRefused)
          else Carries
  }

  ghost predicate FirstFault(p: Path, i: nat) {
    && i < |p.nodes|
    && ConductOf(p, i) != Carries
    && forall j :: 0 <= j < i ==> ConductOf(p, j) == Carries
  }

  /** The first node in path order that does not carry is the one to blame, with its own fault. */
  ghost predicate RightlyBlamed(p: Path, r: Outcome) {
    match r
    case Up => forall i :: 0 <= i < |p.nodes| ==> ConductOf(p, i) == Carries
    case Blamed(hop, fault) => hop >= 1 && FirstFault(p, hop - 1) && ConductOf(p, hop - 1) == Fails(fault)
  }

  // ---------- how far the dial gets undisturbed ----------

  /** How long layer i takes when it comes through. */
  function Span(p: Path, i: nat): nat
    requires i < |p.nodes|
  {
    var node := p.nodes[i];
    (if node.reply.Some? then node.reply.value else 0) + node.work + node.lag
  }

  /** When layer i begins, if every layer before it came through. */
  function StartOf(p: Path, i: nat): nat
    requires i <= |p.nodes|
  {
    if i == 0 then p.begins else StartOf(p, i - 1) + Span(p, i - 1)
  }

  /** The node completed its handshake within the budget. */
  predicate Answers(p: Path, i: nat)
    requires i < |p.nodes|
  {
    ConductOf(p, i) == Carries || ConductOf(p, i) == Fails(HopRefused)
  }

  /** The stream was closed before layer i could write its target: the deadline came first. */
  predicate Overtaken(p: Path, i: nat)
    requires i < |p.nodes|
  {
    var node := p.nodes[i];
    Answers(p, i) && Fired(p, StartOf(p, i) + (if node.reply.Some? then node.reply.value else 0) + node.work)
  }

  /** The stream was closed after layer i had written its target and before its guard was stopped. */
  predicate Slipped(p: Path, i: nat)
    requires i < |p.nodes|
  {
    Answers(p, i) && !Overtaken(p, i) && (Span(p, i) >= p.budget || Fired(p, StartOf(p, i) + Span(p, i)))
  }

  /** Layer i comes through and leaves the stream open, and its node forwards. */
  predicate Clean(p: Path, i: nat)
    requires i < |p.nodes|
  {
    ConductOf(p, i) == Carries && !Overtaken(p, i) && !Slipped(p, i)
  }

  /** The first layer from i on that is not clean, or the end of the path. */
  function StopAt(p: Path, i: nat): (k: nat)
    requires i <= |p.nodes|
    ensures i <= k <= |p.nodes|
    ensures k < |p.nodes| ==> !Clean(p, k)
    ensures forall j :: i <= j < k ==> Clean(p, j)
    decreases |p.nodes| - i
  {
    if i == |p.nodes| || !Clean(p, i) then i else StopAt(p, i + 1)
  }

  // ---------- when the dial misleads ----------

  /** The deadline closed the stream before the node's reply was there. */
  predicate CutShort(p: Path, k: nat)
    requires k < |p.nodes|
  {
    var node := p.nodes[k];
    && Fired(p, StartOf(p, k) + p.budget)
    && p.deadline.value < StartOf(p, k) + p.budget
    && (node.reply.None? || Fired(p, StartOf(p, k) + node.reply.value))
  }

  /** Closed by the deadline, and its guard stopped before it would have fired too. */
  predicate LooksDead(p: Path, k: nat)
    requires k < |p.nodes|
  {
    CutShort(p, k) && !Stalled(p, k, StartOf(p, k), CutAt(p, StartOf(p, k)))
  }

  /** A node behind another answers its handshake with a frame shaped like a refusal. */
  predicate SpeaksAsRefusal(p: Path, k: nat)
    requires k < |p.nodes|
  {
    k > 0 && FrameOf(p.nodes[k].pieces).Some? && RefusalShaped(FrameOf(p.nodes[k].pieces).value)
  }

  /** What is reported against a layer whose stream was closed before it began. */
  function ShutFault(p: Path, k: nat): Fault
    requires k < |p.nodes|
  {
    if p.nodes[k].lag >= p.budget then HopStalled else HopDead
  }

  /**
   The dial ends at its first unclean layer k and its report is wrong. By the node's conduct:
   - it carries: the deadline overtook it; or the stream was closed behind its back and the next node is
     not, as reported, the one at fault;
   - it refuses to forward: the same, or its refusal was cut off, or came after the next layer's budget or
     the deadline;
   - it is silent or too slow: the deadline cut it short, which reads as dead;
   - it is dead: the guard fired before it was stopped, which reads as stalled, or it spoke as a refusal;
   - its credential is rejected: the deadline cut it short.
   */
  ghost predicate MisledAt(p: Path, k: nat)
    requires k < |p.nodes|
  {
    match ConductOf(p, k)
    case Carries =>
      || Overtaken(p, k)
      || (k + 1 < |p.nodes| && ConductOf(p, k + 1) != Fails(ShutFault(p, k + 1)))
    case Fails(HopRefused) =>
      || Overtaken(p, k) || Slipped(p, k)
      || (p.nodes[k].refusal.Some? &&
          (!p.nodes[k].refusal.value.Whole()
           || p.nodes[k].refusal.value.after >= p.budget
           || Fired(p, StartOf(p, k) + Span(p, k) + p.nodes[k].refusal.value.after)))
    case Fails(HopStalled) => LooksDead(p, k)
    case Fails(HopDead) =>
      if CutShort(p, k) then !LooksDead(p, k)
      else SpeaksAsRefusal(p, k)
           || (p.nodes[k].reply.Some? && p.nodes[k].reply.value + p.nodes[k].lag >= p.budget)
    case Fails(HopRejected) => CutShort(p, k)
  }

  ghost predicate Misled(p: Path) {
    StopAt(p, 0) < |p.nodes| && MisledAt(p, StopAt(p, 0))
  }

  // ---------- what is reported ----------

  /** The report of a dial whose first unclean layer is k. */
  function ReportAt(p: Path, k: nat): Outcome
    requires k < |p.nodes|
  {
    if Overtaken(p, k) || !Answers(p, k) then BlameFor(p, k, StartOf(p, k), LayerOf(p, k, StartOf(p, k), false))
    else if k == |p.nodes| - 1 then Up
    else
      var start := StartOf(p, k + 1);
      BlameFor(p, k + 1, start, LayerOf(p, k + 1, start, Slipped(p, k)))
  }

  function Reported(p: Path): Outcome
  {
    var k := StopAt(p, 0);
    if k == |p.nodes| then Up else ReportAt(p, k)
  }

  ghost predicate CleanTo(p: Path, k: nat) {
    k <= |p.nodes| && forall j :: 0 <= j < k ==> Clean(p, j)
  }

  lemma CleanCarry(p: Path, k: nat)
    requires CleanTo(p, k)
    ensures forall j :: 0 <= j < k ==> ConductOf(p, j) == Carries
  {
    forall j | 0 <= j < k
      ensures ConductOf(p, j) == Carries
    {
      assert Clean(p, j);
    }
  }

  lemma StopIs(p: Path, k: nat)
    requires CleanTo(p, k) && (k < |p.nodes| ==> !Clean(p, k))
    ensures StopAt(p, 0) == k
  {
  }

  /** An accepted frame never has a refusal's shape, and a refusal's own frame always does. */
  lemma ShapeIsRefusal(p: Path, i: nat, frame: seq<byte>)
    requires WellFormed(p) && RefusalShaped(frame)
    ensures p.noise(i, frame) == BadMessage
  {
    var reason := frame[|HOP_REFUSED_MAGIC|..];
    assert frame == RefusalBody(reason);
  }

  /** A refusal that breaks off is no frame at all. */
  lemma BrokenRefusal(p: Path, k: nat)
    requires WellFormed(p) && k + 1 < |p.nodes| && p.nodes[k].refusal.Some? && !p.nodes[k].refusal.value.Whole()
    ensures FrameOf(Heard(p, k + 1).0) == None
  {
    var b := Concat(p.nodes[k].refusal.value.pieces);
    var body := RefusalBody(p.nodes[k].refusal.value.reason);
    if HasFrame(b) {
      FrameFirst(body, []);
      assert Frame(body) + [] == Frame(body);
      SamePrefixSameFrame(b, Frame(body));
      FrameSplits(b);
    }
  }

  lemma RefusalIsHeard(p: Path, k: nat)
    requires WellFormed(p) && k + 1 < |p.nodes| && p.nodes[k].refusal.Some? && p.nodes[k].refusal.value.Whole()
    ensures FrameOf(Heard(p, k + 1).0) == Some(RefusalBody(p.nodes[k].refusal.value.reason))
    ensures RefusalShaped(RefusalBody(p.nodes[k].refusal.value.reason))
  {
    var reason := p.nodes[k].refusal.value.reason;
    RefusalRoundTrip(reason, []);
    FrameFirst(RefusalBody(reason), []);
    assert HopRefusalFrame(reason) + [] == HopRefusalFrame(reason);
  }

  /** At an undisturbed layer the node's own bytes are heard. */
  lemma OwnBytes(p: Path, k: nat)
    requires k < |p.nodes| && CleanTo(p, k)
    ensures Heard(p, k) == (p.nodes[k].pieces, p.nodes[k].reply)
  {
    assert k > 0 ==> Clean(p, k - 1);
  }

  /** A node that does not complete its handshake: its own fault, unless misled. */
  lemma OwnFault(p: Path, k: nat)
    requires WellFormed(p) && k < |p.nodes| && CleanTo(p, k) && !Answers(p, k)
    ensures RightlyBlamed(p, ReportAt(p, k)) <==> !MisledAt(p, k)
  {
    OwnBytes(p, k);
    CleanCarry(p, k);
    assert FirstFault(p, k);
    var frame := FrameOf(p.nodes[k].pieces);
    if frame.Some? && RefusalShaped(frame.value) {
      ShapeIsRefusal(p, k, frame.value);
    }
  }

  /** The deadline overtook a node that answers in time: it, or a later reading of the same cut, is wrongly blamed. */
  lemma OvertakenIsBlamed(p: Path, k: nat)
    requires WellFormed(p) && k < |p.nodes| && CleanTo(p, k) && Overtaken(p, k)
    ensures ReportAt(p, k) == Blamed(k + 1, HopDead) || ReportAt(p, k) == Blamed(k + 1, HopStalled)
    ensures !RightlyBlamed(p, ReportAt(p, k)) && MisledAt(p, k)
  {
    OwnBytes(p, k);
  }

  /** The stream was closed behind the back of a node that had answered: its successor takes the blame. */
  lemma SlippedPassesOn(p: Path, k: nat)
    requires WellFormed(p) && k < |p.nodes| && CleanTo(p, k) && Slipped(p, k)
    ensures ReportAt(p, k) == if k + 1 < |p.nodes| then Blamed(k + 2, ShutFault(p, k + 1)) else Up
    ensures RightlyBlamed(p, ReportAt(p, k)) <==> !MisledAt(p, k)
  {
    CleanCarry(p, k);
    if k + 1 < |p.nodes| && ConductOf(p, k) == Carries && ConductOf(p, k + 1) == Fails(ShutFault(p, k + 1)) {
      assert FirstFault(p, k + 1);
    }
  }

  /**
   A refusal by hop k surfaces while the next layer is negotiated, and is blamed on hop k if it came whole
   and in time.
   */
  lemma RefusalIsCharged(p: Path, k: nat)
    requires WellFormed(p) && k < |p.nodes| && CleanTo(p, k)
    requires ConductOf(p, k) == Fails(HopRefused) && !Overtaken(p, k) && !Slipped(p, k)
    ensures RightlyBlamed(p, ReportAt(p, k)) <==> !MisledAt(p, k)
    ensures !MisledAt(p, k) ==> ReportAt(p, k) == Blamed(k + 1, HopRefused)
  {
    assert k + 1 < |p.nodes|;
    if p.nodes[k].refusal.value.Whole() {
      RefusalIsHeard(p, k);
    } else {
      BrokenRefusal(p, k);
    }
    CleanCarry(p, k);
    assert FirstFault(p, k);
  }

  /** The report is right exactly when the dial was not misled. */
  lemma ReportIsRight(p: Path)
    requires WellFormed(p)
    ensures RightlyBlamed(p, Reported(p)) <==> !Misled(p)
  {
    var k := StopAt(p, 0);
    if k < |p.nodes| {
      if !Answers(p, k) {
        OwnFault(p, k);
      } else if Overtaken(p, k) {
        OvertakenIsBlamed(p, k);
      } else if Slipped(p, k) {
        SlippedPassesOn(p, k);
      } else {
        RefusalIsCharged(p, k);
      }
    } else {
      CleanCarry(p, k);
    }
  }

  // ---------- the dial ----------

  /** Where the dial stands before layer i: all layers so far came through, and all but the last were clean. */
  ghost predicate Standing(p: Path, i: nat, start: nat, shut: bool) {
    && i <= |p.nodes| && start == StartOf(p, i)
    && (i == 0 ==> !shut)
    && (i > 0 ==> CleanTo(p, i - 1) && Answers(p, i - 1) && !Overtaken(p, i - 1) && (shut <==> Slipped(p, i - 1)))
  }

  /** After a layer that was not clean, no further one comes through. */
  lemma NothingAfterUnclean(p: Path, i: nat, start: nat, shut: bool)
    requires WellFormed(p) && 0 < i < |p.nodes| && Standing(p, i, start, shut) && !Clean(p, i - 1)
    ensures !LayerOf(p, i, start, shut).Through?
  {
    if !shut {
      if p.nodes[i - 1].refusal.value.Whole() {
        RefusalIsHeard(p, i - 1);
      } else {
        BrokenRefusal(p, i - 1);
      }
    }
  }

  lemma LayerComesThrough(p: Path, i: nat, start: nat, shut: bool)
    requires WellFormed(p) && i < |p.nodes| && Standing(p, i, start, shut) && LayerOf(p, i, start, shut).Through?
    ensures CleanTo(p, i)
    ensures Answers(p, i) && !Overtaken(p, i)
    ensures LayerOf(p, i, start, shut).at + p.nodes[i].lag == StartOf(p, i + 1)
  {
    if i > 0 && !Clean(p, i - 1) {
      NothingAfterUnclean(p, i, start, shut);
    }
    assert CleanTo(p, i);
    ThroughIsAnswered(p, i);
  }

  /** A layer on a clean stream comes through exactly when its node answers and the deadline does not overtake it. */
  lemma ThroughIsAnswered(p: Path, i: nat)
    requires WellFormed(p) && i < |p.nodes| && CleanTo(p, i)
    ensures LayerOf(p, i, StartOf(p, i), false).Through? <==> Answers(p, i) && !Overtaken(p, i)
    ensures LayerOf(p, i, StartOf(p, i), false).Through? ==>
              LayerOf(p, i, StartOf(p, i), false).at + p.nodes[i].lag == StartOf(p, i + 1)
  {
    OwnBytes(p, i);
  }

  lemma StandsNext(p: Path, i: nat, start: nat, shut: bool, stopped: nat)
    requires WellFormed(p) && i < |p.nodes| && Standing(p, i, start, shut) && LayerOf(p, i, start, shut).Through?
    requires stopped == LayerOf(p, i, start, shut).at + p.nodes[i].lag
    ensures Standing(p, i + 1, stopped, start + p.budget <= stopped || Fired(p, stopped))
  {
    LayerComesThrough(p, i, start, shut);
  }

  lemma LayerEndsDial(p: Path, i: nat, start: nat, shut: bool)
    requires WellFormed(p) && i < |p.nodes| && Standing(p, i, start, shut) && !LayerOf(p, i, start, shut).Through?
    ensures BlameFor(p, i, start, LayerOf(p, i, start, shut)) == Reported(p)
  {
    if i > 0 && !Clean(p, i - 1) {
      StopIs(p, i - 1);
    } else {
      assert CleanTo(p, i);
      ThroughIsAnswered(p, i);
      StopIs(p, i);
    }
  }

  lemma EveryLayerThrough(p: Path, start: nat, shut: bool)
    requires WellFormed(p) && Standing(p, |p.nodes|, start, shut)
    ensures Reported(p) == Up
  {
    var last := |p.nodes| - 1;
    StopIs(p, if Clean(p, last) then last + 1 else last);
  }

  /** One layer's handshake, and whether the sniffer kept a refusal of it. */
  method Negotiate(p: Path, i: nat, start: nat, shut: bool) returns (layer: Layer, refused: bool)
    requires WellFormed(p) && i < |p.nodes|
    ensures layer == LayerOf(p, i, start, shut)
    ensures !layer.Through? ==> (refused <==> layer.TurnedDown? && RefusalShaped(layer.frame))
  {
    var cut := CutAt(p, start);
    var (pieces, reply) := Heard(p, i);
    if shut {
      return Broken(start), false;
    }
    if reply.None? || start + reply.value >= cut {
      return Broken(cut), false;
    }
    var frame;
    frame, refused := ReadReply(pieces);
    var at := start + reply.value;
    if frame.None? {
      return Ended(at), refused;
    }
    var verdict := p.noise(i, frame.value);
    if verdict == BadMessage {
      return TurnedDown(at, frame.value, false), refused;
    }
    at := at + p.nodes[i].work;
    if verdict == CredentialRejected {
      return TurnedDown(at, frame.value, true), refused;
    }
    if refused {
      ShapeIsRefusal(p, i, frame.value);
    }
    layer := if at >= cut then Broken(at) else Through(at);
  }

  /** The loop over the layers. */
  method Telescope(p: Path) returns (r: Outcome)
    requires WellFormed(p)
    ensures r == Reported(p)
  {
    var i: nat, start: nat, shut := 0, p.begins, false;
    while i < |p.nodes|
      invariant Standing(p, i, start, shut)
    {
      var layer, refused := Negotiate(p, i, start, shut);
      if !layer.Through? {
        LayerEndsDial(p, i, start, shut);
        if i > 0 && refused {
          return Blamed(i, HopRefused);
        }
        var stalled := Stalled(p, i, start, layer.at);
        return Blamed(i + 1, Classify(stalled, layer.TurnedDown? && layer.rejected));
      }
      StandsNext(p, i, start, shut, layer.at + p.nodes[i].lag);
      var stopped := layer.at + p.nodes[i].lag;
      shut := start + p.budget <= stopped || Fired(p, stopped);
      i, start := i + 1, stopped;
    }
    EveryLayerThrough(p, start, shut);
    r := Up;
  }

  /**
   dialChain. For every path, every conduct of its nodes, every cut of their bytes and all times: it blames
   the first node that does not carry, with the right fault, exactly when the dial is not misled.
   */
  method DialChain(p: Path) returns (r: Outcome)
    requires WellFormed(p)
    ensures r == Reported(p)
    ensures RightlyBlamed(p, r) <==> !Misled(p)
  {
    r := Telescope(p);
    ReportIsRight(p);
  }

  // ---------- what follows ----------

  /**
   The first faulty node's own doing is read as another's, or not at all: a refusal in shape only, or one too
   slow.
   */
  ghost predicate Garbled(p: Path, k: nat)
    requires k < |p.nodes|
  {
    match ConductOf(p, k)
    case Fails(HopDead) => SpeaksAsRefusal(p, k)
    case Fails(HopRefused) =>
      p.nodes[k].refusal.Some? && (!p.nodes[k].refusal.value.Whole() || p.nodes[k].refusal.value.after >= p.budget)
    case _ => false
  }

  /** No deadline, and every guard stopped the moment its handshake ends. */
  ghost predicate Undisturbed(p: Path) {
    p.deadline.None? && forall i :: 0 <= i < |p.nodes| ==> p.nodes[i].lag == 0
  }

  lemma {:induction false} StopIsFirstFault(p: Path)
    requires WellFormed(p) && Undisturbed(p)
    ensures StopAt(p, 0) < |p.nodes| ==> FirstFault(p, StopAt(p, 0))
  {
    var k := StopAt(p, 0);
    CleanCarry(p, k);
  }

  /** With nothing disturbing the dial, attribution is exact unless the first faulty node's refusal is garbled. */
  lemma UndisturbedIsExact(p: Path)
    requires WellFormed(p) && Undisturbed(p)
    ensures RightlyBlamed(p, Reported(p)) <==> !exists k :: FirstFault(p, k) && Garbled(p, k)
  {
    ReportIsRight(p);
    StopIsFirstFault(p);
    var k := StopAt(p, 0);
    CleanCarry(p, k);
    if k < |p.nodes| {
      assert MisledAt(p, k) <==> Garbled(p, k);
      forall j | FirstFault(p, j)
        ensures j == k
      {
      }
    }
  }

  /**
   The caller's deadline fires during layer k, before its target is written: the node in flight is blamed,
   as dead unless its guard fires too before it is stopped. That is right only if the node really is at
   fault that way; in particular a node that carries is always blamed wrongly.
   */
  lemma DeadlineBlamesInFlight(p: Path, k: nat)
    requires WellFormed(p) && k < |p.nodes| && CleanTo(p, k) && (Overtaken(p, k) || CutShort(p, k))
    ensures var start := StartOf(p, k);
            var layer := LayerOf(p, k, start, false);
            && layer.Broken?
            && Reported(p) == Blamed(k + 1, if Stalled(p, k, start, layer.at) then HopStalled else HopDead)
            && (RightlyBlamed(p, Reported(p)) <==> ConductOf(p, k) == Fails(Reported(p).fault))
  {
    OwnBytes(p, k);
    StopIs(p, k);
    CleanCarry(p, k);
  }

  /** The deadline passes before the guard of any layer could, whatever the client takes to handle a reply. */
  ghost predicate DeadlineComesFirst(p: Path) {
    p.deadline.Some? &&
    forall i :: 0 <= i < |p.nodes| ==>
      p.nodes[i].lag < p.budget && p.deadline.value + p.nodes[i].work + p.nodes[i].lag < p.begins + p.budget
  }

  lemma {:induction false} StartsLater(p: Path, i: nat)
    requires i <= |p.nodes|
    ensures StartOf(p, i) >= p.begins
  {
    if i > 0 {
      StartsLater(p, i - 1);
    }
  }

  /** A layer that did not come through was stopped before its guard fired, unless its credential was rejected. */
  lemma NoLayerStalls(p: Path, i: nat, start: nat, shut: bool)
    requires i < |p.nodes| && DeadlineComesFirst(p) && start >= p.begins
    ensures var layer := LayerOf(p, i, start, shut);
            (layer.TurnedDown? && layer.rejected) || !Stalled(p, i, start, layer.at)
  {
    assert p.nodes[i].lag < p.budget;
  }

  lemma NoStallBlamed(p: Path, i: nat, start: nat, shut: bool)
    requires i < |p.nodes| && DeadlineComesFirst(p) && start >= p.begins
    ensures BlameFor(p, i, start, LayerOf(p, i, start, shut)).fault != HopStalled
  {
    NoLayerStalls(p, i, start, shut);
  }

  /** When the deadline always comes first, a stall is never reported as one: a silent node reads as dead. */
  lemma DeadlineHidesStalls(p: Path)
    requires WellFormed(p) && DeadlineComesFirst(p)
    ensures Reported(p).Blamed? ==> Reported(p).fault != HopStalled
  {
    var k := StopAt(p, 0);
    if k < |p.nodes| {
      StartsLater(p, k);
      NoStallBlamed(p, k, StartOf(p, k), false);
      if k + 1 < |p.nodes| {
        StartsLater(p, k + 1);
        NoStallBlamed(p, k + 1, StartOf(p, k + 1), Slipped(p, k));
      }
    }
  }

  const LAYER_TIMEOUT: nat := 15_000_000_000
  const SOCKS_TIMEOUT: nat := 15_000_000_000

  /**
   As shipped, a SOCKS dial and one layer have the same time, and the former's clock starts first. So on
   that path no stall is ever reported, once opening the stream takes longer than handling a reply.
   */
  lemma ShippedTimeoutsHideStalls(p: Path)
    requires WellFormed(p) && p.budget == LAYER_TIMEOUT && p.deadline == Some(SOCKS_TIMEOUT)
    requires forall i :: 0 <= i < |p.nodes| ==> p.nodes[i].work + p.nodes[i].lag < p.begins && p.nodes[i].lag < p.budget
    ensures Reported(p).Blamed? ==> Reported(p).fault != HopStalled
  {
    DeadlineHidesStalls(p);
  }

  // ---------- two readings gone wrong ----------

  const REPLY: seq<byte> := [0, 1, 7]

  /** A handshake that accepts the one-byte reply 7 and nothing else. */
  function OnlySeven(i: nat, frame: seq<byte>): Verdict {
    if frame == [7] then Accepts else BadMessage
  }

  lemma ReplyIsSeven()
    ensures FrameOf([REPLY]) == Some([7])
  {
    ConcatOne(REPLY);
    assert FirstFrame(REPLY) == [7];
  }

  /** Two nodes that carry, the first one's guard firing between its target write and its stop: the second is blamed. */
  lemma LateStopMisreads()
    ensures var p := Path([Node([REPLY], Some(7), 1, 2, None), Node([REPLY], Some(1), 1, 0, None)],
                          OnlySeven, 0, 10, None);
            && WellFormed(p) && ConductOf(p, 0) == Carries == ConductOf(p, 1)
            && Misled(p) && Reported(p) == Blamed(2, HopDead)
  {
    var p := Path([Node([REPLY], Some(7), 1, 2, None), Node([REPLY], Some(1), 1, 0, None)], OnlySeven, 0, 10, None);
    ReplyIsSeven();
    assert Slipped(p, 0);
    StopIs(p, 0);
    SlippedPassesOn(p, 0);
  }

  /** A carrying first hop and a second node that answers with a refusal's bytes: the first is blamed. */
  lemma RefusalShapeMisreads()
    ensures var p := Path([Node([REPLY], Some(1), 1, 0, None), Node([HopRefusalFrame([])], Some(1), 1, 0, None)],
                          OnlySeven, 0, 10, None);
            && WellFormed(p) && ConductOf(p, 0) == Carries && ConductOf(p, 1) == Fails(HopDead)
            && Misled(p) && Reported(p) == Blamed(1, HopRefused)
  {
    var p := Path([Node([REPLY], Some(1), 1, 0, None), Node([HopRefusalFrame([])], Some(1), 1, 0, None)],
                  OnlySeven, 0, 10, None);
    ReplyIsSeven();
    ConcatOne(HopRefusalFrame([]));
    assert HopRefusalFrame([]) + [] == HopRefusalFrame([]);
    RefusalRoundTrip([], []);
    FrameFirst(RefusalBody([]), []);
    assert Clean(p, 0);
    assert SpeaksAsRefusal(p, 1);
    StopIs(p, 1);
  }
}
