/**
 The framed, encrypted byte stream (core/e2e.go, noiseConn) and stacks of it.

 A noiseConn's two directions share nothing but the stream underneath, each behind its own lock, so
 they are modelled as two classes: SendHalf (Write, writeRawFrame) and RecvHalf (Read,
 readFrameLocked, takeFrame). A half runs over the transport or over another half of its kind; that
 nesting is what a relay chain is built from.
 */
module NoiseConn {
  import opened Wrappers
  import opened Bytes

  const MAX_PLAIN: nat := 16384
  const TAG: nat := 16
  const READ_BUFFER: nat := MAX_FRAME + 2

  /** A nonce-indexed cipher. Only Sound is ever assumed of it. */
  datatype Cipher = Cipher(enc: (nat, seq<byte>) -> seq<byte>, dec: (nat, seq<byte>) -> Option<seq<byte>>)

  ghost predicate Sound(c: Cipher) {
    forall n: nat, p: seq<byte> :: c.dec(n, c.enc(n, p)) == Some(p) && |c.enc(n, p)| == |p| + TAG
  }

  // ---------- the specification of one layer ----------

  /** The ciphertexts of a history of messages, numbered from zero. */
  ghost function Seal(c: Cipher, msgs: seq<seq<byte>>): (cts: seq<seq<byte>>)
    ensures |cts| == |msgs|
    ensures forall i :: 0 <= i < |msgs| ==> cts[i] == c.enc(i, msgs[i])
  {
    seq(|msgs|, i requires 0 <= i < |msgs| => c.enc(i, msgs[i]))
  }

  ghost predicate Sealable(c: Cipher, msgs: seq<seq<byte>>) {
    Sound(c) && forall i :: 0 <= i < |msgs| ==> |msgs[i]| <= MAX_PLAIN
  }

  /** No message this layer writes can meet the frame-size error, at any depth. */
  lemma SealedFits(c: Cipher, msgs: seq<seq<byte>>)
    requires Sealable(c, msgs)
    ensures AllFramable(Seal(c, msgs))
    ensures forall i :: 0 <= i < |msgs| ==> |Seal(c, msgs)[i]| <= MAX_PLAIN + TAG < MAX_FRAME
  {
  }

  /** The bytes a layer puts on the stream below it. */
  ghost function Sent(c: Cipher, msgs: seq<seq<byte>>): seq<byte>
    requires Sealable(c, msgs)
  {
    SealedFits(c, msgs);
    Framed(Seal(c, msgs))
  }

  lemma SentSnoc(c: Cipher, msgs: seq<seq<byte>>, m: seq<byte>)
    requires Sealable(c, msgs) && |m| <= MAX_PLAIN
    ensures Framable(c.enc(|msgs|, m))
    ensures Sent(c, msgs + [m]) == Sent(c, msgs) + Frame(c.enc(|msgs|, m))
  {
    SealedFits(c, msgs);
    SealedFits(c, msgs + [m]);
    assert Seal(c, msgs + [m]) == Seal(c, msgs) + [c.enc(|msgs|, m)];
    FramedSnoc(Seal(c, msgs), c.enc(|msgs|, m));
  }

  lemma DropAppend<T>(a: seq<T>, b: seq<T>, base: nat)
    requires base <= |a|
    ensures (a + b)[base..] == a[base..] + b
  {
  }

  lemma AppendNone<T>(a: seq<T>, b: seq<T>)
    requires b == []
    ensures a + b == a
  {
  }

  lemma Divide<T>(a: seq<T>, b: seq<T>, n: nat)
    requires n <= |b|
    ensures (a + b[..n]) + b[n..] == a + b
  {
  }

  lemma DropFront<T>(s: seq<T>, base: nat, front: seq<T>, rest: seq<T>)
    requires base <= |s| && s[base..] == front + rest
    ensures base + |front| <= |s| && s[base + |front|..] == rest
  {
    assert s[base..][|front|..] == s[base + |front|..];
  }

  /** Beyond the frames taken so far, only what is buffered. */
  lemma Past(below: seq<byte>, base: nat, front: seq<byte>, rbuf: seq<byte>)
    requires base <= |below| && below[base..] == front + rbuf
    ensures base + |front| <= |below| && below[base + |front|..] == Framed([]) + rbuf
  {
    DropFront(below, base, front, rbuf);
  }

  lemma FramedStep(before: seq<byte>, rest: seq<seq<byte>>)
    requires AllFramable(rest) && rest != []
    ensures AllFramable(rest[1..])
    ensures before + Frame(rest[0]) + Framed(rest[1..]) == before + Framed(rest)
  {
  }

  lemma NoneTaken(rbuf: seq<byte>, got: seq<byte>, pt: seq<byte>)
    ensures Framed([]) + rbuf == rbuf
    ensures got == [] && pt == [] ==> got + pt == []
  {
  }

  lemma SameBeyond<T>(a: seq<T>, b: seq<T>, base: nat)
    requires a <= b && base <= |a|
    ensures a[base..] <= b[base..]
  {
  }

  lemma BufferAppend<T>(a: seq<T>, b: seq<T>, base: nat, front: seq<T>, buffer: seq<T>)
    requires base <= |a| && a[base..] == front + buffer
    ensures (a + b)[base..] == front + (buffer + b)
  {
    DropAppend(a, b, base);
    assert front + buffer + b == front + (buffer + b);
  }

  // ---------- sending ----------

  /** The transport, as a writer sees it: whatever is written is appended. */
  class Sink {
    var written: seq<byte>

    constructor ()
      ensures written == []
    {
      written := [];
    }

    method Write(b: seq<byte>)
      modifies this
      ensures written == old(written) + b
    {
      written := written + b;
    }
  }

  class SendHalf {
    const cipher: Cipher
    const raw: SendHalf?
    const wire: Sink
    var nonce: nat
    /** The bytes written so far, and the messages they were cut into. */
    ghost var written: seq<byte>
    ghost var msgs: seq<seq<byte>>
    /** What the stream below carried before this layer began: earlier traffic, then its own handshake frames. */
    ghost const preamble: seq<byte>
    ghost const height: nat
    ghost const Repr: set<object>

    /** The halves underneath, each valid and none of them this one. */
    ghost predicate Rooted()
      reads Repr
      decreases height, 0
    {
      && this in Repr && wire in Repr
      && (raw == null ==> Repr == {this, wire})
      && (raw != null ==>
            && raw in Repr && raw.Repr < Repr && this !in raw.Repr && raw.wire == wire && raw.height < height
            && raw.Valid())
    }

    /** The bytes the stream below has accepted. */
    ghost function Below(): seq<byte>
      reads this, wire, raw
    {
      if raw == null then wire.written else raw.written
    }

    /** Everything below the preamble came from these messages, sealed in order, and the nonce counts them. */
    ghost predicate Carried()
      reads this, wire, raw
    {
      && Sealable(cipher, msgs)
      && nonce == |msgs|
      && Below() == preamble + Sent(cipher, msgs)
    }

    /** A layer in its handshake: these plaintext frames have still to be written, and nothing is sealed yet. */
    ghost predicate Greeting(left: seq<seq<byte>>)
      reads Repr
    {
      && Rooted() && Sound(cipher) && AllFramable(left)
      && Below() + Framed(left) == preamble
      && nonce == 0 && written == [] && msgs == []
    }

    ghost predicate Valid()
      reads Repr
      decreases height, 1
    {
      Rooted() && Carried() && written == Concat(msgs)
    }

    constructor (cipher: Cipher, wire: Sink, ghost hellos: seq<seq<byte>>)
      requires Sound(cipher) && AllFramable(hellos)
      ensures Greeting(hellos) && fresh(Repr - {wire})
      ensures this.cipher == cipher && raw == null && this.wire == wire
      ensures preamble == wire.written + Framed(hellos) && height == 0
    {
      this.cipher, raw, this.wire, nonce, written, msgs := cipher, null, wire, 0, [], [];
      preamble, height, Repr := wire.written + Framed(hellos), 0, {this, wire};
    }

    constructor Over(cipher: Cipher, below: SendHalf, ghost hellos: seq<seq<byte>>)
      requires Sound(cipher) && below.Valid() && AllFramable(hellos)
      ensures Greeting(hellos) && fresh(Repr - below.Repr)
      ensures this.cipher == cipher && raw == below && wire == below.wire
      ensures preamble == below.written + Framed(hellos) && height == below.height + 1
    {
      this.cipher, raw, wire, nonce, written, msgs := cipher, below, below.wire, 0, [], [];
      preamble, height, Repr := below.written + Framed(hellos), below.height + 1, {this} + below.Repr;
    }

    method WriteRawFrame(body: seq<byte>) returns (ok: bool)
      requires Rooted()
      modifies Repr - {this}
      ensures Rooted()
      ensures ok <==> Framable(body)
      ensures Below() == if ok then old(Below()) + Frame(body) else old(Below())
      decreases height, 0
    {
      if |body| > MAX_FRAME {
        return false;
      }
      var frame := U16(|body|) + body;
      if raw == null {
        wire.Write(frame);
        ok := true;
      } else {
        var n, done := raw.Write(frame);
        ok := done;
      }
    }

    /** Write the handshake frames, in the same framing and not sealed; from then on the layer carries messages. */
    method Greet(hellos: seq<seq<byte>>)
      requires Greeting(hellos)
      modifies Repr - {this}
      ensures Valid() && written == []
    {
      var left := hellos;
      while left != []
        invariant Greeting(left)
        decreases |left|
      {
        FramedStep(Below(), left);
        var ok := WriteRawFrame(left[0]);
        left := left[1..];
      }
      AppendNone(Below(), Framed(left));
      AppendNone(preamble, Sent(cipher, msgs));
    }

    /** Seal one message and frame it. */
    method WriteMessage(m: seq<byte>) returns (ok: bool)
      requires Valid() && |m| <= MAX_PLAIN
      modifies Repr
      ensures Valid() && ok
      ensures msgs == old(msgs) + [m] && written == old(written) + m
      decreases height, 1
    {
      SentSnoc(cipher, msgs, m);
      ConcatSnoc(msgs, m);
      var ct := cipher.enc(nonce, m);
      Regroup(preamble, Sent(cipher, msgs), Frame(ct));
      ok := WriteRawFrame(ct);
      nonce, msgs, written := nonce + 1, msgs + [m], written + m;
    }

    /**
     Write: cut, seal, frame. Every byte is accepted, in order, in messages of MAX_PLAIN bytes and a
     shorter last one; the frame-size error cannot occur, at any depth.
     */
    method Write(p: seq<byte>) returns (total: nat, ok: bool)
      requires Valid()
      modifies Repr
      ensures Valid()
      ensures ok && total == |p|
      ensures written == old(written) + p
      ensures CutFrom(old(msgs), msgs)
      decreases height, 2
    {
      var rest := p;
      total, ok := 0, true;
      while rest != [] && ok
        invariant ok && total + |rest| == |p|
        invariant Valid() && written + rest == old(written) + p
        invariant CutFrom(old(msgs), msgs)
        invariant rest != [] ==> FullFrom(old(msgs), msgs)
        decreases |rest|
      {
        var n := if |rest| > MAX_PLAIN then MAX_PLAIN else |rest|;
        var piece := rest[..n];
        CutStep(old(msgs), msgs, piece);
        PieceStep(written, rest, n);
        ok := WriteMessage(piece);
        total, rest := total + n, rest[n..];
      }
    }
  }

  lemma PieceStep(before: seq<byte>, rest: seq<byte>, n: nat)
    requires n <= |rest|
    ensures before + rest[..n] + rest[n..] == before + rest
  {
    assert rest[..n] + rest[n..] == rest;
  }

  /** The messages added are full ones. */
  ghost predicate FullFrom(before: seq<seq<byte>>, after: seq<seq<byte>>) {
    before <= after && forall i :: |before| <= i < |after| ==> |after[i]| == MAX_PLAIN
  }

  /** The messages added are full ones, and perhaps a last one that is not empty. */
  ghost predicate CutFrom(before: seq<seq<byte>>, after: seq<seq<byte>>) {
    || after == before
    || (after != [] && FullFrom(before, after[..|after| - 1]) && 0 < |after[|after| - 1]| <= MAX_PLAIN)
  }

  lemma CutStep(before: seq<seq<byte>>, after: seq<seq<byte>>, m: seq<byte>)
    requires FullFrom(before, after) && 0 < |m| <= MAX_PLAIN
    ensures CutFrom(before, after + [m])
    ensures |m| == MAX_PLAIN ==> FullFrom(before, after + [m])
  {
    assert (after + [m])[..|after|] == after;
  }

  // ---------- receiving ----------

  /** What a layer has opened: the ciphertexts taken so far, in order, or nothing if one failed. */
  ghost function Opened(c: Cipher, taken: seq<seq<byte>>): Option<seq<byte>> {
    if taken == [] then Some([])
    else
      var n := |taken| - 1;
      match (Opened(c, taken[..n]), c.dec(n, taken[n]))
      case (Some(before), Some(p)) => Some(before + p)
      case _ => None
  }

  /** Ciphertexts taken in order from what the peer sealed open to the messages it sealed. */
  lemma {:induction false} OpensInOrder(c: Cipher, taken: seq<seq<byte>>, msgs: seq<seq<byte>>)
    requires Sealable(c, msgs) && taken <= Seal(c, msgs)
    ensures Opened(c, taken) == Some(Concat(msgs[..|taken|]))
  {
    if taken != [] {
      var n := |taken| - 1;
      OpensInOrder(c, taken[..n], msgs);
      assert taken[n] == c.enc(n, msgs[n]);
      assert msgs[..n + 1] == msgs[..n] + [msgs[n]];
      ConcatSnoc(msgs[..n], msgs[n]);
    }
  }

  lemma ConcatPrefix<T>(a: seq<seq<T>>, k: nat)
    requires k <= |a|
    ensures Concat(a[..k]) <= Concat(a)
  {
    assert a == a[..k] + a[k..];
    ConcatJoin(a[..k], a[k..]);
  }

  /**
   One layer is faithful: from any bytes that begin what the peer sent, however they were cut, the
   frames taken open to a prefix of what it wrote.
   */
  lemma LayerIsFaithful(c: Cipher, msgs: seq<seq<byte>>, taken: seq<seq<byte>>, rbuf: seq<byte>)
    requires Sealable(c, msgs) && AllFramable(taken)
    requires Framed(taken) + rbuf <= Sent(c, msgs)
    ensures taken <= Seal(c, msgs)
    ensures Opened(c, taken) == Some(Concat(msgs[..|taken|]))
    ensures Concat(msgs[..|taken|]) <= Concat(msgs)
  {
    SealedFits(c, msgs);
    ParsePrefix(taken, rbuf, Seal(c, msgs));
    OpensInOrder(c, taken, msgs);
    ConcatPrefix(msgs, |taken|);
  }

  /** All the frames of a stream, and no whole frame left over: none is missing. */
  lemma AllFramesTaken(taken: seq<seq<byte>>, rbuf: seq<byte>, sent: seq<seq<byte>>)
    requires AllFramable(taken) && AllFramable(sent)
    requires Framed(taken) + rbuf == Framed(sent) && !HasFrame(rbuf)
    ensures taken == sent
  {
    ParsePrefix(taken, rbuf, sent);
    FramedSplit(sent, |taken|);
    assert sent[..|taken|] == taken;
    Cancel(Framed(taken), rbuf, Framed(sent[|taken|..]));
    if |taken| < |sent| {
      RemainderHasFrame(sent[|taken|..]);
    }
  }

  /** A frame popped from the beginning of a stream of frames is the next of them. */
  lemma NextOfExchange(below: seq<byte>, all: seq<byte>, taken: seq<seq<byte>>, f: seq<byte>, rbuf: seq<byte>,
                       sent: seq<seq<byte>>)
    requires AllFramable(taken) && Framable(f) && AllFramable(sent)
    requires below == Framed(taken) + Frame(f) + rbuf && below <= all == Framed(sent)
    ensures taken + [f] <= sent
  {
    FramedSnoc(taken, f);
    ParsePrefix(taken + [f], rbuf, sent);
  }

  /** Among sealed messages that frame is the one sealed next, and it opens. */
  lemma NextIsSealed(c: Cipher, msgs: seq<seq<byte>>, taken: seq<seq<byte>>, f: seq<byte>, rbuf: seq<byte>,
                     below: seq<byte>, all: seq<byte>)
    requires Sealable(c, msgs) && AllFramable(taken) && Framable(f)
    requires below == Framed(taken) + Frame(f) + rbuf && below <= all == Sent(c, msgs)
    ensures |taken| < |msgs| && c.dec(|taken|, f) == Some(msgs[|taken|])
  {
    SealedFits(c, msgs);
    NextOfExchange(below, all, taken, f, rbuf, Seal(c, msgs));
    assert (taken + [f])[|taken|] == f;
  }

  /** Once the peer's bytes have all arrived and no whole frame is left, everything has been taken. */
  lemma NothingIsLeft(c: Cipher, msgs: seq<seq<byte>>, taken: seq<seq<byte>>, rbuf: seq<byte>)
    requires Sealable(c, msgs) && AllFramable(taken)
    requires Framed(taken) + rbuf == Sent(c, msgs)
    requires !HasFrame(rbuf)
    ensures |taken| == |msgs| && Opened(c, taken) == Some(Concat(msgs))
  {
    SealedFits(c, msgs);
    AllFramesTaken(taken, rbuf, Seal(c, msgs));
    OpensInOrder(c, taken, msgs);
    assert msgs[..|msgs|] == msgs;
  }

  /** What a layer and its peer exchange in one direction: the handshake frames, then the sealed messages. */
  ghost function Exchange(c: Cipher, hellos: seq<seq<byte>>, msgs: seq<seq<byte>>): (all: seq<seq<byte>>)
    requires Sealable(c, msgs) && AllFramable(hellos)
    ensures AllFramable(all) && |all| == |hellos| + |msgs| && hellos <= all
    ensures Framed(all) == Framed(hellos) + Sent(c, msgs)
  {
    SealedFits(c, msgs);
    var all := hellos + Seal(c, msgs);
    FramedSplit(all, |hellos|);
    assert all[..|hellos|] == hellos && all[|hellos|..] == Seal(c, msgs);
    all
  }

  lemma SliceTail<T>(s: seq<T>, k: nat)
    requires 0 < k <= |s|
    ensures s[1..][..k - 1] == s[..k][1..] && s[1..][k - 1..] == s[k..]
  {
  }

  lemma {:induction false} FramedSplit(bodies: seq<seq<byte>>, k: nat)
    requires AllFramable(bodies) && k <= |bodies|
    ensures AllFramable(bodies[..k]) && AllFramable(bodies[k..])
    ensures Framed(bodies) == Framed(bodies[..k]) + Framed(bodies[k..])
  {
    if k == 0 {
      assert bodies[..k] == [] && bodies[k..] == bodies;
    } else {
      FramedSplit(bodies[1..], k - 1);
      SliceTail(bodies, k);
      Regroup(Frame(bodies[0]), Framed(bodies[..k][1..]), Framed(bodies[k..]));
    }
  }

  lemma OpenedSnoc(c: Cipher, taken: seq<seq<byte>>, f: seq<byte>, got: seq<byte>, p: seq<byte>)
    requires Opened(c, taken) == Some(got) && c.dec(|taken|, f) == Some(p)
    ensures Opened(c, taken + [f]) == Some(got + p)
  {
    assert (taken + [f])[..|taken|] == taken;
  }

  /**
   The transport, as a reader sees it: the pieces still to come, cut anywhere, empty pieces included.
   all is everything the peer will ever have put on it, arrives the part of it that gets through.
   */
  class Source {
    var pieces: seq<seq<byte>>
    ghost var got: seq<byte>
    ghost const all: seq<byte>
    ghost const arrives: seq<byte>

    ghost predicate Valid()
      reads this
    {
      got + Concat(pieces) == arrives <= all
    }

    ghost function Budget(): nat
      reads this
    {
      |pieces| + |Concat(pieces)|
    }

    constructor (pieces: seq<seq<byte>>, ghost all: seq<byte>)
      requires Concat(pieces) <= all
      ensures Valid() && this.pieces == pieces && got == [] && this.all == all && arrives == Concat(pieces)
    {
      this.pieces, got, this.all, arrives := pieces, [], all, Concat(pieces);
    }

    /** Read at most max bytes of the next piece. The end may be reported with the last bytes or after them. */
    method Read(max: nat) returns (b: seq<byte>, ended: bool)
      requires Valid()
      modifies this
      ensures Valid() && got == old(got) + b && |b| <= max
      ensures max > 0 && !ended ==> Budget() < old(Budget())
      ensures |pieces| <= old(|pieces|)
      ensures ended ==> pieces == []
    {
      if pieces == [] {
        return [], true;
      }
      var piece := pieces[0];
      if |piece| <= max {
        b, pieces := piece, pieces[1..];
      } else {
        b, pieces := piece[..max], [piece[max..]] + pieces[1..];
        assert piece == piece[..max] + piece[max..];
      }
      got := got + b;
      if pieces == [] {
        ended := *;
      } else {
        ended := false;
      }
    }
  }

  class RecvHalf {
    /** The cipher the handshake agrees on, used only once it is over. */
    const cipher: Cipher
    const raw: RecvHalf?
    const wire: Source
    var nonce: nat
    var rbuf: seq<byte>
    var pt: seq<byte>
    /** What the peer sent at this layer: its handshake frames, its messages, and the bytes these carry. */
    ghost const hellos: seq<seq<byte>>
    ghost const msgs: seq<seq<byte>>
    ghost const plain: seq<byte>
    /** The frames already taken since base, the bytes of the stream below that are behind. */
    ghost var taken: seq<seq<byte>>
    ghost var base: nat
    /** Everything handed to the caller. */
    ghost var got: seq<byte>
    ghost const height: nat
    ghost const Repr: set<object>

    /** What the peer still has for this layer, from base on, is what its messages seal to. */
    ghost predicate Honest()
      reads this`base
    {
      && Sealable(cipher, msgs)
      && plain == Concat(msgs)
      && base <= |BelowAll()| && BelowAll()[base..] == Sent(cipher, msgs)
    }

    ghost predicate Rooted()
      reads Repr
      decreases height, 0
    {
      && this in Repr && wire in Repr
      && wire.Valid()
      && (raw == null ==> Repr == {this, wire})
      && (raw != null ==>
            && raw in Repr && raw.Repr < Repr && this !in raw.Repr && raw.wire == wire && raw.height < height
            && raw.Valid())
    }

    /** What the stream below has delivered so far, and what the peer put on it in all. */
    ghost function Below(): seq<byte>
      reads this, wire, raw
    {
      if raw == null then wire.got else raw.got
    }

    ghost function BelowAll(): seq<byte> {
      if raw == null then wire.all else raw.plain
    }

    /** Every byte received is in a frame already taken or in the buffer. */
    ghost predicate Filled()
      reads this, wire, raw
    {
      && AllFramable(taken)
      && base <= |Below()| && Below() <= BelowAll()
      && Below()[base..] == Framed(taken) + rbuf
    }

    /** A layer in its handshake: the frames taken are the first of the peer's, and nothing is opened yet. */
    ghost predicate Greeting()
      reads Repr
    {
      && Rooted() && Filled()
      && Sealable(cipher, msgs) && plain == Concat(msgs)
      && AllFramable(hellos) && taken <= hellos
      && base <= |BelowAll()| && BelowAll()[base..] == Framed(hellos) + Sent(cipher, msgs)
      && nonce == 0 && got == [] && pt == []
    }

    ghost predicate Valid()
      reads Repr
      decreases height, 1
    {
      && Rooted()
      && Filled()
      && Honest()
      && nonce == |taken|
      && Opened(cipher, taken) == Some(got + pt)
    }

    /** What bounds the reads still possible below. */
    ghost function Budget(): nat
      reads this, wire, raw
    {
      if raw == null then wire.Budget()
      else if |raw.got| <= |raw.plain| then |raw.plain| - |raw.got|
      else 0
    }

    /** A layer begins where the stream below stands; its handshake has still to be read. */
    constructor (cipher: Cipher, wire: Source, ghost hellos: seq<seq<byte>>, ghost msgs: seq<seq<byte>>)
      requires wire.Valid() && Sealable(cipher, msgs) && AllFramable(hellos)
      requires wire.all[|wire.got|..] == Framed(hellos) + Sent(cipher, msgs)
      ensures Greeting() && fresh(Repr - {wire}) && taken == []
      ensures this.cipher == cipher && this.wire == wire && raw == null
      ensures this.hellos == hellos && this.msgs == msgs
    {
      this.cipher, raw, this.wire, nonce, rbuf, pt := cipher, null, wire, 0, [], [];
      this.hellos, this.msgs, plain, taken, got := hellos, msgs, Concat(msgs), [], [];
      base, height, Repr := |wire.got|, 0, {this, wire};
    }

    constructor Over(cipher: Cipher, below: RecvHalf, ghost hellos: seq<seq<byte>>, ghost msgs: seq<seq<byte>>)
      requires below.Valid() && Sealable(cipher, msgs) && AllFramable(hellos)
      requires below.got <= below.plain && below.plain[|below.got|..] == Framed(hellos) + Sent(cipher, msgs)
      ensures Greeting() && fresh(Repr - below.Repr) && taken == []
      ensures this.cipher == cipher && wire == below.wire && raw == below
      ensures this.hellos == hellos && this.msgs == msgs
    {
      this.cipher, raw, wire, nonce, rbuf, pt := cipher, below, below.wire, 0, [], [];
      this.hellos, this.msgs, plain, taken, got := hellos, msgs, Concat(msgs), [], [];
      base, height, Repr := |below.got|, below.height + 1, {this} + below.Repr;
    }

    /** What has been read is, in order, the beginning of what the peer wrote. */
    lemma InOrder()
      requires Valid()
      ensures got <= got + pt <= plain
    {
      SameBeyond(Below(), BelowAll(), base);
      LayerIsFaithful(cipher, msgs, taken, rbuf);
    }

    method RawRead() returns (b: seq<byte>, ended: bool)
      requires Rooted() && Below() <= BelowAll()
      modifies Repr - {this}
      ensures Rooted() && Below() == old(Below()) + b && Below() <= BelowAll()
      ensures !ended ==> Budget() < old(Budget())
      ensures ended ==> wire.pieces == []
      ensures ended && wire.got == wire.all ==> Below() == BelowAll()
      decreases height, 0
    {
      if raw == null {
        b, ended := wire.Read(READ_BUFFER);
      } else {
        raw.InOrder();
        b, ended := raw.Read(READ_BUFFER);
        raw.InOrder();
      }
    }

    /** Reading below has moved nothing but the buffer. */
    ghost predicate SameSoFar(taken: seq<seq<byte>>, base: nat, nonce: nat, got: seq<byte>, pt: seq<byte>)
      reads this
    {
      this.taken == taken && this.base == base && this.nonce == nonce && this.got == got && this.pt == pt
    }

    /** This frame was just popped from the buffer, the one after those taken. */
    ghost predicate Popped(f: seq<byte>)
      reads this, wire, raw
    {
      && AllFramable(taken) && Framable(f)
      && base <= |Below()| && Below() <= BelowAll()
      && Below()[base..] == Framed(taken) + Frame(f) + rbuf
    }

    /** Pop one complete frame from the buffer, if there is one. */
    method TakeFrame() returns (f: seq<byte>, ok: bool)
      requires Rooted() && Filled()
      modifies this`rbuf
      ensures ok <==> HasFrame(old(rbuf))
      ensures ok ==> Popped(f) && f == FirstFrame(old(rbuf))
      ensures !ok ==> rbuf == old(rbuf)
    {
      if |rbuf| < 2 {
        return [], false;
      }
      var n := ReadU16(rbuf);
      if |rbuf| < 2 + n {
        return [], false;
      }
      FrameSplits(rbuf);
      Regroup(Framed(taken), Frame(FirstFrame(rbuf)), AfterFrame(rbuf));
      f, rbuf := rbuf[2..2 + n], rbuf[2 + n..];
      ok := true;
    }

    /** One read of the stream below, appended to the buffer. */
    method Pull() returns (ended: bool)
      requires Rooted() && Filled()
      modifies Repr
      ensures Rooted() && Filled()
      ensures SameSoFar(old(taken), old(base), old(nonce), old(got), old(pt))
      ensures !ended ==> Budget() < old(Budget())
      ensures ended ==> wire.pieces == []
      ensures ended && wire.got == wire.all ==> Below() == BelowAll()
      decreases height, 1
    {
      var b;
      ghost var was := Below();
      b, ended := RawRead();
      BufferAppend(was, b, base, Framed(taken), rbuf);
      rbuf := rbuf + b;
    }

    /** A frame that is already there, or one read of the stream below. */
    method TakeOrPull() returns (f: seq<byte>, ok: bool, ended: bool)
      requires Rooted() && Filled()
      modifies Repr
      ensures Rooted() && SameSoFar(old(taken), old(base), old(nonce), old(got), old(pt))
      ensures if ok then Popped(f) else Filled()
      ensures !ok && !ended ==> Budget() < old(Budget())
      ensures !ok && ended ==> wire.pieces == [] && (wire.got == wire.all ==> Below() == BelowAll())
      decreases height, 2
    {
      ended := false;
      f, ok := TakeFrame();
      if !ok {
        ended := Pull();
      }
    }

    method ReadFrame() returns (f: seq<byte>, ok: bool)
      requires Rooted() && Filled()
      modifies Repr
      ensures Rooted() && SameSoFar(old(taken), old(base), old(nonce), old(got), old(pt))
      ensures ok ==> Popped(f)
      ensures !ok ==> Filled() && !HasFrame(rbuf)
      ensures !ok ==> wire.pieces == []
      ensures !ok && wire.got == wire.all ==> Below() == BelowAll()
      decreases height, 3
    {
      while true
        invariant Rooted() && Filled()
        invariant SameSoFar(old(taken), old(base), old(nonce), old(got), old(pt))
        decreases Budget()
      {
        var ended;
        f, ok, ended := TakeOrPull();
        if ok {
          return;
        }
        if ended {
          f, ok := TakeFrame();
          return;
        }
      }
    }

    /** The frame just popped joins those taken. */
    ghost method Keep(f: seq<byte>)
      requires Rooted() && Popped(f)
      modifies this`taken
      ensures Rooted() && Filled() && taken == old(taken) + [f]
    {
      FramedSnoc(taken, f);
      taken := taken + [f];
    }

    /** The next frame of the handshake, whatever the cuts; failing only if the peer's bytes did not all arrive. */
    method ReadHello() returns (f: seq<byte>, ok: bool)
      requires Greeting() && |taken| < |hellos|
      modifies Repr
      ensures ok ==> Greeting() && taken == old(taken) + [f] && f == hellos[old(|taken|)]
      ensures !ok ==> wire.Valid() && wire.pieces == [] && wire.got != wire.all
    {
      ghost var sent := Exchange(cipher, hellos, msgs);
      f, ok := ReadFrame();
      if ok {
        SameBeyond(Below(), BelowAll(), base);
        NextOfExchange(Below()[base..], BelowAll()[base..], taken, f, rbuf, sent);
        Keep(f);
      } else if wire.got == wire.all {
        AllFramesTaken(taken, rbuf, sent);
      }
    }

    /** The handshake is over: what follows it, perhaps already buffered, is sealed. */
    ghost method Begin()
      requires Greeting() && taken == hellos
      modifies this`taken, this`base
      ensures Valid() && got == []
    {
      Past(Below(), base, Framed(hellos), rbuf);
      DropFront(BelowAll(), base, Framed(hellos), Sent(cipher, msgs));
      base, taken := base + |Framed(hellos)|, [];
      NoneTaken(rbuf, got, pt);
      assert Rooted();
      assert Honest();
      assert Filled();
    }

    /** A frame popped after the handshake is the one the peer sealed next. */
    lemma PoppedOpens(f: seq<byte>)
      requires Honest() && Popped(f) && nonce == |taken|
      ensures nonce < |msgs| && cipher.dec(nonce, f) == Some(msgs[nonce])
    {
      SameBeyond(Below(), BelowAll(), base);
      NextIsSealed(cipher, msgs, taken, f, rbuf, Below()[base..], BelowAll()[base..]);
    }

    /** Decrypt the frame just popped; the buffer of opened bytes was empty. */
    method Open(f: seq<byte>)
      requires Rooted() && Honest() && Popped(f) && nonce == |taken| && pt == [] && Opened(cipher, taken) == Some(got)
      requires nonce < |msgs| && cipher.dec(nonce, f) == Some(msgs[nonce])
      modifies this`pt, this`taken, this`nonce
      ensures Valid() && |taken| == old(|taken|) + 1 && pt == msgs[old(|taken|)]
    {
      ghost var before, m := taken, msgs[nonce];
      var message := cipher.dec(nonce, f);
      pt, nonce := message.value, nonce + 1;
      Keep(f);
      assert Honest();
      OpenedSnoc(cipher, before, f, got, m);
    }

    /** The next message opened, or the end of the stream below; then, if everything arrived, all was handed over. */
    method NextMessage() returns (ok: bool)
      requires Valid() && pt == []
      modifies Repr
      ensures Valid() && got == old(got)
      ensures ok ==> old(|taken|) < |msgs| && |taken| == old(|taken|) + 1 && pt == msgs[old(|taken|)]
      ensures !ok ==> pt == [] && wire.pieces == [] && (wire.got == wire.all ==> got == plain)
      decreases height, 4
    {
      AppendNone(got, pt);
      var f;
      f, ok := ReadFrame();
      if ok {
        PoppedOpens(f);
        Open(f);
      } else if wire.got == wire.all {
        NothingIsLeft(cipher, msgs, taken, rbuf);
      }
    }

    /** readMessage: the plaintext of exactly the next message. */
    method ReadMessage() returns (m: seq<byte>, ok: bool)
      requires Valid() && pt == []
      modifies Repr
      ensures Valid() && pt == [] && got == old(got) + m
      ensures ok ==> old(|taken|) < |msgs| && m == msgs[old(|taken|)]
      ensures !ok ==> m == [] && wire.pieces == [] && (wire.got == wire.all ==> got == plain)
    {
      ok := NextMessage();
      m := pt;
      AppendNone(got + m, []);
      got, pt := got + m, [];
    }

    /**
     Read: at most max bytes, in order. The only failure is the end of the stream below; a frame that
     does not open is never met. Once everything has been delivered, the end means everything was read.
     */
    method Read(max: nat) returns (b: seq<byte>, ended: bool)
      requires Valid()
      modifies Repr
      ensures Valid()
      ensures got == old(got) + b && |b| <= max
      ensures max > 0 && !ended ==> b != []
      ensures ended ==> b == []
      ensures ended ==> wire.pieces == []
      ensures ended && wire.got == wire.all ==> got == plain
      decreases height, 5
    {
      while pt == []
        invariant Valid() && got == old(got)
        decreases |msgs| - |taken|
      {
        var ok := NextMessage();
        if !ok {
          return [], true;
        }
      }
      var n := if |pt| < max then |pt| else max;
      Divide(got, pt, n);
      b, pt := pt[..n], pt[n..];
      got := got + b;
      ended := false;
    }
  }

  /** io.ReadFull over the transport: exactly n bytes, or the end. */
  method ReadFullWire(wire: Source, n: nat) returns (b: seq<byte>, ok: bool)
    requires wire.Valid()
    modifies wire
    ensures wire.Valid() && wire.got == old(wire.got) + b && |b| <= n
    ensures ok <==> |b| == n
    ensures !ok ==> wire.pieces == []
    ensures |wire.pieces| <= old(|wire.pieces|)
  {
    b := [];
    var ended := false;
    while |b| < n && !ended
      invariant wire.Valid() && wire.got == old(wire.got) + b && |b| <= n && |wire.pieces| <= old(|wire.pieces|)
      invariant ended ==> wire.pieces == []
      decreases !ended, wire.Budget()
    {
      var piece;
      piece, ended := wire.Read(n - |b|);
      Regroup(old(wire.got), b, piece);
      b := b + piece;
    }
    ok := |b| == n;
  }

  /** io.ReadFull over a layer: exactly n bytes, or the end. */
  method ReadFull(r: RecvHalf, n: nat) returns (b: seq<byte>, ok: bool)
    requires r.Valid()
    modifies r.Repr
    ensures r.Valid() && r.got == old(r.got) + b && |b| <= n
    ensures ok <==> |b| == n
    ensures !ok ==> r.wire.pieces == [] && (r.wire.got == r.wire.all ==> r.got == r.plain)
  {
    b, ok := [], true;
    while |b| < n && ok
      invariant r.Valid() && r.got == old(r.got) + b && |b| <= n
      invariant !ok ==> |b| < n && r.wire.pieces == [] && (r.wire.got == r.wire.all ==> r.got == r.plain)
      decreases n - |b|, ok
    {
      var piece, ended := r.Read(n - |b|);
      ok := !ended;
      Regroup(old(r.got), b, piece);
      b := b + piece;
    }
  }

  // ---------- a stack of any depth, end to end ----------

  /**
   What a receiver does on the stream below before a layer carries messages: read skip bytes of earlier
   traffic, such as the target sent to the hop below, then this many handshake frames.
   */
  datatype Opening = Opening(skip: nat, hellos: nat)

  ghost predicate Greets(preamble: seq<byte>, o: Opening, hellos: seq<seq<byte>>) {
    && AllFramable(hellos) && |hellos| == o.hellos
    && o.skip <= |preamble| && preamble[o.skip..] == Framed(hellos)
  }

  ghost predicate Announced(preamble: seq<byte>, o: Opening) {
    exists hellos :: Greets(preamble, o, hellos)
  }

  /** The openings of a stack's layers, the lowest first, match what was sent under each. */
  ghost predicate Opens(s: SendHalf, openings: seq<Opening>)
    decreases |openings|
  {
    && openings != []
    && Announced(s.preamble, openings[|openings| - 1])
    && (if s.raw == null then |openings| == 1 else Opens(s.raw, openings[..|openings| - 1]))
  }

  /** Every stack has openings that match: nothing sent under a layer is excluded. */
  lemma EveryStackOpens(s: SendHalf) returns (openings: seq<Opening>)
    requires s.Valid()
    ensures Opens(s, openings)
    decreases s.height
  {
    var own := Opening(|s.preamble|, 0);
    assert Greets(s.preamble, own, []);
    if s.raw == null {
      openings := [own];
    } else {
      var lower := EveryStackOpens(s.raw);
      openings := lower + [own];
      assert openings[..|openings| - 1] == lower;
    }
  }

  /** A layer to be put on a stack: what is first sent over the layer below, its handshake frames, its cipher. */
  datatype Layer = Layer(lead: seq<byte>, hellos: seq<seq<byte>>, cipher: Cipher)

  /** Its cipher is sound, and its handshake messages are at most 65535 bytes (section 3 of the Noise specification). */
  ghost predicate Buildable(layer: Layer) {
    Sound(layer.cipher) && AllFramable(layer.hellos)
  }

  ghost predicate AllBuildable(layers: seq<Layer>) {
    forall i :: 0 <= i < |layers| ==> Buildable(layers[i])
  }

  function OpeningOf(layer: Layer): Opening {
    Opening(|layer.lead|, |layer.hellos|)
  }

  function OpeningsOf(layers: seq<Layer>): seq<Opening> {
    seq(|layers|, i requires 0 <= i < |layers| => OpeningOf(layers[i]))
  }

  lemma LeadThenHellos(lead: seq<byte>, hellos: seq<seq<byte>>)
    requires AllFramable(hellos)
    ensures Greets(lead + Framed(hellos), Opening(|lead|, |hellos|), hellos)
  {
  }

  lemma OpensOver(s: SendHalf, below: SendHalf, openings: seq<Opening>, own: Opening, hellos: seq<seq<byte>>)
    requires s.raw == below && Opens(below, openings) && Greets(s.preamble, own, hellos)
    ensures Opens(s, openings + [own])
  {
    assert (openings + [own])[..|openings|] == openings;
  }

  lemma OpeningsGrow(layers: seq<Layer>)
    requires layers != []
    ensures OpeningsOf(layers) == OpeningsOf(layers[..|layers| - 1]) + [OpeningOf(layers[|layers| - 1])]
    ensures |layers| == 1 ==> OpeningsOf(layers) == [OpeningOf(layers[0])]
  {
  }

  /** Telescope a stack: each layer is begun over the one below after that one carried its lead and its handshake. */
  method SendStack(layers: seq<Layer>) returns (s: SendHalf)
    requires layers != [] && AllBuildable(layers)
    ensures s.Valid() && fresh(s.Repr) && s.written == [] && s.height == |layers| - 1
    ensures Opens(s, OpeningsOf(layers))
  {
    var n := |layers| - 1;
    if n == 0 {
      s := LowestLayer(layers[0]);
    } else {
      var below := SendStack(layers[..n]);
      s := PutLayer(below, OpeningsOf(layers[..n]), layers[n]);
    }
    OpeningsGrow(layers);
  }

  method LowestLayer(layer: Layer) returns (s: SendHalf)
    requires Buildable(layer)
    ensures s.Valid() && fresh(s.Repr) && s.written == [] && s.height == 0
    ensures Opens(s, [OpeningOf(layer)])
  {
    var sink := new Sink();
    sink.Write(layer.lead);
    assert sink.written == layer.lead;
    s := new SendHalf(layer.cipher, sink, layer.hellos);
    LeadThenHellos(layer.lead, layer.hellos);
    s.Greet(layer.hellos);
  }

  method PutLayer(below: SendHalf, ghost openings: seq<Opening>, layer: Layer) returns (s: SendHalf)
    requires below.Valid() && below.written == [] && Opens(below, openings) && Buildable(layer)
    modifies below.Repr
    ensures s.Valid() && fresh(s.Repr - below.Repr) && s.written == [] && s.height == below.height + 1
    ensures Opens(s, openings + [OpeningOf(layer)])
  {
    var n, ok := below.Write(layer.lead);
    assert below.written == layer.lead;
    s := new SendHalf.Over(layer.cipher, below, layer.hellos);
    LeadThenHellos(layer.lead, layer.hellos);
    OpensOver(s, below, openings, OpeningOf(layer), layer.hellos);
    s.Greet(layer.hellos);
  }

  /** The handshake of a layer read to its end; not if its bytes did not all arrive. */
  method Shake(r: RecvHalf, n: nat) returns (ok: bool)
    requires r.Greeting() && r.taken == [] && n == |r.hellos|
    modifies r.Repr
    ensures ok ==> r.Valid() && r.got == []
    ensures !ok ==> r.wire.Valid() && r.wire.pieces == [] && r.wire.got != r.wire.all
  {
    var i := 0;
    ok := true;
    while i < n
      invariant 0 <= i <= n && r.Greeting() && |r.taken| == i
    {
      var f;
      f, ok := r.ReadHello();
      if !ok {
        return;
      }
      i := i + 1;
    }
    r.Begin();
  }

  /** What is left of a stream once a preamble's earlier traffic has been read. */
  lemma AfterSkip(all: seq<byte>, got: seq<byte>, preamble: seq<byte>, rest: seq<byte>, o: Opening,
                  hellos: seq<seq<byte>>)
    requires all == preamble + rest && Greets(preamble, o, hellos) && |got| == o.skip
    ensures |got| <= |all| && all[|got|..] == Framed(hellos) + rest
  {
    DropAppend(preamble, rest, o.skip);
  }

  /** The lowest layer, over the transport. */
  method ReceiveLowest(s: SendHalf, o: Opening, wire: Source) returns (r: RecvHalf?)
    requires s.Valid() && s.raw == null && Announced(s.preamble, o)
    requires wire.Valid() && wire.got == [] && wire.all == s.wire.written && wire !in s.Repr
    modifies wire
    ensures r != null ==> r.Valid() && fresh(r.Repr - {wire}) && r.wire == wire && r.got == [] && r.plain == s.written
    ensures r == null ==> wire.Valid() && wire.pieces == [] && wire.got != wire.all
  {
    ghost var hellos :| Greets(s.preamble, o, hellos);
    var b, ok := ReadFullWire(wire, o.skip);
    if !ok {
      return null;
    }
    AfterSkip(wire.all, wire.got, s.preamble, Sent(s.cipher, s.msgs), o, hellos);
    r := new RecvHalf(s.cipher, wire, hellos, s.msgs);
    ok := Shake(r, o.hellos);
    if !ok {
      r := null;
    }
  }

  /** A layer over another. */
  method ReceiveUpper(s: SendHalf, o: Opening, below: RecvHalf) returns (r: RecvHalf?)
    requires s.Valid() && s.raw != null && Announced(s.preamble, o)
    requires below.Valid() && below.got == [] && below.plain == s.raw.written && below.Repr !! s.Repr
    modifies below.Repr
    ensures r != null ==> r.Valid() && fresh(r.Repr - below.Repr) && r.wire == below.wire
    ensures r != null ==> r.got == [] && r.plain == s.written
    ensures r == null ==> below.wire.Valid() && below.wire.pieces == [] && below.wire.got != below.wire.all
  {
    ghost var hellos :| Greets(s.preamble, o, hellos);
    var b, ok := ReadFull(below, o.skip);
    if !ok {
      return null;
    }
    below.InOrder();
    AfterSkip(below.plain, below.got, s.preamble, Sent(s.cipher, s.msgs), o, hellos);
    r := new RecvHalf.Over(s.cipher, below, hellos, s.msgs);
    ok := Shake(r, o.hellos);
    if !ok {
      r := null;
    }
  }

  /**
   The receiving stack that faces a sending one, over a transport that delivers some of its bytes. Each
   layer begins after its preamble was read through the one below, with whatever came along already
   buffered; if a preamble does not get through, not everything did, and the stack is not up.
   */
  method ReceiveStack(s: SendHalf, openings: seq<Opening>, wire: Source) returns (r: RecvHalf?)
    requires s.Valid() && Opens(s, openings)
    requires wire.Valid() && wire.got == [] && wire.all == s.wire.written && wire !in s.Repr
    modifies wire
    ensures r != null ==> r.Valid() && fresh(r.Repr - {wire}) && r.wire == wire && r.got == [] && r.plain == s.written
    ensures r == null ==> wire.Valid() && wire.pieces == [] && wire.got != wire.all
    decreases |openings|
  {
    var n := |openings| - 1;
    if s.raw == null {
      r := ReceiveLowest(s, openings[n], wire);
    } else {
      var below := ReceiveStack(s.raw, openings[..n], wire);
      if below == null {
        return null;
      }
      r := ReceiveUpper(s, openings[n], below);
    }
  }

  method WriteAll(s: SendHalf, writes: seq<seq<byte>>)
    requires s.Valid()
    modifies s.Repr
    ensures s.Valid() && s.written == old(s.written) + Concat(writes)
  {
    var rest := writes;
    while rest != []
      invariant s.Valid() && s.written + Concat(rest) == old(s.written) + Concat(writes)
      decreases |rest|
    {
      ConcatStep(s.written, rest);
      var n, ok := s.Write(rest[0]);
      rest := rest[1..];
    }
  }

  lemma ConcatStep(before: seq<byte>, rest: seq<seq<byte>>)
    requires rest != []
    ensures before + rest[0] + Concat(rest[1..]) == before + Concat(rest)
  {
  }

  /** Every read has room for at least a byte. */
  predicate AllRoomy(sizes: seq<nat>) {
    forall i :: 0 <= i < |sizes| ==> sizes[i] > 0
  }

  method ReadAll(r: RecvHalf, sizes: seq<nat>) returns (out: seq<byte>, ended: bool)
    requires r.Valid()
    modifies r.Repr
    ensures r.Valid() && r.got == old(r.got) + out
    ensures ended ==> r.wire.pieces == []
    ensures ended && r.wire.got == r.wire.all ==> r.got == r.plain
    ensures AllRoomy(sizes) ==> ended || |out| >= |sizes|
  {
    out, ended := [], false;
    var i := 0;
    while i < |sizes| && !ended
      invariant 0 <= i <= |sizes|
      invariant AllRoomy(sizes) ==> ended || |out| >= i
      invariant r.Valid() && r.got == old(r.got) + out
      invariant ended ==> r.wire.pieces == []
      invariant ended && r.wire.got == r.wire.all ==> r.got == r.plain
    {
      var b;
      b, ended := r.Read(sizes[i]);
      Regroup(old(r.got), out, b);
      out := out + b;
      i := i + 1;
    }
  }

  method ReadFromStart(r: RecvHalf, sizes: seq<nat>) returns (out: seq<byte>, ended: bool)
    requires r.Valid() && r.got == []
    modifies r.Repr
    ensures out <= r.plain
    ensures ended && r.wire.arrives == r.wire.all ==> out == r.plain
    ensures AllRoomy(sizes) ==> ended || |out| >= |sizes|
  {
    out, ended := ReadAll(r, sizes);
    assert r.got == out;
    r.InOrder();
    assert ended ==> r.wire.got == r.wire.arrives;
  }

  /** Build a stack of these layers and write through it. */
  method Send(layers: seq<Layer>, writes: seq<seq<byte>>) returns (s: SendHalf)
    requires layers != [] && AllBuildable(layers)
    ensures s.Valid() && s.height == |layers| - 1 && Opens(s, OpeningsOf(layers))
    ensures s.written == Concat(writes)
  {
    s := SendStack(layers);
    WriteAll(s, writes);
  }

  /**
   A stack of any number of layers is a faithful byte stream, whatever was sent under each layer before it
   began. Whatever prefix of the wire gets through, however it is cut into pieces, and for every sequence of
   read sizes, the bytes read are in order the beginning of the bytes written at the top. If everything got
   through, the stack is up, and the end of the stream is reported only once all of them were read; and no
   read with room for a byte returns without one, so more of them than bytes were written read everything.
   */
  method Receive(s: SendHalf, openings: seq<Opening>, pieces: seq<seq<byte>>, sizes: seq<nat>)
    returns (up: bool, out: seq<byte>, ended: bool)
    requires s.Valid() && Opens(s, openings) && Concat(pieces) <= s.wire.written
    ensures out <= s.written
    ensures Concat(pieces) == s.wire.written ==> up
    ensures up && ended && Concat(pieces) == s.wire.written ==> out == s.written
    ensures !up ==> out == []
    ensures AllRoomy(sizes) ==> ended || |out| >= |sizes|
    ensures Concat(pieces) == s.wire.written && AllRoomy(sizes) && |sizes| > |s.written| ==> ended && out == s.written
  {
    var wire := new Source(pieces, s.wire.written);
    var r := ReceiveStack(s, openings, wire);
    if r == null {
      return false, [], true;
    }
    up := true;
    out, ended := ReadFromStart(r, sizes);
  }
}
