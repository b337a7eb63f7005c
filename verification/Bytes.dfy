/** Byte sequences, big-endian lengths and the length-prefixed frames every layer uses. */
module Bytes {

  type byte = x: int | 0 <= x < 256

  const MAX_FRAME: nat := 65535

  function U16(n: nat): (b: seq<byte>)
    requires n <= MAX_FRAME
    ensures |b| == 2
  {
    [n / 256, n % 256]
  }

  function ReadU16(b: seq<byte>): (n: nat)
    requires |b| >= 2
    ensures n <= MAX_FRAME
  {
    var hi: int, lo: int := b[0], b[1];
    hi * 256 + lo
  }

  lemma U16Inverse(n: nat, rest: seq<byte>)
    requires n <= MAX_FRAME
    ensures ReadU16(U16(n) + rest) == n
  {
  }

  lemma ReadU16Inverse(b: seq<byte>)
    requires |b| >= 2
    ensures U16(ReadU16(b)) == b[..2]
  {
  }

  lemma Regroup<T>(a: seq<T>, b: seq<T>, c: seq<T>)
    ensures a + b + c == a + (b + c)
  {
  }

  lemma Cancel<T>(a: seq<T>, b: seq<T>, c: seq<T>)
    requires a + b == a + c
    ensures b == c
  {
    assert b == (a + b)[|a|..] && c == (a + c)[|a|..];
  }

  function Concat<T>(parts: seq<seq<T>>): seq<T> {
    if parts == [] then [] else parts[0] + Concat(parts[1..])
  }

  lemma {:induction false} ConcatJoin<T>(a: seq<seq<T>>, b: seq<seq<T>>)
    ensures Concat(a + b) == Concat(a) + Concat(b)
  {
    if a == [] {
      assert a + b == b;
    } else {
      ConcatJoin(a[1..], b);
      assert (a + b)[0] == a[0] && (a + b)[1..] == a[1..] + b;
    }
  }

  lemma ConcatOne<T>(a: seq<T>)
    ensures Concat([a]) == a
  {
    assert [a][1..] == [];
  }

  lemma ConcatSnoc<T>(a: seq<seq<T>>, x: seq<T>)
    ensures Concat(a + [x]) == Concat(a) + x
  {
    ConcatJoin(a, [x]);
    ConcatOne(x);
  }

  // ---------- frames ----------

  predicate Framable(body: seq<byte>) {
    |body| <= MAX_FRAME
  }

  function Frame(body: seq<byte>): (f: seq<byte>)
    requires Framable(body)
    ensures |f| == 2 + |body|
  {
    U16(|body|) + body
  }

  /** A complete frame at the front of a buffer. */
  predicate HasFrame(b: seq<byte>) {
    |b| >= 2 && |b| >= 2 + ReadU16(b)
  }

  function FirstFrame(b: seq<byte>): (body: seq<byte>)
    requires HasFrame(b)
    ensures Framable(body)
  {
    b[2..2 + ReadU16(b)]
  }

  function AfterFrame(b: seq<byte>): seq<byte>
    requires HasFrame(b)
  {
    b[2 + ReadU16(b)..]
  }

  lemma FrameSplits(b: seq<byte>)
    requires HasFrame(b)
    ensures b == Frame(FirstFrame(b)) + AfterFrame(b)
  {
    ReadU16Inverse(b);
  }

  lemma FrameFirst(body: seq<byte>, rest: seq<byte>)
    requires Framable(body)
    ensures HasFrame(Frame(body) + rest)
    ensures FirstFrame(Frame(body) + rest) == body && AfterFrame(Frame(body) + rest) == rest
  {
    assert Frame(body) + rest == U16(|body|) + (body + rest);
    U16Inverse(|body|, body + rest);
  }

  ghost predicate AllFramable(bodies: seq<seq<byte>>) {
    forall i :: 0 <= i < |bodies| ==> Framable(bodies[i])
  }

  /** The byte stream a sequence of frames makes. */
  ghost function Framed(bodies: seq<seq<byte>>): seq<byte>
    requires AllFramable(bodies)
  {
    if bodies == [] then [] else Frame(bodies[0]) + Framed(bodies[1..])
  }

  lemma {:induction false} FramedSnoc(bodies: seq<seq<byte>>, body: seq<byte>)
    requires AllFramable(bodies) && Framable(body)
    ensures AllFramable(bodies + [body])
    ensures Framed(bodies + [body]) == Framed(bodies) + Frame(body)
  {
    var all := bodies + [body];
    if bodies == [] {
      assert all == [body] && [body][1..] == [];
      assert Framed([]) == [];
    } else {
      FramedSnoc(bodies[1..], body);
      assert all[1..] == bodies[1..] + [body];
    }
  }

  /** A frame stream can be read back in one way only: bytes that begin it begin it frame by frame. */
  lemma {:induction false} ParsePrefix(taken: seq<seq<byte>>, rest: seq<byte>, sent: seq<seq<byte>>)
    requires AllFramable(taken) && AllFramable(sent)
    requires Framed(taken) + rest <= Framed(sent)
    ensures taken <= sent
    ensures rest <= Framed(sent[|taken|..])
  {
    if taken != [] {
      var given := Framed(taken) + rest;
      FrameFirst(taken[0], Framed(taken[1..]) + rest);
      assert given == Frame(taken[0]) + (Framed(taken[1..]) + rest);
      assert sent != [];
      FrameFirst(sent[0], Framed(sent[1..]));
      SamePrefixSameFrame(given, Framed(sent));
      assert Framed(taken[1..]) + rest <= Framed(sent[1..]);
      ParsePrefix(taken[1..], rest, sent[1..]);
      assert sent[1..][|taken| - 1..] == sent[|taken|..];
    }
  }

  lemma SamePrefixSameFrame(a: seq<byte>, b: seq<byte>)
    requires a <= b && HasFrame(a)
    ensures HasFrame(b) && FirstFrame(a) == FirstFrame(b) && AfterFrame(a) <= AfterFrame(b)
  {
    assert a[0] == b[0] && a[1] == b[1];
  }

  /** A nonempty remainder of a frame stream always holds a complete frame. */
  lemma RemainderHasFrame(sent: seq<seq<byte>>)
    requires AllFramable(sent) && sent != []
    ensures HasFrame(Framed(sent)) && FirstFrame(Framed(sent)) == sent[0]
  {
    FrameFirst(sent[0], Framed(sent[1..]));
  }
}
