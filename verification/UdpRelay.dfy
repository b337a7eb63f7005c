/** Datagrams over the encrypted stream, and the SOCKS5 UDP request codec (core/udprelay.go). */
module UdpRelay {
  import opened Wrappers
  import opened Bytes
  import opened NoiseConn

  // ---------- datagram boundaries over the stream ----------

  method WriteUdpFrame(s: SendHalf, payload: seq<byte>) returns (ok: bool)
    requires s.Valid()
    modifies s.Repr
    ensures s.Valid()
    ensures ok <==> Framable(payload)
    ensures s.written == if ok then old(s.written) + Frame(payload) else old(s.written)
  {
    if |payload| > MAX_FRAME {
      return false;
    }
    var n, done := s.Write(U16(|payload|) + payload);
    ok := done;
  }

  method SendDatagrams(s: SendHalf, payloads: seq<seq<byte>>)
    requires s.Valid() && AllFramable(payloads)
    modifies s.Repr
    ensures s.Valid() && s.written == old(s.written) + Framed(payloads)
  {
    var rest := payloads;
    while rest != []
      invariant AllFramable(rest) && s.Valid()
      invariant s.written + Framed(rest) == old(s.written) + Framed(payloads)
      decreases |rest|
    {
      FramedStep(s.written, rest);
      var ok := WriteUdpFrame(s, rest[0]);
      rest := rest[1..];
    }
  }

  /** A stream at a datagram boundary continues with the next datagram's own length and bytes. */
  lemma NextDatagram(payloads: seq<seq<byte>>, k: nat, head: seq<byte>, body: seq<byte>)
    requires AllFramable(payloads) && k <= |payloads|
    requires AllFramable(payloads[..k]) && Framed(payloads[..k]) + head + body <= Framed(payloads)
    requires |head| == 2
    ensures k < |payloads| && ReadU16(head) == |payloads[k]|
    ensures |body| == ReadU16(head) ==> body == payloads[k]
  {
    assert Framed(payloads[..k]) + head + body == Framed(payloads[..k]) + (head + body);
    ParsePrefix(payloads[..k], head + body, payloads);
    var left := payloads[k..];
    assert left != [];
    RemainderHasFrame(left);
    assert head == (head + body)[..2] == Framed(left)[..2];
    if |body| == ReadU16(head) {
      assert HasFrame(head + body);
      SamePrefixSameFrame(head + body, Framed(left));
      assert body == FirstFrame(head + body);
    }
  }

  datatype UdpRead = Datagram(payload: seq<byte>) | TooLarge | End

  /**
   readUDPFrame at a boundary returns exactly the next datagram that was written, however the stream was
   cut, or that it does not fit the caller's buffer, exactly when it does not; it reports the end only when
   the stream stopped, and then, if everything got through, only after the last datagram.
   */
  method ReadUdpFrame(r: RecvHalf, capacity: nat, ghost payloads: seq<seq<byte>>, ghost k: nat) returns (u: UdpRead)
    requires r.Valid() && AllFramable(payloads) && k <= |payloads|
    requires r.plain == Framed(payloads) && AllFramable(payloads[..k]) && r.got == Framed(payloads[..k])
    modifies r.Repr
    ensures r.Valid()
    ensures u.Datagram? ==> k < |payloads| && u.payload == payloads[k] && |u.payload| <= capacity
                            && AllFramable(payloads[..k + 1]) && r.got == Framed(payloads[..k + 1])
    ensures u.TooLarge? ==> k < |payloads| && |payloads[k]| > capacity
    ensures u.End? ==> r.wire.pieces == [] && (r.wire.got == r.wire.all ==> k == |payloads|)
  {
    var head, ok := ReadFull(r, 2);
    r.InOrder();
    if !ok {
      if r.wire.got == r.wire.all {
        assert r.got + [] == r.got;
        StreamEndsAtBoundary(payloads, k, head, []);
      }
      return End;
    }
    if ReadU16(head) > capacity {
      assert r.got + [] == r.got;
      NextDatagram(payloads, k, head, []);
      return TooLarge;
    }
    var payload;
    payload, ok := ReadFull(r, ReadU16(head));
    r.InOrder();
    NextDatagram(payloads, k, head, payload);
    if !ok {
      if r.wire.got == r.wire.all {
        StreamEndsAtBoundary(payloads, k, head, payload);
      }
      return End;
    }
    DatagramDone(payloads, k, head);
    u := Datagram(payload);
  }

  lemma DatagramDone(payloads: seq<seq<byte>>, k: nat, head: seq<byte>)
    requires AllFramable(payloads) && k < |payloads| && |head| == 2 && ReadU16(head) == |payloads[k]|
    ensures AllFramable(payloads[..k]) && AllFramable(payloads[..k + 1])
    ensures Framed(payloads[..k]) + head + payloads[k] == Framed(payloads[..k + 1])
  {
    assert payloads[..k + 1] == payloads[..k] + [payloads[k]];
    FramedSnoc(payloads[..k], payloads[k]);
    ReadU16Inverse(head);
    assert head + payloads[k] == Frame(payloads[k]);
    assert Framed(payloads[..k]) + head + payloads[k] == Framed(payloads[..k]) + (head + payloads[k]);
  }

  /** All datagrams, with less than one left over: there was none left. */
  lemma StreamEndsAtBoundary(payloads: seq<seq<byte>>, k: nat, head: seq<byte>, body: seq<byte>)
    requires AllFramable(payloads) && k <= |payloads| && AllFramable(payloads[..k])
    requires Framed(payloads[..k]) + head + body == Framed(payloads)
    requires |head| < 2 ==> body == []
    requires |head| >= 2 ==> |head| == 2 && |body| < ReadU16(head)
    ensures k == |payloads|
  {
    var rest := head + body;
    assert Framed(payloads[..k]) + head + body == Framed(payloads[..k]) + rest;
    FramedSplit(payloads, k);
    Cancel(Framed(payloads[..k]), rest, Framed(payloads[k..]));
    assert |head| == 2 ==> rest[..2] == head;
    if k < |payloads| {
      RemainderHasFrame(payloads[k..]);
    }
  }

  lemma OneMore<T>(s: seq<T>, n: nat)
    requires n < |s|
    ensures s[..n] + [s[n]] == s[..n + 1]
  {
  }

  /** Any sequence of datagrams written to the stream is read back as the same sequence. */
  method ReceiveDatagrams(r: RecvHalf, ghost payloads: seq<seq<byte>>) returns (out: seq<seq<byte>>)
    requires r.Valid() && AllFramable(payloads) && r.plain == Framed(payloads) && r.got == []
    modifies r.Repr
    ensures out <= payloads
    ensures r.wire.arrives == r.wire.all ==> out == payloads
  {
    out := [];
    var ok := true;
    assert payloads[..0] == [];
    while ok
      invariant |out| <= |payloads| && out == payloads[..|out|]
      invariant r.Valid()
      invariant ok ==> r.got == Framed(payloads[..|out|])
      invariant !ok && r.wire.arrives == r.wire.all ==> |out| == |payloads|
      decreases |payloads| - |out|, ok
    {
      var u := ReadUdpFrame(r, MAX_FRAME, payloads, |out|);
      ok := u.Datagram?;
      if ok {
        OneMore(payloads, |out|);
        out := out + [u.payload];
      }
    }
    assert payloads[..|payloads|] == payloads;
  }

  /** Build a stack of these layers and send datagrams through it. */
  method SendOver(layers: seq<Layer>, payloads: seq<seq<byte>>) returns (s: SendHalf)
    requires layers != [] && AllBuildable(layers) && AllFramable(payloads)
    ensures s.Valid() && s.height == |layers| - 1 && Opens(s, OpeningsOf(layers))
    ensures s.written == Framed(payloads)
  {
    s := SendStack(layers);
    SendDatagrams(s, payloads);
  }

  /**
   Datagram boundaries survive a stack of any depth, whatever was sent under each layer before it began:
   whatever prefix of the wire gets through and however it is cut, what is read is the datagrams sent, in
   order and whole, and all of them if everything got through.
   */
  method ReceiveOver(s: SendHalf, openings: seq<Opening>, ghost payloads: seq<seq<byte>>, pieces: seq<seq<byte>>)
    returns (up: bool, out: seq<seq<byte>>)
    requires s.Valid() && Opens(s, openings) && AllFramable(payloads) && s.written == Framed(payloads)
    requires Concat(pieces) <= s.wire.written
    ensures out <= payloads
    ensures Concat(pieces) == s.wire.written ==> up && out == payloads
    ensures !up ==> out == []
  {
    var wire := new Source(pieces, s.wire.written);
    var r := ReceiveStack(s, openings, wire);
    up := r != null;
    if !up {
      return false, [];
    }
    out := ReceiveDatagrams(r, payloads);
  }

  // ---------- the SOCKS5 UDP request codec (section 7 of RFC 1928, IPv4, unfragmented) ----------

  const SOCKS_UDP_HEADER: nat := 10

  datatype Packet = Packet(ip: seq<byte>, port: nat, payload: seq<byte>)

  /** What the codec can carry: an IPv4 address and a 16-bit port. */
  ghost predicate Carriable(d: Packet) {
    |d.ip| == 4 && d.port <= MAX_FRAME
  }

  datatype CodecError = BadFrame

  function DecodeSocks(b: seq<byte>): (r: Result<Packet, CodecError>)
    ensures r.Ok? ==> Carriable(r.value)
  {
    if |b| < SOCKS_UDP_HEADER || b[0] != 0 || b[1] != 0 || b[2] != 0 || b[3] != 1 then
      Err(BadFrame)
    else
      Ok(Packet(b[4..8], ReadU16(b[8..10]), b[SOCKS_UDP_HEADER..]))
  }

  /** The 4-byte form of an address: itself, the end of a mapped IPv6 one, or nothing. */
  function To4(ip: seq<byte>): (v4: seq<byte>)
    ensures |v4| == 4 || v4 == []
  {
    if |ip| == 4 then ip
    else if |ip| == 16 && (forall i :: 0 <= i < 10 ==> ip[i] == 0) && ip[10] == 255 && ip[11] == 255 then ip[12..]
    else []
  }

  function EncodeSocks(ip: seq<byte>, port: nat, payload: seq<byte>): (b: seq<byte>)
    requires port <= MAX_FRAME
    ensures |b| == SOCKS_UDP_HEADER + |payload|
  {
    [0, 0, 0, 1] + (if To4(ip) == [] then [0, 0, 0, 0] else To4(ip)) + U16(port) + payload
  }

  /** Decoding what was encoded gives the datagram back. */
  lemma DecodeOfEncode(d: Packet)
    requires Carriable(d)
    ensures DecodeSocks(EncodeSocks(d.ip, d.port, d.payload)) == Ok(d)
  {
    var b := EncodeSocks(d.ip, d.port, d.payload);
    assert b[4..8] == d.ip;
    assert b[8..10] == U16(d.port) == U16(d.port) + [];
    U16Inverse(d.port, []);
    assert b[10..] == d.payload;
  }

  /** The first twelve bytes of an IPv4 address mapped into IPv6 (section 2.5.5.2 of RFC 4291). */
  const MAPPED: seq<byte> := [0, 0, 0, 0, 0, 0, 0, 0, 0, 0, 255, 255]

  /** What an address of any form is decoded to: itself, what it maps, or nothing at all for any other one. */
  lemma DecodeOfAnyForm(ip: seq<byte>, port: nat, payload: seq<byte>)
    requires port <= MAX_FRAME
    ensures var got := DecodeSocks(EncodeSocks(ip, port, payload));
            && got.Ok? && got.value.port == port && got.value.payload == payload
            && (|ip| == 4 ==> got.value.ip == ip)
            && (|ip| == 16 && MAPPED <= ip ==> got.value.ip == ip[12..])
            && (|ip| != 4 && !(|ip| == 16 && MAPPED <= ip) ==> got.value.ip == [0, 0, 0, 0])
  {
    if |ip| == 16 {
      MappedIsPrefix(ip);
    }
    var v4: seq<byte> := if To4(ip) == [] then [0, 0, 0, 0] else To4(ip);
    assert EncodeSocks(ip, port, payload) == EncodeSocks(v4, port, payload);
    DecodeOfEncode(Packet(v4, port, payload));
  }

  lemma MappedIsPrefix(ip: seq<byte>)
    requires |ip| == 16
    ensures MAPPED <= ip <==> (forall i :: 0 <= i < 10 ==> ip[i] == 0) && ip[10] == 255 && ip[11] == 255
  {
    assert MAPPED <= ip <==> forall i :: 0 <= i < 12 ==> ip[i] == MAPPED[i];
  }

  /** Re-encoding any frame that was accepted gives the same bytes. */
  lemma EncodeOfDecode(b: seq<byte>)
    requires DecodeSocks(b).Ok?
    ensures var d := DecodeSocks(b).value; EncodeSocks(d.ip, d.port, d.payload) == b
  {
    ReadU16Inverse(b[8..10]);
    assert b == b[..4] + b[4..8] + b[8..10] + b[10..];
    assert b[..4] == [0, 0, 0, 1];
  }
}
