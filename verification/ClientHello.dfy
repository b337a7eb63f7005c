/**
 Peeking at a TLS ClientHello and replaying it (core/reality_clienthello.go). The message format is that of
 sections 4.1.2 and 4.2.8 of RFC 8446.
 */
module ClientHello {
  import opened Wrappers
  import opened Bytes
  import opened NoiseConn

  const RECORD_HANDSHAKE: byte := 22
  const MSG_CLIENT_HELLO: byte := 1
  const EXT_KEY_SHARE: nat := 0x0033
  const GROUP_X25519: nat := 29
  const MAX_RECORD: nat := 16384

  // ---------- big-endian lengths of any width ----------

  function Cap(width: nat): nat {
    if width == 0 then 1 else 256 * Cap(width - 1)
  }

  function Digits(width: nat, n: nat): (b: seq<byte>)
    ensures |b| == width
  {
    if width == 0 then [] else Digits(width - 1, n / 256) + [n % 256]
  }

  function Value(b: seq<byte>): nat {
    if b == [] then 0
    else
      var last: int := b[|b| - 1];
      256 * Value(b[..|b| - 1]) + last
  }

  lemma {:induction false} ValueOfDigits(width: nat, n: nat)
    requires n < Cap(width)
    ensures Value(Digits(width, n)) == n
  {
    if width > 0 {
      ValueOfDigits(width - 1, n / 256);
      assert Digits(width, n)[..width - 1] == Digits(width - 1, n / 256);
    }
  }

  lemma {:induction false} DigitsOfValue(b: seq<byte>)
    ensures Value(b) < Cap(|b|) && Digits(|b|, Value(b)) == b
  {
    if b != [] {
      DigitsOfValue(b[..|b| - 1]);
      assert b == b[..|b| - 1] + [b[|b| - 1]];
    }
  }

  // ---------- reading, as values ----------

  type Read = Option<(seq<byte>, seq<byte>)>

  function Take(s: seq<byte>, n: nat): Read {
    if |s| < n then None else Some((s[..n], s[n..]))
  }

  /** A length of the given width, and that many bytes. */
  function TakePrefixed(s: seq<byte>, width: nat): Read {
    match Take(s, width)
    case None => None
    case Some((length, rest)) => Take(rest, Value(length))
  }

  function Prefixed(width: nat, data: seq<byte>): seq<byte> {
    Digits(width, |data|) + data
  }

  lemma TakeFirst(a: seq<byte>, rest: seq<byte>)
    ensures Take(a + rest, |a|) == Some((a, rest))
  {
  }

  lemma PrefixedFirst(width: nat, data: seq<byte>, rest: seq<byte>)
    requires |data| < Cap(width)
    ensures TakePrefixed(Prefixed(width, data) + rest, width) == Some((data, rest))
  {
    assert Prefixed(width, data) + rest == Digits(width, |data|) + (data + rest);
    TakeFirst(Digits(width, |data|), data + rest);
    ValueOfDigits(width, |data|);
    TakeFirst(data, rest);
  }

  lemma PrefixedSplits(s: seq<byte>, width: nat)
    requires TakePrefixed(s, width).Some?
    ensures var (data, rest) := TakePrefixed(s, width).value;
            s == Prefixed(width, data) + rest && |data| < Cap(width)
  {
    var length := s[..width];
    DigitsOfValue(length);
    TakenJoins(s, width, Value(length));
  }

  lemma TakenJoins(s: seq<byte>, n: nat, m: nat)
    requires n + m <= |s|
    ensures s == s[..n] + s[n..][..m] + s[n..][m..] && |s[n..][..m]| == m
  {
  }

  /** What authentication needs of a hello; x25519 is the last 32-byte share of that group, if any. */
  datatype Fields = Fields(random: seq<byte>, sessionId: seq<byte>, x25519: Option<seq<byte>>)

  function Better(group: nat, key: seq<byte>, found: Option<seq<byte>>): Option<seq<byte>> {
    if group == GROUP_X25519 && |key| == 32 then Some(key) else found
  }

  /** A two-byte code and a two-byte-prefixed value, as key shares and extensions both are. */
  function TakeEntry(s: seq<byte>): (r: Option<(nat, seq<byte>, seq<byte>)>)
    ensures r.Some? ==> |r.value.2| < |s|
  {
    match Take(s, 2)
    case None => None
    case Some((code, rest)) =>
      match TakePrefixed(rest, 2)
      case None => None
      case Some((data, after)) => Some((Value(code), data, after))
  }

  function ParseShares(s: seq<byte>, found: Option<seq<byte>>): Option<Option<seq<byte>>> {
    if s == [] then Some(found)
    else
      match TakeEntry(s)
      case None => None
      case Some((group, key, rest)) => ParseShares(rest, Better(group, key, found))
  }

  function ParseKeyShare(data: seq<byte>, found: Option<seq<byte>>): Option<Option<seq<byte>>> {
    match TakePrefixed(data, 2)
    case None => None
    case Some((shares, _)) => ParseShares(shares, found)
  }

  function ParseExtensions(s: seq<byte>, found: Option<seq<byte>>): Option<Option<seq<byte>>> {
    if s == [] then Some(found)
    else
      match TakeEntry(s)
      case None => None
      case Some((kind, data, rest)) =>
        if kind != EXT_KEY_SHARE then ParseExtensions(rest, found)
        else
          match ParseKeyShare(data, found)
          case None => None
          case Some(share) => ParseExtensions(rest, share)
  }

  /** The part of the message before its extensions: random, session id, and what follows. */
  function ParseFront(hs: seq<byte>): Option<(seq<byte>, seq<byte>, seq<byte>)> {
    match Take(hs, 2)
    case None => None
    case Some((_, s1)) =>
      match Take(s1, 32)
      case None => None
      case Some((random, s2)) =>
        match TakePrefixed(s2, 1)
        case None => None
        case Some((session, s3)) =>
          match TakePrefixed(s3, 2)
          case None => None
          case Some((_, s4)) =>
            match TakePrefixed(s4, 1)
            case None => None
            case Some((_, s5)) => Some((random, session, s5))
  }

  function ParseBack(random: seq<byte>, session: seq<byte>, s: seq<byte>): Option<Fields> {
    if s == [] then Some(Fields(random, session, None))
    else
      match TakePrefixed(s, 2)
      case None => None
      case Some((exts, _)) =>
        match ParseExtensions(exts, None)
        case None => None
        case Some(share) => Some(Fields(random, session, share))
  }

  function ParseHello(body: seq<byte>): Option<Fields> {
    if body == [] || body[0] != MSG_CLIENT_HELLO then None
    else
      match TakePrefixed(body[1..], 3)
      case None => None
      case Some((hs, _)) =>
        match ParseFront(hs)
        case None => None
        case Some((random, session, rest)) => ParseBack(random, session, rest)
  }

  // ---------- reading, as the source does it ----------

  /** A bounds-checked reader that moves along its bytes. */
  class Cursor {
    var rest: seq<byte>

    constructor (s: seq<byte>)
      ensures rest == s
    {
      rest := s;
    }

    method Read(n: nat) returns (ok: bool, out: seq<byte>)
      modifies this
      ensures ok == Take(old(rest), n).Some?
      ensures ok ==> (out, rest) == Take(old(rest), n).value
    {
      if |rest| < n {
        return false, [];
      }
      out, rest := rest[..n], rest[n..];
      ok := true;
    }

    /** A length, big-endian, then that many bytes. */
    method ReadPrefixed(width: nat) returns (ok: bool, out: seq<byte>)
      modifies this
      ensures ok == TakePrefixed(old(rest), width).Some?
      ensures ok ==> (out, rest) == TakePrefixed(old(rest), width).value
    {
      var length;
      ok, length := Read(width);
      if ok {
        ok, out := Read(Value(length));
      } else {
        out := [];
      }
    }

    method ReadEntry() returns (ok: bool, code: nat, data: seq<byte>)
      modifies this
      ensures ok == TakeEntry(old(rest)).Some?
      ensures ok ==> (code, data, rest) == TakeEntry(old(rest)).value
    {
      var two;
      code, data := 0, [];
      ok, two := Read(2);
      if ok {
        code := Value(two);
        ok, data := ReadPrefixed(2);
      }
    }
  }

  /** The walk over the shares of one key-share extension. */
  method WalkShares(s: seq<byte>, found: Option<seq<byte>>) returns (ok: bool, share: Option<seq<byte>>)
    ensures ok == ParseShares(s, found).Some?
    ensures ok ==> ParseShares(s, found) == Some(share)
  {
    share := found;
    var shares := new Cursor(s);
    while shares.rest != []
      invariant ParseShares(shares.rest, share) == ParseShares(s, found)
      decreases |shares.rest|
    {
      var group, key;
      ok, group, key := shares.ReadEntry();
      if !ok {
        return;
      }
      if group == GROUP_X25519 && |key| == 32 {
        share := Some(key);
      }
    }
    ok := true;
  }

  method WalkExtensions(s: seq<byte>) returns (ok: bool, share: Option<seq<byte>>)
    ensures ok == ParseExtensions(s, None).Some?
    ensures ok ==> ParseExtensions(s, None) == Some(share)
  {
    share := None;
    var exts := new Cursor(s);
    while exts.rest != []
      invariant ParseExtensions(exts.rest, share) == ParseExtensions(s, None)
      decreases |exts.rest|
    {
      var kind, data;
      ok, kind, data := exts.ReadEntry();
      if !ok {
        return;
      }
      if kind == EXT_KEY_SHARE {
        var ext := new Cursor(data);
        var shares;
        ok, shares := ext.ReadPrefixed(2);
        if !ok {
          return;
        }
        ok, share := WalkShares(shares, share);
        if !ok {
          return;
        }
      }
    }
    ok := true;
  }

  method ParseClientHello(body: seq<byte>) returns (hello: Option<Fields>)
    ensures hello == ParseHello(body)
  {
    var s := new Cursor(body);
    var ok, kind := s.Read(1);
    if !ok || kind[0] != MSG_CLIENT_HELLO {
      return None;
    }
    var msg;
    ok, msg := s.ReadPrefixed(3);
    if !ok {
      return None;
    }
    var hs := new Cursor(msg);
    var version, random, session, suites, compression;
    ok, version := hs.Read(2);
    if !ok {
      return None;
    }
    ok, random := hs.Read(32);
    if !ok {
      return None;
    }
    ok, session := hs.ReadPrefixed(1);
    if !ok {
      return None;
    }
    ok, suites := hs.ReadPrefixed(2);
    if !ok {
      return None;
    }
    ok, compression := hs.ReadPrefixed(1);
    if !ok {
      return None;
    }
    assert ParseFront(msg) == Some((random, session, hs.rest));
    if hs.rest == [] {
      return Some(Fields(random, session, None));
    }
    var exts, share;
    ok, exts := hs.ReadPrefixed(2);
    if !ok {
      return None;
    }
    ok, share := WalkExtensions(exts);
    return if ok then Some(Fields(random, session, share)) else None;
  }

  // ---------- the messages themselves ----------

  datatype Share = Share(group: nat, key: seq<byte>)

  /** An extension; tail is what follows the share list inside a key-share extension, empty in RFC 8446. */
  datatype Extension = KeyShares(shares: seq<Share>, tail: seq<byte>) | Other(kind: nat, data: seq<byte>)

  /** A hello with or without extensions; tails, empty in RFC 8446, are what the parser leaves unread. */
  datatype Extensions = Absent | Present(list: seq<Extension>, tail: seq<byte>)

  datatype Hello = Hello(
    version: seq<byte>, random: seq<byte>, session: seq<byte>, suites: seq<byte>, compression: seq<byte>,
    exts: Extensions, tail: seq<byte>)

  function Entry(code: nat, data: seq<byte>): seq<byte> {
    Digits(2, code) + Prefixed(2, data)
  }

  function SharesBytes(shares: seq<Share>): seq<byte> {
    if shares == [] then [] else Entry(shares[0].group, shares[0].key) + SharesBytes(shares[1..])
  }

  function ExtensionData(e: Extension): seq<byte> {
    match e
    case KeyShares(shares, tail) => Prefixed(2, SharesBytes(shares)) + tail
    case Other(_, data) => data
  }

  function ExtensionBytes(e: Extension): seq<byte> {
    Entry(if e.KeyShares? then EXT_KEY_SHARE else e.kind, ExtensionData(e))
  }

  function ListBytes(list: seq<Extension>): seq<byte> {
    if list == [] then [] else ExtensionBytes(list[0]) + ListBytes(list[1..])
  }

  function ExtensionsBytes(x: Extensions): seq<byte> {
    match x
    case Absent => []
    case Present(list, tail) => Prefixed(2, ListBytes(list)) + tail
  }

  function FrontBytes(m: Hello): seq<byte> {
    m.version + (m.random + (Prefixed(1, m.session) + (Prefixed(2, m.suites) + Prefixed(1, m.compression))))
  }

  function MessageBytes(m: Hello): seq<byte> {
    FrontBytes(m) + ExtensionsBytes(m.exts)
  }

  function HelloBytes(m: Hello): seq<byte> {
    [MSG_CLIENT_HELLO] + (Prefixed(3, MessageBytes(m)) + m.tail)
  }

  // Every length and code fits its field.

  ghost predicate ShareFits(s: Share) {
    s.group < Cap(2) && |s.key| < Cap(2)
  }

  ghost predicate SharesFit(shares: seq<Share>) {
    forall i :: 0 <= i < |shares| ==> ShareFits(shares[i])
  }

  ghost predicate ExtensionFits(e: Extension) {
    && |ExtensionData(e)| < Cap(2)
    && (e.KeyShares? ==> SharesFit(e.shares) && |SharesBytes(e.shares)| < Cap(2))
    && (e.Other? ==> e.kind < Cap(2) && e.kind != EXT_KEY_SHARE)
  }

  ghost predicate ListFits(list: seq<Extension>) {
    forall i :: 0 <= i < |list| ==> ExtensionFits(list[i])
  }

  ghost predicate ExtensionsFit(x: Extensions) {
    x.Present? ==> ListFits(x.list) && |ListBytes(x.list)| < Cap(2)
  }

  ghost predicate FrontFits(m: Hello) {
    |m.version| == 2 && |m.random| == 32 && |m.session| < Cap(1) && |m.suites| < Cap(2) && |m.compression| < Cap(1)
  }

  ghost predicate WellFormed(m: Hello) {
    FrontFits(m) && ExtensionsFit(m.exts) && |MessageBytes(m)| < Cap(3)
  }

  function Usable(s: Share): bool {
    s.group == GROUP_X25519 && |s.key| == 32
  }

  /** The last 32-byte x25519 share, wherever it stands. */
  function LastUsable(shares: seq<Share>): Option<seq<byte>> {
    if shares == [] then None
    else
      var last := shares[|shares| - 1];
      if Usable(last) then Some(last.key) else LastUsable(shares[..|shares| - 1])
  }

  function SharesOf(list: seq<Extension>): seq<Share> {
    if list == [] then []
    else (if list[0].KeyShares? then list[0].shares else []) + SharesOf(list[1..])
  }

  /** What a hello offers for authentication. */
  function FieldsOf(m: Hello): Fields {
    Fields(m.random, m.session, if m.exts.Present? then LastUsable(SharesOf(m.exts.list)) else None)
  }

  // ---------- parsing inverts serialization ----------

  function Or(a: Option<seq<byte>>, b: Option<seq<byte>>): Option<seq<byte>> {
    if a.Some? then a else b
  }

  lemma {:induction false} LastOfJoin(a: seq<Share>, b: seq<Share>)
    ensures LastUsable(a + b) == Or(LastUsable(b), LastUsable(a))
  {
    if b == [] {
      assert a + b == a;
    } else {
      LastOfJoin(a, b[..|b| - 1]);
      assert (a + b)[..|a + b| - 1] == a + b[..|b| - 1];
    }
  }

  lemma LastOfOne(s: Share)
    ensures LastUsable([s]) == Better(s.group, s.key, None)
  {
    assert [s][..0] == [];
    assert LastUsable([]) == None;
  }

  lemma LastOfCons(shares: seq<Share>, found: Option<seq<byte>>)
    requires shares != []
    ensures Or(LastUsable(shares), found) == Or(LastUsable(shares[1..]), Better(shares[0].group, shares[0].key, found))
  {
    assert shares == [shares[0]] + shares[1..];
    LastOfJoin([shares[0]], shares[1..]);
    LastOfOne(shares[0]);
  }

  lemma EntryFirst(code: nat, data: seq<byte>, rest: seq<byte>)
    requires code < Cap(2) && |data| < Cap(2)
    ensures TakeEntry(Entry(code, data) + rest) == Some((code, data, rest))
    ensures |Entry(code, data)| > 0
  {
    assert Entry(code, data) + rest == Digits(2, code) + (Prefixed(2, data) + rest);
    TakeFirst(Digits(2, code), Prefixed(2, data) + rest);
    ValueOfDigits(2, code);
    PrefixedFirst(2, data, rest);
  }

  lemma EntrySplits(s: seq<byte>)
    requires TakeEntry(s).Some?
    ensures var (code, data, rest) := TakeEntry(s).value;
            s == Entry(code, data) + rest && code < Cap(2) && |data| < Cap(2)
  {
    var (code, data, rest) := TakeEntry(s).value;
    DigitsOfValue(s[..2]);
    PrefixedSplits(s[2..], 2);
    assert s == s[..2] + s[2..];
    assert Entry(code, data) + rest == Digits(2, code) + (Prefixed(2, data) + rest);
  }

  lemma {:induction false} SharesRead(shares: seq<Share>, found: Option<seq<byte>>)
    requires SharesFit(shares)
    ensures ParseShares(SharesBytes(shares), found) == Some(Or(LastUsable(shares), found))
  {
    if shares != [] {
      var s := shares[0];
      assert ShareFits(s);
      EntryFirst(s.group, s.key, SharesBytes(shares[1..]));
      SharesRead(shares[1..], Better(s.group, s.key, found));
      LastOfCons(shares, found);
    }
  }

  lemma ExtensionRead(e: Extension, found: Option<seq<byte>>)
    requires ExtensionFits(e) && e.KeyShares?
    ensures ParseKeyShare(ExtensionData(e), found) == Some(Or(LastUsable(e.shares), found))
  {
    PrefixedFirst(2, SharesBytes(e.shares), e.tail);
    SharesRead(e.shares, found);
  }

  lemma {:induction false} ListRead(list: seq<Extension>, found: Option<seq<byte>>)
    requires ListFits(list)
    ensures ParseExtensions(ListBytes(list), found) == Some(Or(LastUsable(SharesOf(list)), found))
  {
    if list != [] {
      var e := list[0];
      assert ExtensionFits(e);
      EntryFirst(if e.KeyShares? then EXT_KEY_SHARE else e.kind, ExtensionData(e), ListBytes(list[1..]));
      if e.KeyShares? {
        ExtensionRead(e, found);
        ListRead(list[1..], Or(LastUsable(e.shares), found));
        LastOfJoin(e.shares, SharesOf(list[1..]));
      } else {
        ListRead(list[1..], found);
        assert [] + SharesOf(list[1..]) == SharesOf(list[1..]);
      }
    }
  }

  lemma FrontRead(m: Hello, rest: seq<byte>)
    requires FrontFits(m)
    ensures ParseFront(FrontBytes(m) + rest) == Some((m.random, m.session, rest))
  {
    var s5 := rest;
    var s4 := Prefixed(1, m.compression) + s5;
    var s3 := Prefixed(2, m.suites) + s4;
    var s2 := Prefixed(1, m.session) + s3;
    var s1 := m.random + s2;
    assert FrontBytes(m) + rest == m.version + s1;
    TakeFirst(m.version, s1);
    TakeFirst(m.random, s2);
    PrefixedFirst(1, m.session, s3);
    PrefixedFirst(2, m.suites, s4);
    PrefixedFirst(1, m.compression, s5);
  }

  lemma BackRead(random: seq<byte>, session: seq<byte>, x: Extensions)
    requires ExtensionsFit(x)
    ensures ParseBack(random, session, ExtensionsBytes(x)) ==
            Some(Fields(random, session, if x.Present? then LastUsable(SharesOf(x.list)) else None))
  {
    if x.Present? {
      PrefixedFirst(2, ListBytes(x.list), x.tail);
      ListRead(x.list, None);
      assert |Prefixed(2, ListBytes(x.list))| >= 2;
    }
  }

  /** A well-formed hello parses to its own random, session id and last usable share. */
  lemma ParseOfBytes(m: Hello)
    requires WellFormed(m)
    ensures ParseHello(HelloBytes(m)) == Some(FieldsOf(m))
  {
    var body := HelloBytes(m);
    assert body[1..] == Prefixed(3, MessageBytes(m)) + m.tail;
    PrefixedFirst(3, MessageBytes(m), m.tail);
    FrontRead(m, ExtensionsBytes(m.exts));
    BackRead(m.random, m.session, m.exts);
  }

  // ---------- and whatever parses is the serialization of something ----------

  lemma {:induction false} SharesOfBytes(s: seq<byte>, found: Option<seq<byte>>) returns (shares: seq<Share>)
    requires ParseShares(s, found).Some?
    ensures SharesFit(shares) && SharesBytes(shares) == s
    decreases |s|
  {
    if s == [] {
      shares := [];
    } else {
      EntrySplits(s);
      var (group, key, rest) := TakeEntry(s).value;
      var more := SharesOfBytes(rest, Better(group, key, found));
      shares := [Share(group, key)] + more;
      assert shares[1..] == more;
    }
  }

  lemma ExtensionOfEntry(kind: nat, data: seq<byte>, found: Option<seq<byte>>) returns (e: Extension)
    requires kind < Cap(2) && |data| < Cap(2) && (kind == EXT_KEY_SHARE ==> ParseKeyShare(data, found).Some?)
    ensures ExtensionFits(e) && ExtensionBytes(e) == Entry(kind, data)
  {
    if kind == EXT_KEY_SHARE {
      PrefixedSplits(data, 2);
      var (inner, tail) := TakePrefixed(data, 2).value;
      var shares := SharesOfBytes(inner, found);
      e := KeyShares(shares, tail);
    } else {
      e := Other(kind, data);
    }
  }

  lemma {:induction false} ListOfBytes(s: seq<byte>, found: Option<seq<byte>>) returns (list: seq<Extension>)
    requires ParseExtensions(s, found).Some?
    ensures ListFits(list) && ListBytes(list) == s
    decreases |s|
  {
    if s == [] {
      list := [];
    } else {
      EntrySplits(s);
      var (kind, data, rest) := TakeEntry(s).value;
      var e := ExtensionOfEntry(kind, data, found);
      var more := ListOfBytes(rest, if kind == EXT_KEY_SHARE then ParseKeyShare(data, found).value else found);
      list := [e] + more;
      assert list[1..] == more;
    }
  }

  lemma FrontOfBytes(hs: seq<byte>) returns (m: Hello, rest: seq<byte>)
    requires ParseFront(hs).Some?
    ensures FrontFits(m) && hs == FrontBytes(m) + rest && ParseFront(hs) == Some((m.random, m.session, rest))
  {
    var (version, s1) := Take(hs, 2).value;
    var (random, s2) := Take(s1, 32).value;
    var (session, s3) := TakePrefixed(s2, 1).value;
    var (suites, s4) := TakePrefixed(s3, 2).value;
    var (compression, s5) := TakePrefixed(s4, 1).value;
    PrefixedSplits(s2, 1);
    PrefixedSplits(s3, 2);
    PrefixedSplits(s4, 1);
    m, rest := Hello(version, random, session, suites, compression, Absent, []), s5;
    FrontJoins(hs, m, s1, s2, s3, s4, s5);
  }

  lemma FrontJoins(hs: seq<byte>, m: Hello, s1: seq<byte>, s2: seq<byte>, s3: seq<byte>, s4: seq<byte>, s5: seq<byte>)
    requires hs == m.version + s1 && s1 == m.random + s2 && s2 == Prefixed(1, m.session) + s3
    requires s3 == Prefixed(2, m.suites) + s4 && s4 == Prefixed(1, m.compression) + s5
    ensures hs == FrontBytes(m) + s5
  {
  }

  lemma BackOfBytes(random: seq<byte>, session: seq<byte>, s: seq<byte>) returns (x: Extensions)
    requires ParseBack(random, session, s).Some?
    ensures ExtensionsFit(x) && ExtensionsBytes(x) == s
  {
    if s == [] {
      x := Absent;
    } else {
      PrefixedSplits(s, 2);
      var (inner, tail) := TakePrefixed(s, 2).value;
      var list := ListOfBytes(inner, None);
      x := Present(list, tail);
    }
  }

  lemma HelloOfBytes(body: seq<byte>) returns (m: Hello)
    requires ParseHello(body).Some?
    ensures WellFormed(m) && HelloBytes(m) == body
  {
    PrefixedSplits(body[1..], 3);
    var (hs, tail) := TakePrefixed(body[1..], 3).value;
    var front, rest := FrontOfBytes(hs);
    var x := BackOfBytes(front.random, front.session, rest);
    m := front.(exts := x, tail := tail);
    SameFront(front, m);
    FirstApart(body);
  }

  lemma SameFront(front: Hello, m: Hello)
    requires m == front.(exts := m.exts, tail := m.tail)
    ensures FrontBytes(m) == FrontBytes(front) && (FrontFits(m) <==> FrontFits(front))
  {
  }

  lemma FirstApart(s: seq<byte>)
    requires s != []
    ensures s == [s[0]] + s[1..]
  {
  }

  /** Exactly the serializations of well-formed hellos parse, each to what it offers. */
  lemma ParseIsExact(body: seq<byte>, h: Fields)
    ensures ParseHello(body) == Some(h) <==> exists m :: WellFormed(m) && HelloBytes(m) == body && FieldsOf(m) == h
  {
    if ParseHello(body) == Some(h) {
      var m := HelloOfBytes(body);
      ParseOfBytes(m);
      assert FieldsOf(m) == h;
    }
    forall m | WellFormed(m) && HelloBytes(m) == body && FieldsOf(m) == h
      ensures ParseHello(body) == Some(h)
    {
      ParseOfBytes(m);
    }
  }

  // ---------- peeking ----------

  datatype Outcome = Parsed(hello: Fields) | Short | NotClientHello

  /** What peeking at a stream consumes, and what it makes of it. */
  function Peek(stream: seq<byte>): (seq<byte>, Outcome) {
    if |stream| < 5 then (stream, Short)
    else
      var n := ReadU16(stream[3..5]);
      if stream[0] != RECORD_HANDSHAKE || n < 4 || n > MAX_RECORD then (stream[..5], NotClientHello)
      else if |stream| < 5 + n then (stream, Short)
      else
        (stream[..5 + n],
         match ParseHello(stream[5..5 + n])
         case Some(h) => Parsed(h)
         case None => NotClientHello)
  }

  /** A hello in a single handshake record. */
  function Record(version: seq<byte>, m: Hello): seq<byte>
    requires |HelloBytes(m)| <= MAX_RECORD
  {
    [RECORD_HANDSHAKE] + version + U16(|HelloBytes(m)|) + HelloBytes(m)
  }

  /** Peeking at any well-formed hello in one record consumes that record and yields its fields. */
  lemma PeekOfRecord(version: seq<byte>, m: Hello, rest: seq<byte>)
    requires WellFormed(m) && |version| == 2 && |HelloBytes(m)| <= MAX_RECORD
    ensures Peek(Record(version, m) + rest) == (Record(version, m), Parsed(FieldsOf(m)))
  {
    var body := HelloBytes(m);
    var stream := Record(version, m) + rest;
    assert stream[3..5] == U16(|body|);
    U16Inverse(|body|, []);
    assert U16(|body|) + [] == U16(|body|);
    assert stream[5..5 + |body|] == body;
    ParseOfBytes(m);
  }

  /** What a transport has still to deliver. */
  ghost function Rest(src: Source): seq<byte>
    reads src
  {
    Concat(src.pieces)
  }

  /** One read takes the front of what is left. */
  method ReadSome(src: Source, max: nat) returns (b: seq<byte>, ended: bool)
    requires src.Valid()
    modifies src
    ensures src.Valid() && old(Rest(src)) == b + Rest(src) && |b| <= max
    ensures ended ==> src.pieces == []
    ensures max > 0 && !ended ==> src.Budget() < old(src.Budget())
    ensures |src.pieces| <= old(|src.pieces|)
  {
    ghost var before := src.got;
    ghost var rest := Rest(src);
    b, ended := src.Read(max);
    Regroup(before, b, Rest(src));
    Cancel(before, rest, b + Rest(src));
  }

  /** io.ReadFull: n bytes, or all there are. */
  method ReadFront(src: Source, n: nat) returns (b: seq<byte>, ok: bool)
    requires src.Valid()
    modifies src
    ensures src.Valid() && old(Rest(src)) == b + Rest(src)
    ensures ok == (|old(Rest(src))| >= n)
    ensures |b| == if ok then n else |old(Rest(src))|
    ensures |src.pieces| <= old(|src.pieces|)
  {
    ghost var before := src.got;
    ghost var rest := Rest(src);
    b, ok := ReadFullWire(src, n);
    Regroup(before, b, Rest(src));
    Cancel(before, rest, b + Rest(src));
  }

  /** Peeking returns in every outcome exactly what it consumed, however the stream is cut. */
  method PeekClientHello(src: Source) returns (raw: seq<byte>, outcome: Outcome)
    requires src.Valid()
    modifies src
    ensures src.Valid() && (raw, outcome) == Peek(old(Rest(src)))
    ensures old(Rest(src)) == raw + Rest(src)
    ensures |src.pieces| <= old(|src.pieces|)
  {
    ghost var stream := Rest(src);
    var ok, body, hello;
    raw, ok := ReadFront(src, 5);
    if !ok {
      assert raw == stream;
      return raw, Short;
    }
    assert raw == stream[..5];
    if raw[0] != RECORD_HANDSHAKE {
      return raw, NotClientHello;
    }
    var n := ReadU16(raw[3..5]);
    assert raw[3..5] == stream[3..5];
    if n < 4 || n > MAX_RECORD {
      return raw, NotClientHello;
    }
    ghost var after := Rest(src);
    body, ok := ReadFront(src, n);
    Regroup(raw, body, Rest(src));
    BodyIsNext(stream, raw, body, after);
    raw := raw + body;
    if !ok {
      return raw, Short;
    }
    hello := ParseClientHello(body);
    outcome := if hello.Some? then Parsed(hello.value) else NotClientHello;
  }

  lemma BodyIsNext(stream: seq<byte>, head: seq<byte>, body: seq<byte>, after: seq<byte>)
    requires stream == head + after && |head| == 5 && body <= after
    ensures stream[..5] == head && stream[5..5 + |body|] == body && stream[..5 + |body|] == head + body
    ensures body == after ==> head + body == stream
  {
  }

  // ---------- replaying ----------

  class PrefixConn {
    var prefix: seq<byte>
    const conn: Source

    constructor (prefix: seq<byte>, conn: Source)
      ensures this.prefix == prefix && this.conn == conn
    {
      this.prefix, this.conn := prefix, conn;
    }

    /** The stream as its reader still has it before it. */
    ghost function Left(): seq<byte>
      reads this, conn
    {
      prefix + Rest(conn)
    }

    /** How many reads with room for a byte are before it, at most: one for each byte and each piece. */
    ghost function ReadsLeft(): nat
      reads this, conn
    {
      |Left()| + |conn.pieces|
    }

    method Read(max: nat) returns (b: seq<byte>, ended: bool)
      requires conn.Valid()
      modifies this, conn
      ensures conn.Valid() && old(Left()) == b + Left() && |b| <= max
      ensures ended ==> Left() == []
      ensures max > 0 && !ended ==> ReadsLeft() < old(ReadsLeft())
    {
      if |prefix| > 0 {
        var n := if |prefix| <= max then |prefix| else max;
        b, ended := prefix[..n], false;
        prefix := prefix[n..];
        assert old(prefix) == b + prefix;
        Regroup(b, prefix, Rest(conn));
      } else {
        b, ended := ReadSome(conn, max);
        assert Left() == Rest(conn);
      }
    }
  }

  /**
   Peeking loses nothing: for every stream, every cut of it and every sequence of read sizes, what is read
   through the prefix is the stream from its first byte, and all of it once the end is reported; which it is,
   at the latest, after one read with room for a byte for each byte and each piece of the stream, and one more.
   */
  method PeekThenRead(src: Source, sizes: seq<nat>) returns (outcome: Outcome, out: seq<byte>, ended: bool)
    requires src.Valid()
    modifies src
    ensures outcome == Peek(old(Rest(src))).1
    ensures out <= old(Rest(src))
    ensures ended ==> out == old(Rest(src))
    ensures AllRoomy(sizes) && |sizes| > |old(Rest(src))| + old(|src.pieces|) ==> ended
  {
    var raw;
    ghost var stream := Rest(src);
    raw, outcome := PeekClientHello(src);
    var c := new PrefixConn(raw, src);
    out, ended := [], false;
    var i := 0;
    while i < |sizes| && !ended
      invariant 0 <= i <= |sizes| && c.conn == src && src.Valid() && stream == out + c.Left()
      invariant ended ==> c.Left() == []
      invariant AllRoomy(sizes) && !ended ==> i + c.ReadsLeft() <= |stream| + old(|src.pieces|)
      decreases |sizes| - i, !ended
    {
      var b;
      b, ended := c.Read(sizes[i]);
      Regroup(out, b, c.Left());
      out := out + b;
      i := i + 1;
    }
  }
}
