/**
 One establish pass over the coordinator pool, and the reconnect loop that repeats it with backoff and
 mesh-walk recovery (core/client.go).

 What each member would answer, whether its link is found stale, and what interrupts a pass are inputs.
 */
module Reconnect {
  import opened Wrappers

  datatype Mode = Direct | Relay

  /** Failures in the source's order: a higher one says more about the member. */
  datatype Outcome = Connected | Silent | TooLarge | Unroutable | Refused | TransportFailed

  function Rank(o: Outcome): nat {
    match o
    case Connected => 0
    case Silent => 1
    case TooLarge => 2
    case Unroutable => 3
    case Refused => 4
    case TransportFailed => 5
  }

  /** What comes of asking a member to pair this client in one mode. */
  datatype Reply =
    | NotSent                                             // no chain could be built, or no nonce minted
    | NoHandshake                                         // nothing left this host
    | NoReply(refusedForSize: bool, unroutable: bool)
    | Refusal
    | NoUsableExit
    | Paired(peerRelay: bool, tag: string, disjoint: bool, dials: bool)

  /** What ends a pass before its ladder does. */
  datatype Interrupt = ContextDone | EngineStopped | UpdateRequired

  /** before is noticed on reaching a member, after once its reply has been observed. */
  datatype Member = Member(
    direct: Reply, relay: Reply, linkStale: bool, before: Option<Interrupt>, updateAfter: bool)
  {
    function ReplyTo(mode: Mode): Reply {
      if mode.Direct? then direct else relay
    }
  }

  datatype Client = Client(prefer: Option<Mode>, chaining: bool)

  function ReconnectModes(prefer: Option<Mode>, allowDirect: bool): seq<Mode> {
    if prefer == Some(Relay) then (if allowDirect then [Relay, Direct] else [Relay])
    else if allowDirect then [Direct, Relay]
    else [Relay]
  }

  function ModeLadder(c: Client, allowDirect: bool): seq<Mode> {
    ReconnectModes(c.prefer, allowDirect && !c.chaining)
  }

  function MergeOutcome(a: Outcome, b: Outcome): Outcome {
    if Rank(b) > Rank(a) then b else a
  }

  // ---------- one attempt ----------

  /** What a failed attempt says, whatever made a pairing fail. */
  function FailureOf(r: Reply): Outcome {
    match r
    case NotSent => TransportFailed
    case NoHandshake => Silent
    case NoReply(tooLarge, unroutable) => if tooLarge then TooLarge else if unroutable then Unroutable else Silent
    case Refusal => Refused
    case NoUsableExit => Refused
    case Paired(_, _, _, _) => TransportFailed
  }

  /** A transport dial that was made: the peer relay it went through, if any, and whether it came up. */
  datatype Dial = Dial(relay: Option<string>, ok: bool)

  /** The peer relays that already failed in this pass, by their tags. */
  class RelayDedup {
    var failed: set<string>

    constructor ()
      ensures failed == {}
    {
      failed := {};
    }

    predicate Seen(tag: string)
      reads this
    {
      tag != "" && tag in failed
    }

    method Fail(tag: string)
      modifies this
      ensures failed == if tag == "" then old(failed) else old(failed) + {tag}
    {
      if tag != "" {
        failed := failed + {tag};
      }
    }
  }

  /** A pairing a chaining client may not use: no peer relay in front, or one that is also a hop. */
  predicate ChainForbids(c: Client, mode: Mode, r: Reply)
    requires r.Paired?
  {
    c.chaining && mode.Relay? && (!r.peerRelay || !r.disjoint)
  }

  /** A pairing that cannot come up, or names a peer relay among those that failed. */
  predicate Blocked(c: Client, mode: Mode, r: Reply, failed: set<string>) {
    !r.Paired? || !r.dials || ChainForbids(c, mode, r) || (r.peerRelay && r.tag != "" && r.tag in failed)
  }

  method Attempt(c: Client, mode: Mode, r: Reply, dedup: RelayDedup) returns (outcome: Outcome, dial: Option<Dial>)
    modifies dedup
    ensures outcome == Silent <==> r == NoHandshake || r == NoReply(false, false)
    ensures outcome == TooLarge <==> r.NoReply? && r.refusedForSize
    ensures outcome == Unroutable <==> r == NoReply(false, true)
    ensures outcome == Refused <==> r == Refusal || r == NoUsableExit
    ensures outcome == Connected <==> dial.Some? && dial.value.ok
    ensures outcome == Connected <==> !Blocked(c, mode, r, old(dedup.failed))
    ensures dial.Some? <==> r.Paired? && !ChainForbids(c, mode, r) && !(r.peerRelay && old(dedup.Seen(r.tag)))
    ensures dial.Some? ==> dial.value.relay == (if r.peerRelay then Some(r.tag) else None)
    ensures dial.Some? && dial.value.relay.Some? ==> !old(dedup.Seen(dial.value.relay.value))
    ensures dedup.failed == if dial.Some? && !dial.value.ok && dial.value.relay.Some? && dial.value.relay.value != ""
                            then old(dedup.failed) + {dial.value.relay.value} else old(dedup.failed)
  {
    dial := None;
    match r
    case Paired(peerRelay, tag, disjoint, dials) =>
      if c.chaining && mode.Relay? && !peerRelay {
        return TransportFailed, None;
      }
      if c.chaining && mode.Relay? && !disjoint {
        return TransportFailed, None;
      }
      if peerRelay && dedup.Seen(tag) {
        return TransportFailed, None;
      }
      dial := Some(Dial(if peerRelay then Some(tag) else None, dials));
      if !dials {
        if peerRelay {
          dedup.Fail(tag);
        }
        return TransportFailed, dial;
      }
      return Connected, dial;
    case NoReply(tooLarge, unroutable) =>
      if tooLarge {
        return TooLarge, None;
      }
      if unroutable {
        return Unroutable, None;
      }
      return Silent, None;
    case NotSent => return TransportFailed, None;
    case NoHandshake => return Silent, None;
    case Refusal => return Refused, None;
    case NoUsableExit => return Refused, None;
  }

  // ---------- one member ----------

  /** No failed peer relay is dialed again. */
  ghost predicate NoRedial(dials: seq<Dial>) {
    forall i, j :: 0 <= i < j < |dials| && !dials[i].ok && dials[i].relay.Some? && dials[i].relay != Some("")
                   ==> dials[j].relay != dials[i].relay
  }

  /** The dedup remembers exactly the tags that failed. */
  ghost predicate Remembers(failed: set<string>, dials: seq<Dial>) {
    && (forall i :: 0 <= i < |dials| && !dials[i].ok && dials[i].relay.Some? && dials[i].relay != Some("")
                    ==> dials[i].relay.value in failed)
    && (forall tag :: tag in failed ==> tag != "" && exists i :: 0 <= i < |dials| && dials[i] == Dial(Some(tag), false))
  }

  /** What a member that let every mode fail is reported as: silent, unless some mode drew more. */
  function MemberOutcome(m: Member, modes: seq<Mode>): Outcome {
    if modes == [] then Silent
    else MergeOutcome(MemberOutcome(m, modes[..|modes| - 1]), FailureOf(m.ReplyTo(modes[|modes| - 1])))
  }

  /** The reply is one of those this member gives to what the k-th in a pass is asked: relay, and direct if first. */
  ghost predicate Drew(c: Client, m: Member, k: nat, r: Reply) {
    r == m.relay || (r == m.direct && k == 0 && !c.chaining)
  }

  /** The reply is no answer of the member's, nor word of the network refusing to carry the request. */
  predicate NoWord(r: Reply) {
    r == NoHandshake || r == NoReply(false, false)
  }

  /** Nothing it was asked drew a word. */
  ghost predicate HeardNothing(c: Client, m: Member, k: nat) {
    forall r :: Drew(c, m, k, r) ==> NoWord(r)
  }

  /** Something it was asked was refused for its size, and nothing drew more than that. */
  ghost predicate WasTooLarge(c: Client, m: Member, k: nat) {
    && (exists r :: Drew(c, m, k, r) && r.NoReply? && r.refusedForSize)
    && (forall r :: Drew(c, m, k, r) ==> NoWord(r) || (r.NoReply? && r.refusedForSize))
  }

  /** Something it was asked found no route, and nothing drew more than that. */
  ghost predicate HadNoRoute(c: Client, m: Member, k: nat) {
    && (exists r :: Drew(c, m, k, r) && r == NoReply(false, true))
    && (forall r :: Drew(c, m, k, r) ==> r.NoHandshake? || r.NoReply?)
  }

  /** It refused something it was asked, and nothing drew more than that. */
  ghost predicate SaidNo(c: Client, m: Member, k: nat) {
    && (exists r :: Drew(c, m, k, r) && (r == Refusal || r == NoUsableExit))
    && (forall r :: Drew(c, m, k, r) ==> !r.NotSent? && !r.Paired?)
  }

  /** What a member that let every mode fail is reported as, by the replies it gave. */
  lemma OutcomeByReply(c: Client, m: Member, k: nat)
    ensures var o := MemberOutcome(m, ModesAt(c, k));
            && (o == Silent <==> HeardNothing(c, m, k))
            && (o == TooLarge <==> WasTooLarge(c, m, k))
            && (o == Unroutable <==> HadNoRoute(c, m, k))
            && (o == Refused <==> SaidNo(c, m, k))
            && (o == TransportFailed <==> exists r :: Drew(c, m, k, r) && (r.NotSent? || r.Paired?))
  {
    var modes := ModesAt(c, k);
    if |modes| == 1 {
      OutcomeOfOne(m, Relay);
      OneByReply(c, m, k);
    } else {
      OutcomeOfTwo(m, modes[0], modes[1]);
      TwoByReply(c, m, k, MergeOutcome(FailureOf(m.direct), FailureOf(m.relay)));
    }
  }

  lemma OneByReply(c: Client, m: Member, k: nat)
    requires k > 0 || c.chaining
    ensures var o := FailureOf(m.relay);
            && (o == Silent <==> HeardNothing(c, m, k))
            && (o == TooLarge <==> WasTooLarge(c, m, k))
            && (o == Unroutable <==> HadNoRoute(c, m, k))
            && (o == Refused <==> SaidNo(c, m, k))
            && (o == TransportFailed <==> exists r :: Drew(c, m, k, r) && (r.NotSent? || r.Paired?))
  {
    assert Drew(c, m, k, m.relay);
  }

  lemma TwoByReply(c: Client, m: Member, k: nat, o: Outcome)
    requires k == 0 && !c.chaining && o == MergeOutcome(FailureOf(m.direct), FailureOf(m.relay))
    ensures o == Silent <==> HeardNothing(c, m, k)
    ensures o == TooLarge <==> WasTooLarge(c, m, k)
    ensures o == Unroutable <==> HadNoRoute(c, m, k)
    ensures o == Refused <==> SaidNo(c, m, k)
    ensures o == TransportFailed <==> exists r :: Drew(c, m, k, r) && (r.NotSent? || r.Paired?)
  {
    assert Drew(c, m, k, m.relay) && Drew(c, m, k, m.direct);
  }

  lemma OutcomeOfOne(m: Member, a: Mode)
    ensures MemberOutcome(m, [a]) == FailureOf(m.ReplyTo(a))
  {
    assert [a][..0] == [];
  }

  lemma OutcomeOfTwo(m: Member, a: Mode, b: Mode)
    ensures MemberOutcome(m, [a, b]) == MergeOutcome(FailureOf(m.ReplyTo(a)), FailureOf(m.ReplyTo(b)))
  {
    OutcomeOfOne(m, a);
    assert [a, b][..1] == [a];
  }

  lemma AppendDial(dials: seq<Dial>, dial: Dial, failed: set<string>, after: set<string>)
    requires NoRedial(dials) && Remembers(failed, dials)
    requires dial.relay.Some? ==> dial.relay.value == "" || dial.relay.value !in failed
    requires after == if !dial.ok && dial.relay.Some? && dial.relay.value != ""
                      then failed + {dial.relay.value} else failed
    ensures NoRedial(dials + [dial]) && Remembers(after, dials + [dial])
  {
    var all := dials + [dial];
    forall tag | tag in after
      ensures tag != "" && exists i :: 0 <= i < |all| && all[i] == Dial(Some(tag), false)
    {
      if tag in failed {
        var i :| 0 <= i < |dials| && dials[i] == Dial(Some(tag), false);
        assert all[i] == Dial(Some(tag), false);
      } else {
        assert all[|dials|] == Dial(Some(tag), false);
      }
    }
  }

  ghost predicate AllBlocked(c: Client, m: Member, modes: seq<Mode>, failed: set<string>) {
    forall i :: 0 <= i < |modes| ==> Blocked(c, modes[i], m.ReplyTo(modes[i]), failed)
  }

  lemma BlockedStays(c: Client, m: Member, modes: seq<Mode>, failed: set<string>, more: set<string>)
    requires AllBlocked(c, m, modes, failed) && failed <= more
    ensures AllBlocked(c, m, modes, more)
  {
  }

  /** connectVia: the modes in order, until one connects. */
  method ConnectVia(c: Client, m: Member, modes: seq<Mode>, dedup: RelayDedup, dials: seq<Dial>)
    returns (outcome: Outcome, tried: nat, all: seq<Dial>)
    requires NoRedial(dials) && Remembers(dedup.failed, dials)
    modifies dedup
    ensures NoRedial(all) && Remembers(dedup.failed, all) && dials <= all
    ensures tried <= |modes|
    ensures old(dedup.failed) <= dedup.failed
    ensures outcome == Connected ==>
              && tried > 0 && !Blocked(c, modes[tried - 1], m.ReplyTo(modes[tried - 1]), {})
              && AllBlocked(c, m, modes[..tried - 1], dedup.failed)
    ensures outcome != Connected ==>
              tried == |modes| && outcome == MemberOutcome(m, modes) && AllBlocked(c, m, modes, dedup.failed)
  {
    outcome, tried, all := Silent, 0, dials;
    while tried < |modes|
      invariant tried <= |modes| && NoRedial(all) && Remembers(dedup.failed, all) && dials <= all
      invariant outcome == MemberOutcome(m, modes[..tried]) && outcome != Connected
      invariant old(dedup.failed) <= dedup.failed && AllBlocked(c, m, modes[..tried], dedup.failed)
    {
      var mode := modes[tried];
      ghost var failed := dedup.failed;
      var res, dial := Attempt(c, mode, m.ReplyTo(mode), dedup);
      if dial.Some? {
        AppendDial(all, dial.value, failed, dedup.failed);
        all := all + [dial.value];
      }
      assert modes[..tried + 1][..tried] == modes[..tried];
      BlockedStays(c, m, modes[..tried], failed, dedup.failed);
      tried := tried + 1;
      if res == Connected {
        return Connected, tried, all;
      }
      outcome := MergeOutcome(outcome, res);
    }
    assert modes[..|modes|] == modes;
  }

  // ---------- one pass ----------

  datatype PassError =
    | Interrupted(why: Interrupt)
    | LinkStale
    | NoCoordinatorReachable
    | RequestTooLarge
    | CoordinatorUnroutable
    | CouldNotConnect

  datatype Pass = Up(member: nat, mode: Mode) | Down(error: PassError)

  datatype Offer = Offer(member: nat, mode: Mode)

  /** What the k-th member of a pass is offered: direct only the first, and never when chaining. */
  function ModesAt(c: Client, k: nat): seq<Mode> {
    ModeLadder(c, k == 0)
  }

  function OutcomeAt(c: Client, links: seq<Member>, k: nat): Outcome
    requires k < |links|
  {
    MemberOutcome(links[k], ModesAt(c, k))
  }

  /** One of the first n members came out this way. */
  ghost predicate SomeOutcome(c: Client, links: seq<Member>, n: nat, o: Outcome)
    requires n <= |links|
  {
    exists k :: 0 <= k < n && OutcomeAt(c, links, k) == o
  }

  ghost predicate AllSilent(c: Client, links: seq<Member>, n: nat)
    requires n <= |links|
  {
    forall k :: 0 <= k < n ==> OutcomeAt(c, links, k) == Silent
  }

  /** Every member sits behind a link of this client's that had stopped carrying, and there is one. */
  ghost predicate AllStale(links: seq<Member>) {
    links != [] && forall k :: 0 <= k < |links| ==> links[k].linkStale
  }

  /** The error of a pass that ran through the whole pool. */
  ghost predicate RightError(c: Client, links: seq<Member>, e: PassError) {
    var nothing := forall k :: 0 <= k < |links| ==> HeardNothing(c, links[k], k);
    var tooLarge := exists k :: 0 <= k < |links| && WasTooLarge(c, links[k], k);
    var noRoute := exists k :: 0 <= k < |links| && HadNoRoute(c, links[k], k);
    && (e == NoCoordinatorReachable <==> nothing && !AllStale(links))
    && (e == LinkStale <==> nothing && AllStale(links))
    && (e == RequestTooLarge <==> tooLarge)
    && (e == CoordinatorUnroutable <==> noRoute && !tooLarge)
    && (e == CouldNotConnect <==> !nothing && !tooLarge && !noRoute)
  }

  /** Nothing interrupts a pass at this member. */
  ghost predicate Calm(l: Member) {
    l.before.None? && !l.updateAfter
  }

  ghost predicate CalmTo(links: seq<Member>, n: nat)
    requires n <= |links|
  {
    forall k :: 0 <= k < n ==> Calm(links[k])
  }

  /** The first member at which a pass is interrupted, and why: before it is asked, or else once it has answered. */
  ghost predicate InterruptedAt(links: seq<Member>, k: nat, why: Interrupt) {
    && k < |links| && CalmTo(links, k)
    && (if links[k].before.Some? then links[k].before.value == why else links[k].updateAfter && why == UpdateRequired)
  }

  /** What a pass's result says about the members it asked. */
  ghost predicate RightResult(c: Client, links: seq<Member>, p: Pass) {
    match p
    case Up(k, mode) =>
      && k < |links| && CalmTo(links, k + 1) && mode in ModesAt(c, k)
      && !Blocked(c, mode, links[k].ReplyTo(mode), {})
    case Down(Interrupted(why)) => exists k :: InterruptedAt(links, k, why)
    case Down(e) => CalmTo(links, |links|) && RightError(c, links, e)
  }

  ghost predicate DirectOnce(c: Client, offers: seq<Offer>) {
    && (forall i, j :: 0 <= i < j < |offers| && offers[i].mode.Direct? ==> !offers[j].mode.Direct?)
    && (c.chaining ==> forall i :: 0 <= i < |offers| ==> !offers[i].mode.Direct?)
  }

  /** The offers of a pass before its k-th member. */
  ghost predicate OffersBefore(c: Client, offers: seq<Offer>, k: nat) {
    && DirectOnce(c, offers)
    && (k == 0 ==> offers == [])
    && forall i :: 0 <= i < |offers| ==> offers[i].member < k
  }

  function OffersTo(k: nat, modes: seq<Mode>): seq<Offer> {
    seq(|modes|, i requires 0 <= i < |modes| => Offer(k, modes[i]))
  }

  lemma MoreOffers(c: Client, offers: seq<Offer>, k: nat, n: nat)
    requires OffersBefore(c, offers, k) && n <= |ModesAt(c, k)|
    ensures OffersBefore(c, offers + OffersTo(k, ModesAt(c, k)[..n]), k + 1)
  {
  }

  /** Every offer of a pass that reaches n members, in order. */
  function AllOffers(c: Client, n: nat): seq<Offer> {
    if n == 0 then [] else AllOffers(c, n - 1) + OffersTo(n - 1, ModesAt(c, n - 1))
  }

  lemma {:induction false} OffersGrow(c: Client, k: nat, n: nat)
    requires k <= n
    ensures AllOffers(c, k) <= AllOffers(c, n)
  {
    if k < n {
      OffersGrow(c, k, n - 1);
    }
  }

  lemma PartOfOffer(k: nat, modes: seq<Mode>, t: nat, before: seq<Offer>)
    requires t <= |modes|
    ensures before + OffersTo(k, modes[..t]) <= before + OffersTo(k, modes)
  {
  }

  lemma PartOfOffers(c: Client, k: nat, t: nat, n: nat)
    requires t <= |ModesAt(c, k)| && k < n
    ensures AllOffers(c, k) + OffersTo(k, ModesAt(c, k)[..t]) <= AllOffers(c, n)
  {
    PartOfOffer(k, ModesAt(c, k), t, AllOffers(c, k));
    OffersGrow(c, k + 1, n);
  }

  /** Direct is offered at most once over a whole pass, and never when chaining. */
  lemma {:induction false} DirectIsOfferedOnce(c: Client, n: nat)
    ensures OffersBefore(c, AllOffers(c, n), n)
  {
    if n > 0 {
      DirectIsOfferedOnce(c, n - 1);
      var modes := ModesAt(c, n - 1);
      assert modes[..|modes|] == modes;
      MoreOffers(c, AllOffers(c, n - 1), n - 1, |modes|);
    }
  }

  lemma DirectOnceInPart(c: Client, offers: seq<Offer>, n: nat)
    requires offers <= AllOffers(c, n)
    ensures DirectOnce(c, offers)
  {
    DirectIsOfferedOnce(c, n);
  }

  lemma OffersSoFar(c: Client, k: nat, t: nat, n: nat, offers: seq<Offer>)
    requires t <= |ModesAt(c, k)| && k < n && offers == AllOffers(c, k) + OffersTo(k, ModesAt(c, k)[..t])
    ensures offers <= AllOffers(c, n) && DirectOnce(c, offers)
    ensures t > 0 ==> offers != [] && offers[|offers| - 1] == Offer(k, ModesAt(c, k)[t - 1])
    ensures t == |ModesAt(c, k)| ==> offers == AllOffers(c, k + 1)
  {
    PartOfOffers(c, k, t, n);
    DirectOnceInPart(c, offers, n);
    assert ModesAt(c, k)[..|ModesAt(c, k)|] == ModesAt(c, k);
  }

  /** The flags noted so far are those of the members already asked. */
  datatype Notes = Notes(allSilent: bool, unroutable: bool, tooLarge: bool, allStale: bool, anyStale: bool)

  ghost predicate Noted(c: Client, links: seq<Member>, n: nat, f: Notes)
    requires n <= |links|
  {
    && f.allSilent == AllSilent(c, links, n)
    && f.tooLarge == SomeOutcome(c, links, n, TooLarge)
    && f.unroutable == SomeOutcome(c, links, n, Unroutable)
    && f.allStale == SilentAllStale(c, links, n)
    && f.anyStale == SilentAnyStale(c, links, n)
  }

  function Note(f: Notes, o: Outcome, stale: bool): Notes {
    if o == Silent then f.(anyStale := f.anyStale || stale, allStale := f.allStale && stale)
    else f.(allSilent := false, unroutable := f.unroutable || o == Unroutable, tooLarge := f.tooLarge || o == TooLarge)
  }

  lemma NoteOne(c: Client, links: seq<Member>, n: nat, f: Notes)
    requires n < |links| && Noted(c, links, n, f)
    ensures Noted(c, links, n + 1, Note(f, OutcomeAt(c, links, n), links[n].linkStale))
  {
    var o, stale := OutcomeAt(c, links, n), links[n].linkStale;
    SomeOneMore(c, links, n, TooLarge);
    SomeOneMore(c, links, n, Unroutable);
    assert AllSilent(c, links, n + 1) <==> AllSilent(c, links, n) && o == Silent;
    StaleOneMore(c, links, n);
  }

  /** Every silent member among the first n is behind a stale link; some one is. */
  ghost predicate SilentAllStale(c: Client, links: seq<Member>, n: nat)
    requires n <= |links|
  {
    forall k :: 0 <= k < n && OutcomeAt(c, links, k) == Silent ==> links[k].linkStale
  }

  ghost predicate SilentAnyStale(c: Client, links: seq<Member>, n: nat)
    requires n <= |links|
  {
    exists k :: 0 <= k < n && OutcomeAt(c, links, k) == Silent && links[k].linkStale
  }

  lemma StaleOneMore(c: Client, links: seq<Member>, n: nat)
    requires n < |links|
    ensures var o, stale := OutcomeAt(c, links, n), links[n].linkStale;
            && (SilentAllStale(c, links, n + 1) <==> SilentAllStale(c, links, n) && (o == Silent ==> stale))
            && (SilentAnyStale(c, links, n + 1) <==> SilentAnyStale(c, links, n) || (o == Silent && stale))
  {
    if SilentAnyStale(c, links, n) {
      var k :| 0 <= k < n && OutcomeAt(c, links, k) == Silent && links[k].linkStale;
      assert 0 <= k < n + 1 && OutcomeAt(c, links, k) == Silent && links[k].linkStale;
    }
  }

  lemma SomeOneMore(c: Client, links: seq<Member>, n: nat, o: Outcome)
    requires n < |links|
    ensures SomeOutcome(c, links, n + 1, o) <==> SomeOutcome(c, links, n, o) || OutcomeAt(c, links, n) == o
  {
    if SomeOutcome(c, links, n, o) {
      var k :| 0 <= k < n && OutcomeAt(c, links, k) == o;
      assert 0 <= k < n + 1 && OutcomeAt(c, links, k) == o;
    }
  }

  function ErrorOf(f: Notes): PassError {
    if f.allSilent then (if f.anyStale && f.allStale then LinkStale else NoCoordinatorReachable)
    else if f.tooLarge then RequestTooLarge
    else if f.unroutable then CoordinatorUnroutable
    else CouldNotConnect
  }

  lemma ErrorIsRight(c: Client, links: seq<Member>, f: Notes)
    requires Noted(c, links, |links|, f) && CalmTo(links, |links|)
    ensures RightResult(c, links, Down(ErrorOf(f)))
  {
    NotesByReply(c, links);
    if f.allSilent {
      assert links != [] ==> OutcomeAt(c, links, 0) == Silent;
      assert !SomeOutcome(c, links, |links|, TooLarge) && !SomeOutcome(c, links, |links|, Unroutable);
    }
  }

  /** What the notes of a whole pass count, by the replies given. */
  lemma NotesByReply(c: Client, links: seq<Member>)
    ensures AllSilent(c, links, |links|) <==> forall k :: 0 <= k < |links| ==> HeardNothing(c, links[k], k)
    ensures SomeOutcome(c, links, |links|, TooLarge) <==>
            exists k :: 0 <= k < |links| && WasTooLarge(c, links[k], k)
    ensures SomeOutcome(c, links, |links|, Unroutable) <==>
            exists k :: 0 <= k < |links| && HadNoRoute(c, links[k], k)
  {
    forall k | 0 <= k < |links|
      ensures OutcomeAt(c, links, k) == Silent <==> HeardNothing(c, links[k], k)
      ensures OutcomeAt(c, links, k) == TooLarge <==> WasTooLarge(c, links[k], k)
      ensures OutcomeAt(c, links, k) == Unroutable <==> HadNoRoute(c, links[k], k)
    {
      OutcomeByReply(c, links[k], k);
    }
  }

  /** The peer relays that failed, by the dials made. */
  ghost function FailedTags(dials: seq<Dial>): set<string> {
    set d | d in dials && !d.ok && d.relay.Some? :: d.relay.value
  }

  /** None of the first n members had a way up left, given the relays that failed. */
  ghost predicate NoWayUp(c: Client, links: seq<Member>, n: nat, failed: set<string>)
    requires n <= |links|
  {
    forall k :: 0 <= k < n ==> AllBlocked(c, links[k], ModesAt(c, k), failed)
  }

  /** A pass comes up at the first offer that can, and fails only when none could. */
  ghost predicate NoneMissed(c: Client, links: seq<Member>, p: Pass, failed: set<string>) {
    match p
    case Up(k, mode) =>
      && k <= |links| && NoWayUp(c, links, k, failed)
      && exists t :: 0 <= t < |ModesAt(c, k)| && ModesAt(c, k)[t] == mode
                     && k < |links| && AllBlocked(c, links[k], ModesAt(c, k)[..t], failed)
    case Down(Interrupted(why)) => exists k :: InterruptedAt(links, k, why) && NoWayUp(c, links, k, failed)
    case Down(_) => NoWayUp(c, links, |links|, failed)
  }

  lemma NoWayUpOneMore(c: Client, links: seq<Member>, n: nat, failed: set<string>, more: set<string>)
    requires n < |links| && NoWayUp(c, links, n, failed) && failed <= more
    requires AllBlocked(c, links[n], ModesAt(c, n), more)
    ensures NoWayUp(c, links, n + 1, more)
  {
    NoWayUpStays(c, links, n, failed, more);
  }

  lemma RememberedFailed(failed: set<string>, dials: seq<Dial>)
    requires Remembers(failed, dials)
    ensures failed <= FailedTags(dials)
  {
    forall tag | tag in failed
      ensures tag in FailedTags(dials)
    {
      var i :| 0 <= i < |dials| && dials[i] == Dial(Some(tag), false);
      assert dials[i] in dials;
    }
  }

  lemma NoWayUpStays(c: Client, links: seq<Member>, n: nat, failed: set<string>, more: set<string>)
    requires n <= |links| && NoWayUp(c, links, n, failed) && failed <= more
    ensures NoWayUp(c, links, n, more)
  {
    forall k | 0 <= k < n
      ensures AllBlocked(c, links[k], ModesAt(c, k), more)
    {
      BlockedStays(c, links[k], ModesAt(c, k), failed, more);
    }
  }

  /** Offers are made in order, none is skipped before the pass ends, and the last is the one that connected. */
  ghost predicate RightOffers(c: Client, links: seq<Member>, p: Pass, offers: seq<Offer>) {
    && offers <= AllOffers(c, |links|) && DirectOnce(c, offers)
    && (match p
        case Up(k, mode) => offers != [] && offers[|offers| - 1] == Offer(k, mode)
        case Down(Interrupted(_)) => true
        case Down(_) => offers == AllOffers(c, |links|))
  }

  /** Every member is asked for relay, once; the first one, unless chaining, for direct too, in the preferred order. */
  lemma DirectComesFirst(c: Client, k: nat)
    ensures Direct in ModesAt(c, k) <==> k == 0 && !c.chaining
    ensures Relay in ModesAt(c, k) && |ModesAt(c, k)| == if Direct in ModesAt(c, k) then 2 else 1
    ensures Direct in ModesAt(c, k) ==> (ModesAt(c, k)[0] == Relay <==> c.prefer == Some(Relay))
    ensures ModesAt(c, k) == ModeLadder(c, !(k > 0 && !c.chaining))
  {
  }

  /** Everything a pass promises about its result, its offers and its dials. */
  ghost predicate PassIsRight(c: Client, links: seq<Member>, p: Pass, offers: seq<Offer>, dials: seq<Dial>) {
    && RightResult(c, links, p)
    && RightOffers(c, links, p, offers)
    && NoneMissed(c, links, p, FailedTags(dials))
    && NoRedial(dials)
  }

  lemma StoppedAt(c: Client, links: seq<Member>, k: nat, why: Interrupt, offers: seq<Offer>, dials: seq<Dial>)
    requires InterruptedAt(links, k, why) && NoWayUp(c, links, k, FailedTags(dials))
    requires offers <= AllOffers(c, |links|) && NoRedial(dials)
    ensures PassIsRight(c, links, Down(Interrupted(why)), offers, dials)
  {
    DirectOnceInPart(c, offers, |links|);
  }

  /** What holds before the n-th member is asked. */
  ghost predicate Underway(c: Client, links: seq<Member>, n: nat, f: Notes, offers: seq<Offer>, dials: seq<Dial>,
                           failed: set<string>) {
    && n <= |links| && Noted(c, links, n, f) && CalmTo(links, n)
    && offers == AllOffers(c, n)
    && NoRedial(dials) && Remembers(failed, dials)
    && NoWayUp(c, links, n, failed)
  }

  lemma WentThrough(c: Client, links: seq<Member>, f: Notes, offers: seq<Offer>, dials: seq<Dial>, failed: set<string>)
    requires Underway(c, links, |links|, f, offers, dials, failed)
    ensures PassIsRight(c, links, Down(ErrorOf(f)), offers, dials)
  {
    ErrorIsRight(c, links, f);
    DirectOnceInPart(c, offers, |links|);
    RememberedFailed(failed, dials);
    NoWayUpStays(c, links, |links|, failed, FailedTags(dials));
  }

  const NOTHING_NOTED := Notes(true, false, false, true, false)

  lemma PassBegins(c: Client, links: seq<Member>)
    ensures Underway(c, links, 0, NOTHING_NOTED, [], [], {})
  {
  }

  lemma CameUp(c: Client, links: seq<Member>, k: nat, mode: Mode, t: nat, made: seq<Offer>, all: seq<Dial>)
    requires k < |links| && CalmTo(links, k + 1) && t < |ModesAt(c, k)| && ModesAt(c, k)[t] == mode
    requires made <= AllOffers(c, |links|) && DirectOnce(c, made) && made != [] && made[|made| - 1] == Offer(k, mode)
    requires NoRedial(all) && NoWayUp(c, links, k, FailedTags(all))
    requires AllBlocked(c, links[k], ModesAt(c, k)[..t], FailedTags(all))
    requires !Blocked(c, mode, links[k].ReplyTo(mode), {})
    ensures PassIsRight(c, links, Up(k, mode), made, all)
  {
    assert NoneMissed(c, links, Up(k, mode), FailedTags(all));
    assert RightOffers(c, links, Up(k, mode), made);
    assert RightResult(c, links, Up(k, mode));
  }

  lemma MovedOn(c: Client, links: seq<Member>, k: nat, f: Notes, made: seq<Offer>, all: seq<Dial>,
                failed: set<string>, more: set<string>)
    requires k < |links| && Noted(c, links, k, f) && CalmTo(links, k) && Calm(links[k])
    requires made == AllOffers(c, k + 1) && NoRedial(all) && Remembers(more, all)
    requires NoWayUp(c, links, k, failed) && failed <= more && AllBlocked(c, links[k], ModesAt(c, k), more)
    ensures Underway(c, links, k + 1, Note(f, OutcomeAt(c, links, k), links[k].linkStale), made, all, more)
  {
    NoteOne(c, links, k, f);
    NoWayUpOneMore(c, links, k, failed, more);
  }

  /** One member of a pass asked, and what came of it noted. */
  method Ask(c: Client, links: seq<Member>, k: nat, modes: seq<Mode>, dedup: RelayDedup, f: Notes,
             offers: seq<Offer>, dials: seq<Dial>)
    returns (outcome: Outcome, mode: Mode, g: Notes, made: seq<Offer>, all: seq<Dial>)
    requires k < |links| && modes == ModesAt(c, k) && Underway(c, links, k, f, offers, dials, dedup.failed)
    modifies dedup
    ensures made <= AllOffers(c, |links|) && NoRedial(all) && NoWayUp(c, links, k, FailedTags(all))
    ensures outcome == Connected && Calm(links[k]) ==> PassIsRight(c, links, Up(k, mode), made, all)
    ensures outcome != Connected && Calm(links[k]) ==> Underway(c, links, k + 1, g, made, all, dedup.failed)
  {
    var tried;
    ghost var failed := dedup.failed;
    outcome, tried, all := ConnectVia(c, links[k], modes, dedup, dials);
    made := offers + OffersTo(k, modes[..tried]);
    OffersSoFar(c, k, tried, |links|, made);
    mode := if tried > 0 then modes[tried - 1] else Relay;
    g := Note(f, outcome, links[k].linkStale);
    RememberedFailed(dedup.failed, all);
    NoWayUpStays(c, links, k, failed, FailedTags(all));
    if Calm(links[k]) {
      if outcome == Connected {
        BlockedStays(c, links[k], modes[..tried - 1], dedup.failed, FailedTags(all));
        CameUp(c, links, k, mode, tried - 1, made, all);
      } else {
        MovedOn(c, links, k, f, made, all, failed, dedup.failed);
      }
    }
  }

  /** One turn of the loop: the pass ends here, or the next member's turn begins. */
  method Visit(c: Client, links: seq<Member>, k: nat, triedDirect: bool, dedup: RelayDedup, f: Notes,
               offers: seq<Offer>, dials: seq<Dial>)
    returns (done: Option<Pass>, direct: bool, g: Notes, made: seq<Offer>, all: seq<Dial>)
    requires k < |links| && Underway(c, links, k, f, offers, dials, dedup.failed)
    requires triedDirect <==> k > 0 && !c.chaining
    modifies dedup
    ensures done.Some? ==> PassIsRight(c, links, done.value, made, all)
    ensures done.None? ==> (direct <==> !c.chaining) && Underway(c, links, k + 1, g, made, all, dedup.failed)
  {
    direct, g, made, all := triedDirect, f, offers, dials;
    var l := links[k];
    if l.before.Some? {
      OffersGrow(c, k, |links|);
      RememberedFailed(dedup.failed, dials);
      NoWayUpStays(c, links, k, dedup.failed, FailedTags(dials));
      StoppedAt(c, links, k, l.before.value, offers, dials);
      return Some(Down(Interrupted(l.before.value))), direct, g, made, all;
    }
    var modes := ModeLadder(c, !triedDirect);
    DirectComesFirst(c, k);
    if Direct in modes {
      direct := true;
    }
    var outcome, mode;
    outcome, mode, g, made, all := Ask(c, links, k, modes, dedup, f, offers, dials);
    if l.updateAfter {
      StoppedAt(c, links, k, UpdateRequired, made, all);
      return Some(Down(Interrupted(UpdateRequired))), direct, g, made, all;
    }
    done := if outcome == Connected then Some(Up(k, mode)) else None;
  }

  /**
   One pass over the pool. Its error is exactly what the members' answers make it; the offers are made in
   order and none is skipped; it comes up at the first that can, and fails only when none could; direct is
   offered at most once and never when chaining; and no peer relay that failed is dialed again.
   */
  method Establish(c: Client, links: seq<Member>) returns (p: Pass, offers: seq<Offer>, dials: seq<Dial>)
    ensures PassIsRight(c, links, p, offers, dials)
  {
    var triedDirect := false;
    var dedup := new RelayDedup();
    var f := NOTHING_NOTED;
    offers, dials := [], [];
    var k := 0;
    PassBegins(c, links);
    while k < |links|
      invariant triedDirect <==> k > 0 && !c.chaining
      invariant Underway(c, links, k, f, offers, dials, dedup.failed) && fresh(dedup)
    {
      var done;
      done, triedDirect, f, offers, dials := Visit(c, links, k, triedDirect, dedup, f, offers, dials);
      if done.Some? {
        return done.value, offers, dials;
      }
      k := k + 1;
    }
    WentThrough(c, links, f, offers, dials, dedup.failed);
    p := Down(ErrorOf(f));
  }

  /** A member is silent exactly when every mode it was offered drew nothing at all. */
  lemma {:induction false} SilentMeansNothingHeard(m: Member, modes: seq<Mode>)
    ensures MemberOutcome(m, modes) == Silent <==> forall i :: 0 <= i < |modes| ==> NoWord(m.ReplyTo(modes[i]))
  {
    if modes != [] {
      var n := |modes| - 1;
      SilentMeansNothingHeard(m, modes[..n]);
      assert forall i :: 0 <= i < n ==> modes[..n][i] == modes[i];
      NeverConnected(m, modes[..n]);
    }
  }

  lemma {:induction false} NeverConnected(m: Member, modes: seq<Mode>)
    ensures MemberOutcome(m, modes) != Connected
  {
    if modes != [] {
      NeverConnected(m, modes[..|modes| - 1]);
    }
  }

  // ---------- the backoff ----------

  datatype Settings = Settings(base: int, max: int, maxAttempts: int, meshAfter: int, meshConfigured: bool)

  function CapDelay(d: int, max: int): int {
    if d > max then max else d
  }

  /** The delay after the k-th failed pass, counted from zero. */
  function Delay(s: Settings, k: nat): int {
    if k == 0 then s.base else CapDelay(2 * Delay(s, k - 1), s.max)
  }

  /** base * 2^k. */
  function Doubled(base: int, k: nat): int {
    if k == 0 then base else 2 * Doubled(base, k - 1)
  }

  function Min(a: int, b: int): int {
    if a <= b then a else b
  }

  lemma {:induction false} DoubledOnlyFalls(base: int, k: nat)
    requires base <= 0
    ensures Doubled(base, k) <= base
  {
    if k > 0 {
      DoubledOnlyFalls(base, k - 1);
    }
  }

  lemma {:induction false} DelayIsDoubled(s: Settings, k: nat)
    requires s.base <= s.max
    ensures Delay(s, k) == Min(Doubled(s.base, k), s.max)
  {
    if k > 0 {
      DelayIsDoubled(s, k - 1);
      if s.max < 0 {
        DoubledOnlyFalls(s.base, k - 1);
      }
    }
  }

  ghost predicate DelayAsPromised(s: Settings, k: nat) {
    Delay(s, k) == Min(Doubled(s.base, k), s.max)
  }

  /**
   Every delay is min(base * 2^k, max), exactly when the base does not exceed the maximum: the first is not
   capped.
   */
  lemma BackoffIsExponential(s: Settings)
    ensures (forall k: nat :: DelayAsPromised(s, k)) <==> s.base <= s.max
  {
    if s.base <= s.max {
      forall k: nat
        ensures DelayAsPromised(s, k)
      {
        DelayIsDoubled(s, k);
      }
    } else {
      assert !DelayAsPromised(s, 0);
    }
  }

  // ---------- the reconnect loop ----------

  /**
   The pool as one pass meets it, whether a walk then would find a fresh directory, and whether the wait
   after it ran out.
   */
  datatype Round = Round(links: seq<Member>, walkFinds: bool, slept: bool)

  datatype End = Reconnected | Recovering | GaveUp | CutShort | StillTrying

  predicate Unreachable(p: Pass) {
    p == Down(NoCoordinatorReachable)
  }

  /** An answering pass: anything but all members silent. A stale pass is neither this nor unreachable. */
  predicate Answered(p: Pass) {
    !Unreachable(p) && p != Down(LinkStale)
  }

  /** The unreachable passes from the j-th up to the n-th. */
  function Unreachables(passes: seq<Pass>, j: nat, n: nat): nat
    requires n <= |passes|
  {
    if n <= j then 0 else Unreachables(passes, j, n - 1) + if Unreachable(passes[n - 1]) then 1 else 0
  }

  /** No walk and no answering pass from the j-th up to the k-th. */
  ghost predicate NoReset(passes: seq<Pass>, walks: seq<bool>, j: nat, k: nat)
    requires k <= |passes| && k <= |walks|
  {
    forall i :: j <= i < k ==> !walks[i] && !Answered(passes[i])
  }

  /** Enough unreachable passes since the last walk or answering pass, this one included. */
  ghost predicate WalkDue(s: Settings, passes: seq<Pass>, walks: seq<bool>, k: nat)
    requires k < |passes| && k <= |walks|
  {
    && s.meshConfigured && Unreachable(passes[k])
    && exists j: nat :: j <= k && NoReset(passes, walks, j, k) && Unreachables(passes, j, k + 1) >= s.meshAfter
  }

  lemma {:induction false} FewerFromLater(passes: seq<Pass>, i: nat, j: nat, n: nat)
    requires i <= j && n <= |passes|
    ensures Unreachables(passes, j, n) <= Unreachables(passes, i, n)
    decreases n
  {
    if n > j {
      FewerFromLater(passes, i, j, n - 1);
    } else if n > i {
      FewerFromLater(passes, i, j, n - 1);
    }
  }

  lemma {:induction false} CountOfPrefix(passes: seq<Pass>, more: seq<Pass>, j: nat, n: nat)
    requires passes <= more && n <= |passes|
    ensures Unreachables(passes, j, n) == Unreachables(more, j, n)
    decreases n
  {
    if n > j {
      CountOfPrefix(passes, more, j, n - 1);
    }
  }

  /** What is due at a pass depends on nothing later. */
  lemma DueOfPrefix(s: Settings, passes: seq<Pass>, walks: seq<bool>, more: seq<Pass>, longer: seq<bool>, k: nat)
    requires passes <= more && walks <= longer && k < |passes| && k <= |walks|
    ensures WalkDue(s, passes, walks, k) <==> WalkDue(s, more, longer, k)
  {
    if WalkDue(s, passes, walks, k) {
      var j: nat :| j <= k && NoReset(passes, walks, j, k) && Unreachables(passes, j, k + 1) >= s.meshAfter;
      CountOfPrefix(passes, more, j, k + 1);
      assert NoReset(more, longer, j, k);
    }
    if WalkDue(s, more, longer, k) {
      var j: nat :| j <= k && NoReset(more, longer, j, k) && Unreachables(more, j, k + 1) >= s.meshAfter;
      CountOfPrefix(passes, more, j, k + 1);
      assert NoReset(passes, walks, j, k);
    }
  }

  /** The streak counts the unreachable passes since it was last reset. */
  ghost predicate Counts(s: Settings, passes: seq<Pass>, walks: seq<bool>, start: nat, streak: int)
    requires |passes| == |walks|
  {
    && start <= |passes|
    && NoReset(passes, walks, start, |passes|)
    && streak == Unreachables(passes, start, |passes|)
    && (start > 0 ==> walks[start - 1] || Answered(passes[start - 1]))
  }

  /** At an unreachable pass, the streak decides exactly as the history does. */
  lemma StreakDecides(s: Settings, passes: seq<Pass>, walks: seq<bool>, start: nat, streak: int, p: Pass)
    requires |passes| == |walks| && Counts(s, passes, walks, start, streak) && s.meshConfigured && Unreachable(p)
    ensures WalkDue(s, passes + [p], walks, |passes|) <==> streak + 1 >= s.meshAfter
  {
    var all, k := passes + [p], |passes|;
    CountOfPrefix(passes, all, start, k);
    assert Unreachables(all, start, k + 1) == streak + 1;
    if streak + 1 >= s.meshAfter {
      assert NoReset(all, walks, start, k);
    }
    if WalkDue(s, all, walks, k) {
      var j: nat :| j <= k && NoReset(all, walks, j, k) && Unreachables(all, j, k + 1) >= s.meshAfter;
      assert start > 0 ==> j > start - 1;
      FewerFromLater(all, start, j, k + 1);
    }
  }

  ghost predicate AllDue(s: Settings, passes: seq<Pass>, walks: seq<bool>)
    requires |passes| == |walks|
  {
    forall k :: 0 <= k < |passes| ==> (walks[k] <==> WalkDue(s, passes, walks, k))
  }

  /** One more pass, walked or not as due. */
  lemma DueOneMore(s: Settings, passes: seq<Pass>, walks: seq<bool>, p: Pass, walk: bool)
    requires |passes| == |walks| && AllDue(s, passes, walks)
    requires walk <==> WalkDue(s, passes + [p], walks, |passes|)
    ensures AllDue(s, passes + [p], walks + [walk])
  {
    var all, longer := passes + [p], walks + [walk];
    forall k | 0 <= k < |all|
      ensures longer[k] <==> WalkDue(s, all, longer, k)
    {
      if k < |passes| {
        DueOfPrefix(s, passes, walks, all, longer, k);
      } else {
        DueOfPrefix(s, all, walks, all, longer, k);
      }
    }
  }

  lemma CountsOneMore(s: Settings, passes: seq<Pass>, walks: seq<bool>, start: nat, streak: int, p: Pass, walk: bool)
    requires |passes| == |walks| && Counts(s, passes, walks, start, streak)
    ensures walk || Answered(p) ==> Counts(s, passes + [p], walks + [walk], |passes| + 1, 0)
    ensures !walk && !Answered(p) ==>
              Counts(s, passes + [p], walks + [walk], start, if Unreachable(p) then streak + 1 else streak)
  {
    CountOfPrefix(passes, passes + [p], start, |passes|);
  }

  /** What a failed pass does to the streak, and whether it is time to walk. */
  function NextStreak(s: Settings, streak: int, p: Pass): (bool, int) {
    if p == Down(LinkStale) then (false, streak)
    else if Unreachable(p) && s.meshConfigured then
      var walk := streak + 1 >= s.meshAfter;
      (walk, if walk then 0 else streak + 1)
    else (false, 0)
  }

  lemma StreakStep(s: Settings, passes: seq<Pass>, walks: seq<bool>, start: nat, streak: int, p: Pass)
    returns (next: nat)
    requires |passes| == |walks| && AllDue(s, passes, walks)
    requires s.meshConfigured ==> Counts(s, passes, walks, start, streak)
    ensures AllDue(s, passes + [p], walks + [NextStreak(s, streak, p).0])
    ensures var (walk, count) := NextStreak(s, streak, p);
            s.meshConfigured ==> Counts(s, passes + [p], walks + [walk], next, count)
  {
    var walk := NextStreak(s, streak, p).0;
    if Unreachable(p) && s.meshConfigured {
      StreakDecides(s, passes, walks, start, streak, p);
    }
    DueOneMore(s, passes, walks, p, walk);
    next := if walk || Answered(p) then |passes| + 1 else start;
    if s.meshConfigured {
      CountsOneMore(s, passes, walks, start, streak, p, walk);
    }
  }

  ghost predicate AllRight(c: Client, rounds: seq<Round>, passes: seq<Pass>) {
    |passes| <= |rounds| && forall k :: 0 <= k < |passes| ==> RightResult(c, rounds[k].links, passes[k])
  }

  ghost predicate AllWaits(s: Settings, delays: seq<int>) {
    forall k :: 0 <= k < |delays| ==> delays[k] == Delay(s, k)
  }

  /** The first n passes gave no reason to stop: none came up, and no walk among them found anything. */
  ghost predicate KeepsTrying(rounds: seq<Round>, passes: seq<Pass>, walks: seq<bool>, n: int)
    requires n <= |passes| == |walks| <= |rounds|
  {
    forall k :: 0 <= k < n ==> passes[k].Down? && !(walks[k] && rounds[k].walkFinds)
  }

  /** The waits after the first n passes ran out. */
  ghost predicate AllSlept(rounds: seq<Round>, n: int)
    requires n <= |rounds|
  {
    forall k :: 0 <= k < n ==> rounds[k].slept
  }

  lemma OneMorePass(c: Client, rounds: seq<Round>, passes: seq<Pass>, walks: seq<bool>, p: Pass, walk: bool)
    requires |passes| == |walks| < |rounds| && AllRight(c, rounds, passes) && RightResult(c, rounds[|passes|].links, p)
    requires KeepsTrying(rounds, passes, walks, |passes|)
    ensures AllRight(c, rounds, passes + [p])
    ensures KeepsTrying(rounds, passes + [p], walks + [walk], |passes|)
    ensures p.Down? && !(walk && rounds[|passes|].walkFinds) ==>
              KeepsTrying(rounds, passes + [p], walks + [walk], |passes| + 1)
  {
  }

  lemma OneMoreWait(s: Settings, delays: seq<int>, delay: int)
    requires AllWaits(s, delays) && delay == Delay(s, |delays|)
    ensures AllWaits(s, delays + [delay])
  {
  }

  /**
   The reconnect loop over any rounds. A mesh walk happens exactly when enough passes found no coordinator
   since the last walk or answering pass, stale passes neither counting nor resetting; the waits follow
   the backoff; and a budget of attempts is never exceeded.
   */
  method ReconnectLoop(c: Client, s: Settings, rounds: seq<Round>)
    returns (end: End, passes: seq<Pass>, walks: seq<bool>, delays: seq<int>)
    ensures |walks| == |passes| <= |rounds|
    ensures AllRight(c, rounds, passes)
    ensures AllDue(s, passes, walks)
    ensures AllWaits(s, delays)
    ensures s.maxAttempts > 0 ==> |passes| <= s.maxAttempts
    ensures end.StillTrying? || passes != []
    ensures KeepsTrying(rounds, passes, walks, |passes| - if end.Reconnected? || end.Recovering? then 1 else 0)
    ensures end.Reconnected? ==> passes[|passes| - 1].Up?
    ensures end.Recovering? ==> walks[|passes| - 1] && rounds[|passes| - 1].walkFinds
    ensures end.GaveUp? ==> s.maxAttempts > 0 && |passes| == s.maxAttempts
    ensures end.StillTrying? ==> |passes| == |rounds|
    ensures AllSlept(rounds, if end.StillTrying? then |passes| else |passes| - 1)
    ensures end.CutShort? ==> !rounds[|passes| - 1].slept
    ensures |delays| == if end.CutShort? || end.StillTrying? then |passes| else |passes| - 1
  {
    var delay := s.base;
    var silentStreak := 0;
    ghost var start: nat := 0;
    passes, walks, delays := [], [], [];
    while |passes| < |rounds|
      invariant |walks| == |passes| == |delays| <= |rounds|
      invariant AllRight(c, rounds, passes) && AllDue(s, passes, walks) && AllWaits(s, delays)
      invariant KeepsTrying(rounds, passes, walks, |passes|)
      invariant s.meshConfigured ==> Counts(s, passes, walks, start, silentStreak)
      invariant AllSlept(rounds, |passes|)
      invariant delay == Delay(s, |delays|)
      invariant s.maxAttempts > 0 ==> |passes| < s.maxAttempts
      decreases |rounds| - |passes|
    {
      var round := rounds[|passes|];
      var p, offers, dials := Establish(c, round.links);
      var (walk, next) := NextStreak(s, silentStreak, p);
      start := StreakStep(s, passes, walks, start, silentStreak, p);
      OneMorePass(c, rounds, passes, walks, p, walk);
      passes, walks, silentStreak := passes + [p], walks + [walk], next;
      if p.Up? {
        return Reconnected, passes, walks, delays;
      }
      if walk && round.walkFinds {
        return Recovering, passes, walks, delays;
      }
      if s.maxAttempts > 0 && |passes| >= s.maxAttempts {
        return GaveUp, passes, walks, delays;
      }
      OneMoreWait(s, delays, delay);
      delays := delays + [delay];
      if !round.slept {
        return CutShort, passes, walks, delays;
      }
      delay := CapDelay(delay * 2, s.max);
    }
    end := StillTrying;
  }

  /** What a walk at a pass says: that pass reached no one, for want of an answer from any member. */
  lemma WalkMeansSilence(c: Client, s: Settings, links: seq<Member>, passes: seq<Pass>, walks: seq<bool>, k: nat)
    requires |passes| == |walks| && k < |passes| && AllDue(s, passes, walks) && walks[k]
    requires RightResult(c, links, passes[k])
    ensures !AllStale(links)
    ensures forall i, r :: 0 <= i < |links| && Drew(c, links[i], i, r) ==>
                             r == NoHandshake || r == NoReply(false, false)
  {
    assert WalkDue(s, passes, walks, k);
    forall i, r | 0 <= i < |links| && Drew(c, links[i], i, r)
      ensures NoWord(r)
    {
      assert HeardNothing(c, links[i], i);
    }
  }

  /** Two walks in a row are at least meshAfter unreachable passes apart. */
  lemma WalksArePaced(s: Settings, passes: seq<Pass>, walks: seq<bool>, i: nat, k: nat)
    requires |passes| == |walks| && i < k < |passes| && AllDue(s, passes, walks) && walks[i] && walks[k]
    ensures Unreachables(passes, i + 1, k + 1) >= s.meshAfter
  {
    assert WalkDue(s, passes, walks, k);
    var j: nat :| j <= k && NoReset(passes, walks, j, k) && Unreachables(passes, j, k + 1) >= s.meshAfter;
    assert j > i;
    FewerFromLater(passes, i + 1, j, k + 1);
  }
}
