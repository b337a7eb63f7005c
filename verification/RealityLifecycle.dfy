/**
 The lifecycle of the reality transport's sessions: token registration by the answering goroutine,
 connections handed over by the listener, control watchers, and teardown, under every interleaving
 (core/transport_reality.go, answer, bindToken, forget, useControl, track, attach, closeAndTeardown).

 A step is one critical section or one blocking call; a step that is not enabled leaves the state alone.
 */
module RealitySessions {
  import opened Wrappers

  /** Where the goroutine answering a session's offer is. An initiator's session has none: it is Answered. */
  datatype Answer =
    | Awaiting
    | Minted(tok: nat)
    | Registered(tok: nat)
    | Forgetting(tok: nat)
    | MustClose
    | Answered

  /** Where the one teardown of a session is. */
  datatype Teardown =
    | NotBegun
    | Begun                                             // context cancelled, closed channel closed
    | ClosingConns(left: set<nat>, token: Option<nat>)  // isClosed flipped; what was tracked then
    | ForgettingToken(token: Option<nat>)
    | TornDown

  /**
   conns are the tracked connections, watching those with a live control watcher, added how often the wait
   group was added to, and mine the token minted for this session; accepted sessions are those that answer an offer.
   */
  datatype Session = Session(
    accepted: bool, isClosed: bool, token: Option<nat>, conns: set<nat>, watching: set<nat>, added: nat,
    answer: Answer, teardown: Teardown, mine: Option<nat>)

  /** owner is the session each connection was handed to; late are those found too late and not yet closed. */
  datatype World = World(
    closed: bool, pending: map<nat, nat>, nextToken: nat, sessions: seq<Session>,
    owner: seq<nat>, late: set<nat>, closedConns: set<nat>)

  datatype Action =
    | CloseTransport
    | Accept
    | Dial
    | Offer(i: nat)
    | NoOffer(i: nat)
    | Register(i: nat)
    | Bind(i: nat)
    | Forget(i: nat)
    | AnswerCloses(i: nat)
    | Hand(i: nat, control: bool)
    | CloseLate(c: nat)
    | Begin(i: nat)
    | Flip(i: nat)
    | CloseConn(i: nat, c: nat)
    | ConnsDone(i: nat)
    | ForgetToken(i: nat)
    | WatcherExits(i: nat, c: nat)

  const START := World(false, map[], 0, [], [], {}, {})

  function NewSession(answer: Answer): Session {
    Session(answer.Awaiting?, false, None, {}, {}, 0, answer, NotBegun, None)
  }

  /** The token a teardown read under the session's lock. */
  function Captured(t: Teardown): Option<nat> {
    match t
    case ClosingConns(_, token) => token
    case ForgettingToken(token) => token
    case _ => None
  }

  function Target(a: Action): Option<nat> {
    match a
    case CloseTransport => None
    case Accept => None
    case Dial => None
    case CloseLate(_) => None
    case Offer(i) => Some(i)
    case NoOffer(i) => Some(i)
    case Register(i) => Some(i)
    case Bind(i) => Some(i)
    case Forget(i) => Some(i)
    case AnswerCloses(i) => Some(i)
    case Hand(i, _) => Some(i)
    case Begin(i) => Some(i)
    case Flip(i) => Some(i)
    case CloseConn(i, _) => Some(i)
    case ConnsDone(i) => Some(i)
    case ForgetToken(i) => Some(i)
    case WatcherExits(i, _) => Some(i)
  }

  predicate EnabledOn(w: World, s: Session, a: Action) {
    match a
    case Offer(_) => s.answer.Awaiting?
    case NoOffer(_) => s.answer.Awaiting?
    case Register(_) => s.answer.Minted?
    case Bind(_) => s.answer.Registered?
    case Forget(_) => s.answer.Forgetting?
    case AnswerCloses(_) => s.answer.MustClose?
    case Begin(_) => s.teardown.NotBegun?
    case Flip(_) => s.teardown.Begun?
    case CloseConn(_, c) => s.teardown.ClosingConns? && c in s.teardown.left
    case ConnsDone(_) => s.teardown.ClosingConns? && s.teardown.left == {}
    case ForgetToken(_) => s.teardown.ForgettingToken?
    case WatcherExits(_, c) => c in s.watching && s.teardown.TornDown?
    case _ => true
  }

  predicate Enabled(w: World, a: Action) {
    match Target(a)
    case Some(i) => i < |w.sessions| && EnabledOn(w, w.sessions[i], a)
    case None => a.CloseLate? ==> a.c in w.late
  }

  /** closeAndTeardown's once: only the first caller begins it. */
  function Torn(s: Session): Session {
    if s.teardown.NotBegun? then s.(teardown := Begun) else s
  }

  /** What a step does to the session it is about, under that session's lock or on its own goroutine. */
  function Acted(w: World, s: Session, a: Action): Session
    requires EnabledOn(w, s, a)
  {
    match a
    case Offer(_) => s.(answer := Minted(w.nextToken), mine := Some(w.nextToken))
    case NoOffer(_) => s.(answer := MustClose)
    case Register(_) => if w.closed then s.(answer := MustClose) else s.(answer := Registered(s.answer.tok))
    case Bind(_) =>
      if s.isClosed then s.(answer := Forgetting(s.answer.tok))
      else s.(answer := Answered, token := Some(s.answer.tok))
    case Forget(_) => s.(answer := Answered)
    case AnswerCloses(_) => Torn(s).(answer := Answered)
    case Hand(_, control) =>
      if s.isClosed then s
      else if control then
        s.(conns := s.conns + {|w.owner|}, watching := s.watching + {|w.owner|}, added := s.added + 1)
      else s.(conns := s.conns + {|w.owner|})
    case Begin(_) => Torn(s)
    case Flip(_) => s.(isClosed := true, conns := {}, teardown := ClosingConns(s.conns, s.token))
    case CloseConn(_, c) => s.(teardown := ClosingConns(s.teardown.left - {c}, s.teardown.token))
    case ConnsDone(_) => s.(teardown := ForgettingToken(s.teardown.token))
    case ForgetToken(_) => s.(teardown := TornDown)
    case WatcherExits(_, c) => s.(watching := s.watching - {c})
    case _ => s
  }

  /** What a step does to the transport and the connections. */
  function Shared(w: World, i: nat, s: Session, a: Action): World
    requires EnabledOn(w, s, a)
  {
    match a
    case Offer(_) => w.(nextToken := w.nextToken + 1)
    case Register(_) => if w.closed then w else w.(pending := w.pending[s.answer.tok := i])
    case Forget(_) => w.(pending := w.pending - {s.answer.tok})
    case ForgetToken(_) => if s.teardown.token.Some? then w.(pending := w.pending - {s.teardown.token.value}) else w
    case Hand(_, _) => w.(owner := w.owner + [i], late := if s.isClosed then w.late + {|w.owner|} else w.late)
    case CloseConn(_, c) => w.(closedConns := w.closedConns + {c})
    case _ => w
  }

  function Apply(w: World, a: Action): World {
    if !Enabled(w, a) then w
    else
      match a
      case CloseTransport => w.(closed := true)
      case Accept => w.(sessions := w.sessions + [NewSession(Awaiting)])
      case Dial => w.(sessions := w.sessions + [NewSession(Answered)])
      case CloseLate(c) => w.(late := w.late - {c}, closedConns := w.closedConns + {c})
      case _ =>
        var i := Target(a).value;
        var s := w.sessions[i];
        Shared(w, i, s, a).(sessions := w.sessions[i := Acted(w, s, a)])
  }

  function Exec(acts: seq<Action>): World {
    if acts == [] then START else Apply(Exec(acts[..|acts| - 1]), acts[|acts| - 1])
  }

  // ---------- the invariant ----------

  /** A session's own fields agree. */
  ghost predicate Consistent(s: Session) {
    && (s.isClosed <==> !s.teardown.NotBegun? && !s.teardown.Begun?)
    && (s.isClosed ==> s.conns == {})
    && (s.answer.Forgetting? ==> s.isClosed)
    && (s.answer.Awaiting? ==> s.mine.None?)
    && (s.answer.Minted? || s.answer.Registered? || s.answer.Forgetting? ==> s.mine == Some(s.answer.tok))
    && (s.token.Some? ==> s.token == s.mine && s.answer.Answered?)
    && (Captured(s.teardown).Some? ==> Captured(s.teardown) == s.mine && s.token == s.mine)
  }

  /** Someone still has to take this token out again, or the session is open. */
  ghost predicate Holds(s: Session, tok: nat) {
    || s.answer == Registered(tok) || s.answer == Forgetting(tok)
    || (s.token == Some(tok) && !s.isClosed)
    || Captured(s.teardown) == Some(tok)
  }

  ghost predicate SessionsOk(w: World) {
    && (forall i :: 0 <= i < |w.sessions| ==> Consistent(w.sessions[i]))
    && (forall i :: 0 <= i < |w.sessions| && w.sessions[i].mine.Some? ==> w.sessions[i].mine.value < w.nextToken)
    && (forall i, j :: 0 <= i < |w.sessions| && 0 <= j < |w.sessions| && i != j && w.sessions[i].mine.Some?
                       ==> w.sessions[i].mine != w.sessions[j].mine)
  }

  ghost predicate TokenHeld(w: World, tok: nat)
    requires tok in w.pending
  {
    var i := w.pending[tok];
    i < |w.sessions| && w.sessions[i].mine == Some(tok) && Holds(w.sessions[i], tok)
  }

  /** Every registered token has a holder, and every open session that bound its token is registered. */
  ghost predicate TokensOk(w: World) {
    && (forall tok :: tok in w.pending ==> TokenHeld(w, tok))
    && (forall i :: 0 <= i < |w.sessions| && !w.sessions[i].isClosed && w.sessions[i].token.Some? ==>
                      w.sessions[i].token.value in w.pending && w.pending[w.sessions[i].token.value] == i)
    && (forall i :: 0 <= i < |w.sessions| && w.sessions[i].answer.Registered? ==>
                      w.sessions[i].answer.tok in w.pending && w.pending[w.sessions[i].answer.tok] == i)
  }

  /** Every connection handed over is closed, tracked, being closed by the teardown, or by whoever came too late. */
  ghost predicate Cared(w: World, c: nat)
    requires c < |w.owner|
  {
    || c in w.closedConns || c in w.late
    || (w.owner[c] < |w.sessions| &&
        var s := w.sessions[w.owner[c]];
        c in s.conns || (s.teardown.ClosingConns? && c in s.teardown.left))
  }

  ghost predicate ConnsOk(w: World) {
    forall c :: 0 <= c < |w.owner| ==> w.owner[c] < |w.sessions| && Cared(w, c)
  }

  ghost predicate Inv(w: World) {
    SessionsOk(w) && TokensOk(w) && ConnsOk(w)
  }

  // ---------- every step keeps it ----------

  lemma ActedIsConsistent(w: World, s: Session, a: Action)
    requires Consistent(s) && EnabledOn(w, s, a)
    ensures Consistent(Acted(w, s, a))
    ensures a.Offer? || Acted(w, s, a).mine == s.mine
  {
  }

  lemma StepKeepsSessions(w: World, a: Action)
    requires SessionsOk(w)
    ensures SessionsOk(Apply(w, a))
  {
    if Enabled(w, a) && Target(a).Some? {
      SessionStepKeepsSessions(w, Target(a).value, a, Apply(w, a));
    }
  }

  lemma SessionStepKeepsSessions(w: World, i: nat, a: Action, v: World)
    requires SessionsOk(w) && Target(a) == Some(i) && Enabled(w, a) && v == Apply(w, a)
    ensures SessionsOk(v)
  {
    ActedIsConsistent(w, w.sessions[i], a);
    assert v.sessions == w.sessions[i := Acted(w, w.sessions[i], a)];
    assert v.nextToken == if a.Offer? then w.nextToken + 1 else w.nextToken;
  }

  /** What a session still holds after a step, other than what the step took out. */
  lemma HoldsAfter(w: World, i: nat, a: Action, tok: nat)
    requires i < |w.sessions| && Target(a) == Some(i) && EnabledOn(w, w.sessions[i], a)
    requires Consistent(w.sessions[i]) && Holds(w.sessions[i], tok)
    ensures Holds(Acted(w, w.sessions[i], a), tok) || tok !in Shared(w, i, w.sessions[i], a).pending
  {
  }

  lemma OpenStepKeepsTokens(w: World, a: Action)
    requires SessionsOk(w) && TokensOk(w) && Target(a).None?
    ensures TokensOk(Apply(w, a))
  {
    var v := Apply(w, a);
    forall tok | tok in v.pending
      ensures TokenHeld(v, tok)
    {
      assert TokenHeld(w, tok);
      assert v.sessions[v.pending[tok]] == w.sessions[w.pending[tok]];
    }
  }

  /** The step's own session aside, a token only ever leaves by the hand of the session it was minted for. */
  lemma SessionStepKeepsTokens(w: World, i: nat, a: Action, v: World)
    requires SessionsOk(w) && TokensOk(w) && Target(a) == Some(i) && Enabled(w, a)
    requires v == Apply(w, a)
    ensures forall tok :: tok in v.pending ==>
              TokenHeld(v, tok)
  {
    var s := w.sessions[i];
    ActedIsConsistent(w, s, a);
    forall tok | tok in v.pending
      ensures TokenHeld(v, tok)
    {
      if a.Register? && !w.closed && tok == s.answer.tok {
      } else {
        assert tok in w.pending && v.pending[tok] == w.pending[tok] && TokenHeld(w, tok);
        if w.pending[tok] == i {
          HoldsAfter(w, i, a, tok);
        }
      }
    }
  }

  lemma SessionStepKeepsLive(w: World, i: nat, a: Action, v: World)
    requires SessionsOk(w) && TokensOk(w) && Target(a) == Some(i) && Enabled(w, a)
    requires v == Apply(w, a)
    ensures forall j :: 0 <= j < |v.sessions| && !v.sessions[j].isClosed && v.sessions[j].token.Some? ==>
              v.sessions[j].token.value in v.pending && v.pending[v.sessions[j].token.value] == j
    ensures forall j :: 0 <= j < |v.sessions| && v.sessions[j].answer.Registered? ==>
              v.sessions[j].answer.tok in v.pending && v.pending[v.sessions[j].answer.tok] == j
  {
    var s := w.sessions[i];
    ActedIsConsistent(w, s, a);
    forall j | 0 <= j < |v.sessions| && !v.sessions[j].isClosed && v.sessions[j].token.Some?
      ensures v.sessions[j].token.value in v.pending && v.pending[v.sessions[j].token.value] == j
    {
      assert Consistent(w.sessions[j]);
    }
    forall j | 0 <= j < |v.sessions| && v.sessions[j].answer.Registered?
      ensures v.sessions[j].answer.tok in v.pending && v.pending[v.sessions[j].answer.tok] == j
    {
      assert Consistent(w.sessions[j]);
    }
  }

  lemma CareGoesOn(w: World, a: Action, c: nat)
    requires SessionsOk(w) && c < |w.owner| && w.owner[c] < |w.sessions| && Cared(w, c)
    ensures var v := Apply(w, a); c < |v.owner| && v.owner[c] == w.owner[c] < |v.sessions| && Cared(v, c)
  {
    assert Consistent(w.sessions[w.owner[c]]);
  }

  lemma StepKeepsConns(w: World, a: Action)
    requires Inv(w)
    ensures ConnsOk(Apply(w, a))
  {
    var v := Apply(w, a);
    forall c | 0 <= c < |v.owner|
      ensures v.owner[c] < |v.sessions| && Cared(v, c)
    {
      if c < |w.owner| {
        assert Cared(w, c);
        CareGoesOn(w, a, c);
      }
    }
  }

  lemma StepKeeps(w: World, a: Action)
    requires Inv(w)
    ensures Inv(Apply(w, a))
  {
    StepKeepsSessions(w, a);
    StepKeepsConns(w, a);
    match Target(a)
    case None => OpenStepKeepsTokens(w, a);
    case Some(i) =>
      if Enabled(w, a) {
        SessionStepKeepsTokens(w, i, a, Apply(w, a));
        SessionStepKeepsLive(w, i, a, Apply(w, a));
      }
  }

  lemma {:induction false} RunKeeps(acts: seq<Action>)
    ensures Inv(Exec(acts))
  {
    if acts != [] {
      RunKeeps(acts[..|acts| - 1]);
      StepKeeps(Exec(acts[..|acts| - 1]), acts[|acts| - 1]);
    }
  }

  // ---------- what the lifecycle promises ----------

  /** The answering goroutine and the teardown of a session have both finished. */
  ghost predicate Over(s: Session) {
    s.answer.Answered? && s.teardown.TornDown?
  }

  /** No session leaves a token behind: over every run, one that is over has none registered. */
  lemma NoTokenOutlivesItsSession(acts: seq<Action>, tok: nat)
    requires var w := Exec(acts); tok in w.pending && w.pending[tok] < |w.sessions|
    ensures !Over(Exec(acts).sessions[Exec(acts).pending[tok]])
  {
    RunKeeps(acts);
    assert TokenHeld(Exec(acts), tok);
  }

  /** Nor is one taken from it: an open session whose token was bound can still be found by it. */
  lemma LiveTokenStaysRegistered(acts: seq<Action>, i: nat)
    requires var w := Exec(acts); i < |w.sessions| && !w.sessions[i].isClosed && w.sessions[i].token.Some?
    ensures var w := Exec(acts); w.sessions[i].token.value in w.pending && w.pending[w.sessions[i].token.value] == i
  {
    RunKeeps(acts);
  }

  /**
   Every connection handed to a session that is torn down is closed, or about to be by whoever brought it too
   late.
   */
  lemma EveryConnIsClosed(acts: seq<Action>, c: nat)
    requires var w := Exec(acts);
             c < |w.owner| && w.owner[c] < |w.sessions| && w.sessions[w.owner[c]].teardown.TornDown? && c !in w.late
    ensures c in Exec(acts).closedConns
  {
    RunKeeps(acts);
    assert Cared(Exec(acts), c);
  }

  lemma ClosedSessionStays(w: World, a: Action, i: nat)
    requires i < |w.sessions| && w.sessions[i].isClosed
    ensures i < |Apply(w, a).sessions|
    ensures var s, t := w.sessions[i], Apply(w, a).sessions[i];
            t.isClosed && t.added == s.added && t.watching <= s.watching
  {
  }

  /** Once isClosed is flipped, no watcher is ever added to the wait group, and those there only leave. */
  lemma {:induction false} NoWatcherAfterClose(acts: seq<Action>, n: nat, i: nat)
    requires n <= |acts| && i < |Exec(acts[..n]).sessions| && Exec(acts[..n]).sessions[i].isClosed
    ensures i < |Exec(acts).sessions|
    ensures var s, t := Exec(acts[..n]).sessions[i], Exec(acts).sessions[i];
            t.isClosed && t.added == s.added && t.watching <= s.watching
  {
    if n == |acts| {
      assert acts[..n] == acts;
    } else {
      var prior := acts[..|acts| - 1];
      assert prior[..n] == acts[..n];
      NoWatcherAfterClose(prior, n, i);
      ClosedSessionStays(Exec(prior), acts[|acts| - 1], i);
    }
  }

  /** A closed transport registers nothing more. */
  lemma {:induction false} ClosedTransportRegistersNothing(acts: seq<Action>, n: nat)
    requires n <= |acts| && Exec(acts[..n]).closed
    ensures Exec(acts).closed && Exec(acts).pending.Keys <= Exec(acts[..n]).pending.Keys
  {
    if n == |acts| {
      assert acts[..n] == acts;
    } else {
      var prior := acts[..|acts| - 1];
      assert prior[..n] == acts[..n];
      ClosedTransportRegistersNothing(prior, n);
    }
  }

  lemma ExecLast(acts: seq<Action>, a: Action)
    ensures Exec(acts + [a]) == Apply(Exec(acts), a)
  {
    assert (acts + [a])[..|acts|] == acts;
  }

  // ---------- every answer comes to its end ----------

  ghost predicate OfAnswer(a: Action, i: nat) {
    a == Offer(i) || a == NoOffer(i) || a == Register(i) || a == Bind(i) || a == Forget(i) || a == AnswerCloses(i)
  }

  ghost function AnswerLeft(a: Answer): nat {
    match a
    case Awaiting => 4
    case Minted(_) => 3
    case Registered(_) => 2
    case Forgetting(_) => 1
    case MustClose => 1
    case Answered => 0
  }

  /** The token is nobody's: not registered, and minted for no session. */
  ghost predicate Unused(w: World, tok: nat) {
    tok !in w.pending && forall j :: 0 <= j < |w.sessions| ==> w.sessions[j].mine != Some(tok)
  }

  /**
   What each step of an answer comes to: an offer draws a token that is nobody's; a transport still open registers
   it for this session; a session still open is bound to it. A closed transport, or no offer at all, has the
   session closed instead; a closed session has the token taken out again.
   */
  ghost predicate AnsweredAs(w: World, i: nat, a: Action, v: World)
    requires i < |w.sessions| && i < |v.sessions|
  {
    var s, t := w.sessions[i], v.sessions[i];
    match s.answer
    case Awaiting =>
      && (a == Offer(i) ==> t.answer.Minted? && Unused(w, t.answer.tok) && v.pending == w.pending)
      && (a == NoOffer(i) ==> t.answer == MustClose && v.pending == w.pending)
    case Minted(tok) =>
      a == Register(i) ==> if w.closed then t.answer == MustClose && v.pending == w.pending
                           else t.answer == Registered(tok) && v.pending == w.pending[tok := i]
    case Registered(tok) =>
      a == Bind(i) ==> if s.isClosed then t.answer == Forgetting(tok) && t.token == s.token
                       else t.answer == Answered && t.token == Some(tok)
    case Forgetting(tok) => a == Forget(i) ==> t.answer == Answered && v.pending == w.pending - {tok}
    case MustClose => a == AnswerCloses(i) ==> t.answer == Answered && t.teardown != NotBegun
    case Answered => true
  }

  lemma AnswerStep(w: World, i: nat, a: Action)
    requires Inv(w) && i < |w.sessions|
    ensures i < |Apply(w, a).sessions| && AnsweredAs(w, i, a, Apply(w, a))
  {
    if OfAnswer(a, i) {
      MintedBefore(w);
      assert Unused(w, w.nextToken);
    } else if Target(a) != Some(i) {
      OtherSessionsStay(w, i, a);
    }
  }

  lemma MintedBefore(w: World)
    requires SessionsOk(w) && TokensOk(w)
    ensures forall tok :: tok in w.pending ==> tok < w.nextToken
  {
    forall tok | tok in w.pending
      ensures tok < w.nextToken
    {
      assert TokenHeld(w, tok);
    }
  }

  /** On every run each step of an answer comes to what it should. */
  lemma AnswerDecides(acts: seq<Action>, i: nat, a: Action)
    requires i < |Exec(acts).sessions|
    ensures i < |Exec(acts + [a]).sessions| && AnsweredAs(Exec(acts), i, a, Exec(acts + [a]))
  {
    RunKeeps(acts);
    ExecLast(acts, a);
    AnswerStep(Exec(acts), i, a);
  }

  lemma AnswerMoves(w: World, i: nat, a: Action)
    requires i < |w.sessions|
    ensures i < |Apply(w, a).sessions|
    ensures var s, t := w.sessions[i].answer, Apply(w, a).sessions[i].answer;
            if OfAnswer(a, i) && Enabled(w, a) then AnswerLeft(t) < AnswerLeft(s) else t == s
  {
    if Target(a) != Some(i) {
      OtherSessionsStay(w, i, a);
    } else if Enabled(w, a) {
      ActedAnswer(w, i, w.sessions[i], a);
      assert Apply(w, a).sessions[i] == Acted(w, w.sessions[i], a);
    }
  }

  lemma ActedAnswer(w: World, i: nat, s: Session, a: Action)
    requires Target(a) == Some(i) && EnabledOn(w, s, a)
    ensures var t := Acted(w, s, a).answer;
            if OfAnswer(a, i) then AnswerLeft(t) < AnswerLeft(s.answer) else t == s.answer
  {
  }

  ghost function NextOfAnswer(s: Session, i: nat): Action {
    match s.answer
    case Awaiting => Offer(i)
    case Minted(_) => Register(i)
    case Registered(_) => Bind(i)
    case Forgetting(_) => Forget(i)
    case _ => AnswerCloses(i)
  }

  /**
   Every answer comes to its end: on every run each of its steps brings it nearer, no other step touches it, and
   until it has ended one can be taken; one that awaits its offer may also go without.
   */
  lemma AnswersEnd(acts: seq<Action>, i: nat, a: Action)
    requires i < |Exec(acts).sessions|
    ensures i < |Exec(acts + [a]).sessions|
    ensures var w, v := Exec(acts), Exec(acts + [a]);
            var s, t := w.sessions[i].answer, v.sessions[i].answer;
            && (if OfAnswer(a, i) && Enabled(w, a) then AnswerLeft(t) < AnswerLeft(s) else t == s)
            && (s != Answered ==> Enabled(w, NextOfAnswer(w.sessions[i], i)))
            && (s == Awaiting ==> Enabled(w, NoOffer(i)))
  {
    ExecLast(acts, a);
    AnswerMoves(Exec(acts), i, a);
  }

  /** An accepted session whose answer has ended is bound to a token of its own, or is being torn down. */
  ghost predicate Settled(s: Session) {
    s.accepted && s.answer.Answered? ==> s.token.Some? || !s.teardown.NotBegun?
  }

  lemma StepSettles(w: World, a: Action)
    requires SessionsOk(w) && forall i :: 0 <= i < |w.sessions| ==> Settled(w.sessions[i])
    ensures forall i :: 0 <= i < |Apply(w, a).sessions| ==> Settled(Apply(w, a).sessions[i])
  {
    if Enabled(w, a) && Target(a).Some? {
      var i := Target(a).value;
      assert Consistent(w.sessions[i]) && Settled(w.sessions[i]);
      ActedSettles(w, w.sessions[i], a);
      assert Apply(w, a).sessions == w.sessions[i := Acted(w, w.sessions[i], a)];
    }
  }

  lemma ActedSettles(w: World, s: Session, a: Action)
    requires Consistent(s) && Settled(s) && EnabledOn(w, s, a)
    ensures Settled(Acted(w, s, a))
  {
  }

  lemma {:induction false} RunSettles(acts: seq<Action>)
    ensures forall i :: 0 <= i < |Exec(acts).sessions| ==> Settled(Exec(acts).sessions[i])
  {
    if acts != [] {
      RunSettles(acts[..|acts| - 1]);
      RunKeeps(acts[..|acts| - 1]);
      StepSettles(Exec(acts[..|acts| - 1]), acts[|acts| - 1]);
    }
  }

  /**
   On every run a session that was accepted, whose answer has ended and that nobody closed can be found by a token
   of its own: none is left open that no connection could ever reach.
   */
  lemma AnsweredIsReachable(acts: seq<Action>, i: nat)
    requires var w := Exec(acts);
             && i < |w.sessions| && w.sessions[i].accepted
             && w.sessions[i].answer == Answered && w.sessions[i].teardown == NotBegun
    ensures var w := Exec(acts); exists tok :: tok in w.pending && w.pending[tok] == i
  {
    RunKeeps(acts);
    RunSettles(acts);
    var s := Exec(acts).sessions[i];
    assert Settled(s) && Consistent(s);
    LiveTokenStaysRegistered(acts, i);
  }

  // ---------- every teardown comes to its end ----------

  ghost predicate OfTeardown(a: Action, i: nat) {
    a == Flip(i) || (a.CloseConn? && a.i == i) || a == ConnsDone(i) || a == ForgetToken(i)
  }

  ghost function PhasesLeft(t: Teardown): nat {
    match t
    case NotBegun => 4
    case Begun => 3
    case ClosingConns(_, _) => 2
    case ForgettingToken(_) => 1
    case TornDown => 0
  }

  ghost function ToClose(t: Teardown): set<nat> {
    if t.ClosingConns? then t.left else {}
  }

  /** One more of the connections it found is closed, or all were and the next phase has begun. */
  ghost predicate Onward(s: Teardown, t: Teardown) {
    if ToClose(s) == {} then PhasesLeft(t) == PhasesLeft(s) - 1
    else PhasesLeft(t) == PhasesLeft(s) && ToClose(t) < ToClose(s) && |ToClose(t)| == |ToClose(s)| - 1
  }

  /** It is begun once, by whoever closes the session, or by an answer that has to. */
  ghost predicate Begins(w: World, a: Action, i: nat)
    requires i < |w.sessions|
  {
    w.sessions[i].teardown == NotBegun && (a == Begin(i) || (a == AnswerCloses(i) && w.sessions[i].answer == MustClose))
  }

  lemma TeardownMoves(w: World, i: nat, a: Action)
    requires i < |w.sessions|
    ensures i < |Apply(w, a).sessions|
    ensures var s, t := w.sessions[i].teardown, Apply(w, a).sessions[i].teardown;
            if Begins(w, a, i) then t == Begun
            else if OfTeardown(a, i) && Enabled(w, a) then Onward(s, t)
            else t == s
  {
    if Target(a) != Some(i) {
      OtherSessionsStay(w, i, a);
    } else if Enabled(w, a) {
      ActedTeardown(w, i, w.sessions[i], a);
      assert Apply(w, a).sessions[i] == Acted(w, w.sessions[i], a);
    }
  }

  lemma OtherSessionsStay(w: World, i: nat, a: Action)
    requires i < |w.sessions| && Target(a) != Some(i)
    ensures i < |Apply(w, a).sessions| && Apply(w, a).sessions[i] == w.sessions[i]
  {
  }

  lemma ActedTeardown(w: World, i: nat, s: Session, a: Action)
    requires Target(a) == Some(i) && EnabledOn(w, s, a)
    ensures var t := Acted(w, s, a).teardown;
            if s.teardown == NotBegun && (a == Begin(i) || (a == AnswerCloses(i) && s.answer == MustClose))
            then t == Begun
            else if OfTeardown(a, i) then Onward(s.teardown, t)
            else t == s.teardown
  {
    if a.CloseConn? {
      assert |s.teardown.left - {a.c}| == |s.teardown.left| - 1;
    }
  }

  /** Some step of the teardown can be taken. */
  ghost predicate CanGoOn(w: World, i: nat) {
    exists a :: OfTeardown(a, i) && Enabled(w, a)
  }

  lemma TeardownGoesOn(w: World, i: nat)
    requires i < |w.sessions| && w.sessions[i].teardown != NotBegun && w.sessions[i].teardown != TornDown
    ensures CanGoOn(w, i)
  {
    var t := w.sessions[i].teardown;
    match t
    case Begun => assert OfTeardown(Flip(i), i) && Enabled(w, Flip(i));
    case ClosingConns(left, _) =>
      if left == {} {
        assert OfTeardown(ConnsDone(i), i) && Enabled(w, ConnsDone(i));
      } else {
        var c :| c in left;
        assert OfTeardown(CloseConn(i, c), i) && Enabled(w, CloseConn(i, c));
      }
    case ForgettingToken(_) => assert OfTeardown(ForgetToken(i), i) && Enabled(w, ForgetToken(i));
  }

  /**
   Every teardown comes to its end: on every run it is begun at most once, can go on until it is over, and every
   step it takes closes one more of the connections it found or is the next phase with none left; nothing else
   moves it, and a session not begun can always be closed.
   */
  lemma TeardownsEnd(acts: seq<Action>, i: nat, a: Action)
    requires i < |Exec(acts).sessions|
    ensures i < |Exec(acts + [a]).sessions|
    ensures var w, v := Exec(acts), Exec(acts + [a]);
            var s, t := w.sessions[i].teardown, v.sessions[i].teardown;
            && (s == NotBegun || s == TornDown || CanGoOn(w, i))
            && (if Begins(w, a, i) then t == Begun
                else if OfTeardown(a, i) && Enabled(w, a) then Onward(s, t)
                else t == s)
  {
    ExecLast(acts, a);
    TeardownMoves(Exec(acts), i, a);
    var s := Exec(acts).sessions[i].teardown;
    if s != NotBegun && s != TornDown {
      TeardownGoesOn(Exec(acts), i);
    }
  }

  // ---------- connections and their watchers ----------

  /** A connection a session tracks is its own, and open; a closed one's session is closed. */
  ghost predicate OpenWhileTracked(w: World) {
    && (forall c :: c in w.closedConns || c in w.late ==> c < |w.owner|)
    && (forall c :: 0 <= c < |w.owner| && (c in w.closedConns || c in w.late) ==>
          w.owner[c] < |w.sessions| && w.sessions[w.owner[c]].isClosed)
    && (forall i :: 0 <= i < |w.sessions| ==> OwnConns(w, i))
  }

  ghost predicate OwnConns(w: World, i: nat)
    requires i < |w.sessions|
  {
    var s := w.sessions[i];
    && (forall c :: c in s.conns || c in s.watching || c in ToClose(s.teardown) ==> c < |w.owner| && w.owner[c] == i)
    && (s.teardown != TornDown ==> s.added == |s.watching|)
    && (!s.isClosed ==> s.watching <= s.conns)
  }

  lemma ActedOwns(w: World, i: nat, a: Action)
    requires i < |w.sessions| && Target(a) == Some(i) && Enabled(w, a) && OwnConns(w, i) && Consistent(w.sessions[i])
    ensures OwnConns(Apply(w, a), i)
  {
    var s, v := w.sessions[i], Apply(w, a);
    if a.Hand? && !s.isClosed && a.control {
      assert |w.owner| !in s.watching;
      assert |s.watching + {|w.owner|}| == |s.watching| + 1;
    }
  }

  lemma OthersOwn(w: World, j: nat, a: Action)
    requires j < |w.sessions| && Target(a) != Some(j) && OwnConns(w, j)
    ensures j < |Apply(w, a).sessions| && OwnConns(Apply(w, a), j)
  {
    assert Apply(w, a).sessions[j] == w.sessions[j];
    assert w.owner <= Apply(w, a).owner;
  }

  lemma StepOwns(w: World, a: Action)
    requires SessionsOk(w) && OpenWhileTracked(w)
    ensures forall i :: 0 <= i < |Apply(w, a).sessions| ==> OwnConns(Apply(w, a), i)
  {
    var v := Apply(w, a);
    forall i | 0 <= i < |v.sessions|
      ensures OwnConns(v, i)
    {
      if i < |w.sessions| {
        assert OwnConns(w, i) && Consistent(w.sessions[i]);
        if !Enabled(w, a) {
          assert v == w;
        } else if Target(a) == Some(i) {
          ActedOwns(w, i, a);
        } else {
          OthersOwn(w, i, a);
        }
      }
    }
  }

  lemma ClosedHasClosedOwner(w: World, a: Action, c: nat)
    requires SessionsOk(w) && OpenWhileTracked(w)
    requires c in Apply(w, a).closedConns || c in Apply(w, a).late
    ensures var v := Apply(w, a);
            c < |v.owner| && v.owner[c] < |v.sessions| && v.sessions[v.owner[c]].isClosed
  {
    if c in w.closedConns || c in w.late {
      assert w.owner[c] < |w.sessions|;
      ClosedSessionStays(w, a, w.owner[c]);
    } else {
      var i := Target(a).value;
      assert OwnConns(w, i) && Consistent(w.sessions[i]);
    }
  }

  lemma {:induction false} RunIsOpenWhileTracked(acts: seq<Action>)
    ensures OpenWhileTracked(Exec(acts))
  {
    if acts != [] {
      var w, a := Exec(acts[..|acts| - 1]), acts[|acts| - 1];
      RunIsOpenWhileTracked(acts[..|acts| - 1]);
      RunKeeps(acts[..|acts| - 1]);
      StepOwns(w, a);
      forall c | c in Apply(w, a).closedConns || c in Apply(w, a).late
        ensures var v := Apply(w, a); c < |v.owner| && v.owner[c] < |v.sessions| && v.sessions[v.owner[c]].isClosed
      {
        ClosedHasClosedOwner(w, a, c);
      }
    }
  }

  /** On every run no connection handed to a session is closed, or refused, while the session is open. */
  lemma ConnIsOpenWhileItsSessionIs(acts: seq<Action>, c: nat)
    requires var w := Exec(acts);
             c < |w.owner| && w.owner[c] < |w.sessions| && !w.sessions[w.owner[c]].isClosed
    ensures var w := Exec(acts); c !in w.closedConns && c !in w.late && c in w.sessions[w.owner[c]].conns
  {
    RunIsOpenWhileTracked(acts);
    RunKeeps(acts);
    assert Cared(Exec(acts), c) && Consistent(Exec(acts).sessions[Exec(acts).owner[c]]);
  }

  /**
   What a connection handed over comes to, on every run: an open session tracks it, and watches it if it is a
   control one, adding it to the wait group; a closed one leaves it to whoever brought it, who can then close it.
   */
  lemma HandedOver(acts: seq<Action>, i: nat, control: bool)
    requires i < |Exec(acts).sessions|
    ensures var w, v := Exec(acts), Exec(acts + [Hand(i, control)]);
            var c, s := |w.owner|, w.sessions[i];
            && v.owner == w.owner + [i] && |v.sessions| == |w.sessions|
            && (if s.isClosed then v.sessions == w.sessions && v.late == w.late + {c} && Enabled(v, CloseLate(c))
                else && v.late == w.late
                     && v.sessions[i].conns == s.conns + {c}
                     && v.sessions[i].watching == (if control then s.watching + {c} else s.watching)
                     && v.sessions[i].added == s.added + (if control then 1 else 0))
  {
    ExecLast(acts, Hand(i, control));
  }

  /** A watcher leaves exactly when its session is torn down: until then the wait group counts every one of them. */
  lemma WatchersLeaveExactly(acts: seq<Action>, i: nat, c: nat)
    requires i < |Exec(acts).sessions| && c in Exec(acts).sessions[i].watching
    ensures i < |Exec(acts + [WatcherExits(i, c)]).sessions|
    ensures var s, t := Exec(acts).sessions[i], Exec(acts + [WatcherExits(i, c)]).sessions[i];
            && (s.teardown != TornDown ==> t == s && s.added == |s.watching|)
            && (s.teardown == TornDown ==> t == s.(watching := s.watching - {c}))
  {
    RunIsOpenWhileTracked(acts);
    assert OwnConns(Exec(acts), i);
    ExecLast(acts, WatcherExits(i, c));
  }

  /** Sessions come and the transport closes, and what was brought too late is closed: nothing else changes with it. */
  lemma Arrivals(acts: seq<Action>, c: nat)
    ensures var w := Exec(acts); Exec(acts + [Accept]) == w.(sessions := w.sessions + [NewSession(Awaiting)])
    ensures var w := Exec(acts); Exec(acts + [Dial]) == w.(sessions := w.sessions + [NewSession(Answered)])
    ensures var w := Exec(acts); Exec(acts + [CloseTransport]) == w.(closed := true)
    ensures c in Exec(acts).late ==>
              c in Exec(acts + [CloseLate(c)]).closedConns && c !in Exec(acts + [CloseLate(c)]).late
  {
    ExecLast(acts, Accept);
    ExecLast(acts, Dial);
    ExecLast(acts, CloseTransport);
    ExecLast(acts, CloseLate(c));
  }
}

/**
 The shared listener's bring-up against any number of closes of the transport
 (core/transport_reality.go, ensureListener, acceptLoop, spawn and close).
 */
module RealityListener {

  /** The one run of the bring-up, whichever Accept reached it first. */
  datatype BringUp =
    | NotRun
    | Cleared          // saw the transport open, about to listen
    | Bound            // listening, not yet published
    | Discarding       // found the transport closed, about to close what it bound
    | Finished

  datatype Closer = Latched(sawListener: bool) | Waiting | Returned

  /** The goroutines the wait group counts: the accept loop, the certificate warm-up, inbound ones and answers. */
  datatype World = World(
    closed: bool, published: bool, bound: bool, listenerClosed: bool, bringUp: BringUp,
    accepting: bool, warming: bool, serving: nat, answering: nat, closers: seq<Closer>)
  {
    predicate Idle() {
      !accepting && !warming && serving == 0 && answering == 0
    }
  }

  datatype Action =
    | CheckOpen
    | Listen(ok: bool)
    | Publish
    | Discard
    | SpawnAnswer
    | AnswerExits
    | Inbound
    | ServeExits
    | AcceptExits
    | WarmExits
    | StartClose
    | CloseListener(k: nat)
    | WaitReturns(k: nat)

  const START := World(false, false, false, false, NotRun, false, false, 0, 0, [])

  predicate Enabled(w: World, a: Action) {
    match a
    case CheckOpen => w.bringUp.NotRun?
    case Listen(_) => w.bringUp.Cleared?
    case Publish => w.bringUp.Bound?
    case Discard => w.bringUp.Discarding?
    case SpawnAnswer => w.published
    case AnswerExits => w.answering > 0
    case Inbound => w.accepting       // the spawn, which may come after the listener was closed
    case ServeExits => w.serving > 0
    case AcceptExits => w.accepting && w.listenerClosed
    case WarmExits => w.warming
    case StartClose => true
    case CloseListener(k) => k < |w.closers| && w.closers[k].Latched?
    case WaitReturns(k) => k < |w.closers| && w.closers[k].Waiting? && w.Idle()
  }

  function Apply(w: World, a: Action): World {
    if !Enabled(w, a) then w
    else
      match a
      case CheckOpen => w.(bringUp := if w.closed then Finished else Cleared)
      case Listen(ok) => if ok then w.(bound := true, bringUp := Bound) else w.(bringUp := Finished)
      case Publish =>
        if w.closed then w.(bringUp := Discarding)
        else w.(published := true, accepting := true, warming := true, bringUp := Finished)
      case Discard => w.(listenerClosed := true, bringUp := Finished)
      case SpawnAnswer => w.(answering := w.answering + 1)
      case AnswerExits => w.(answering := w.answering - 1)
      case Inbound => w.(serving := w.serving + 1)
      case ServeExits => w.(serving := w.serving - 1)
      case AcceptExits => w.(accepting := false)
      case WarmExits => w.(warming := false)
      case StartClose => w.(closed := true, closers := w.closers + [Latched(w.published)])
      case CloseListener(k) =>
        w.(listenerClosed := w.listenerClosed || w.closers[k].sawListener, closers := w.closers[k := Waiting])
      case WaitReturns(k) => w.(closers := w.closers[k := Returned])
  }

  function Exec(acts: seq<Action>): World {
    if acts == [] then START else Apply(Exec(acts[..|acts| - 1]), acts[|acts| - 1])
  }

  ghost predicate Listening(w: World) {
    && (w.published ==> w.bound && w.bringUp.Finished?)
    && (w.bringUp.NotRun? || w.bringUp.Cleared? ==> !w.bound)
    && (w.accepting || w.warming || w.serving > 0 ==> w.published)
    && (w.bringUp.Bound? || w.bringUp.Discarding? ==> w.bound)
    && (w.bringUp.Discarding? ==> w.closed)
    && (w.bound && w.bringUp.Finished? ==> w.published || w.listenerClosed)
    && (w.published && !w.accepting ==> w.listenerClosed)
  }

  /** A close that has taken its look at the listener saw it, or there will be none. */
  ghost predicate CloserOk(w: World, closer: Closer) {
    && w.closed
    && (if closer.Latched? then closer.sawListener == w.published else w.published ==> w.listenerClosed)
    && (closer.Returned? ==> Quiet(w))
  }

  ghost predicate Inv(w: World) {
    Listening(w) && forall k :: 0 <= k < |w.closers| ==> CloserOk(w, w.closers[k])
  }

  /** The listener is down, and none of the goroutines it led to is running. */
  ghost predicate Quiet(w: World) {
    && !w.accepting && !w.warming && w.serving == 0
    && (w.bound && w.bringUp.Finished? ==> w.listenerClosed)
  }

  lemma StepKeepsCloser(w: World, a: Action, closer: Closer)
    requires Listening(w) && CloserOk(w, closer)
    ensures CloserOk(Apply(w, a), closer)
  {
  }

  lemma StepKeepsListening(w: World, a: Action)
    requires Inv(w)
    ensures Listening(Apply(w, a))
  {
    if a.CloseListener? && Enabled(w, a) {
      assert CloserOk(w, w.closers[a.k]);
    }
  }

  lemma StepKeeps(w: World, a: Action)
    requires Inv(w)
    ensures Inv(Apply(w, a))
  {
    StepKeepsListening(w, a);
    var v := Apply(w, a);
    forall k | 0 <= k < |v.closers|
      ensures CloserOk(v, v.closers[k])
    {
      if k < |w.closers| {
        assert CloserOk(w, w.closers[k]);
        StepKeepsCloser(w, a, w.closers[k]);
      }
    }
  }

  lemma ReturnedStays(w: World, a: Action, k: nat)
    requires k < |w.closers| && w.closers[k].Returned?
    ensures k < |Apply(w, a).closers| && Apply(w, a).closers[k].Returned?
  {
    if Enabled(w, a) {
      match a
      case CloseListener(j) => assert j != k;
      case WaitReturns(j) => assert j != k;
      case _ =>
    }
  }

  lemma {:induction false} RunKeeps(acts: seq<Action>)
    ensures Inv(Exec(acts))
  {
    if acts != [] {
      RunKeeps(acts[..|acts| - 1]);
      StepKeeps(Exec(acts[..|acts| - 1]), acts[|acts| - 1]);
    }
  }

  /** A listener bound around a close is closed, once the bring-up and the close have finished. */
  lemma ListenerNeverOutlivesClose(acts: seq<Action>, k: nat)
    requires var w := Exec(acts);
             k < |w.closers| && !w.closers[k].Latched? && w.bound && (w.bringUp.NotRun? || w.bringUp.Finished?)
    ensures Exec(acts).listenerClosed
  {
    RunKeeps(acts);
  }

  lemma {:induction false} ClosersOnlyAdvance(acts: seq<Action>, n: nat, k: nat)
    requires n <= |acts| && k < |Exec(acts[..n]).closers| && Exec(acts[..n]).closers[k].Returned?
    ensures k < |Exec(acts).closers| && Exec(acts).closers[k].Returned?
  {
    if n == |acts| {
      assert acts[..n] == acts;
    } else {
      var prior := acts[..|acts| - 1];
      assert prior[..n] == acts[..n];
      ClosersOnlyAdvance(prior, n, k);
      ReturnedStays(Exec(prior), acts[|acts| - 1], k);
    }
  }

  /** From the moment a close has returned, nothing of the listener's runs, then or ever after. */
  lemma CloseQuiesces(acts: seq<Action>, n: nat, k: nat)
    requires n <= |acts| && k < |Exec(acts[..n]).closers| && Exec(acts[..n]).closers[k].Returned?
    ensures Quiet(Exec(acts))
  {
    ClosersOnlyAdvance(acts, n, k);
    RunKeeps(acts);
  }

  lemma ExecLast(acts: seq<Action>, a: Action)
    ensures Exec(acts + [a]) == Apply(Exec(acts), a)
  {
    assert (acts + [a])[..|acts|] == acts;
  }

  // ---------- the bring-up comes to its end ----------

  ghost predicate OfBringUp(a: Action) {
    a.CheckOpen? || a.Listen? || a.Publish? || a.Discard?
  }

  /** How many steps the bring-up has before it, at most. */
  ghost function BringUpLeft(b: BringUp): nat {
    match b
    case NotRun => 4
    case Cleared => 3
    case Bound => 2
    case Discarding => 1
    case Finished => 0
  }

  /**
   What each step of the bring-up comes to, on every run: it listens only if it saw the transport open; what it
   bound on a transport open still is published, its accept loop and warm-up running, and on a closed one it is
   closed instead. Nothing else moves it.
   */
  lemma BringUpDecides(acts: seq<Action>, ok: bool)
    ensures var w, v := Exec(acts), Exec(acts + [CheckOpen]);
            w.bringUp == NotRun ==> v == w.(bringUp := if w.closed then Finished else Cleared)
    ensures var w, v := Exec(acts), Exec(acts + [Listen(ok)]);
            w.bringUp == Cleared ==> v == if ok then w.(bound := true, bringUp := Bound) else w.(bringUp := Finished)
    ensures var w, v := Exec(acts), Exec(acts + [Publish]);
            w.bringUp == Bound ==>
              && !w.published && !v.listenerClosed
              && if w.closed then v == w.(bringUp := Discarding)
                 else v.published && v.accepting && v.warming && v.bringUp == Finished && !v.closed
    ensures var w, v := Exec(acts), Exec(acts + [Discard]);
            w.bringUp == Discarding ==> v.listenerClosed && !v.published && v.bringUp == Finished
  {
    RunKeeps(acts);
    RunIsOpen(acts);
    ExecLast(acts, CheckOpen);
    ExecLast(acts, Listen(ok));
    ExecLast(acts, Publish);
    ExecLast(acts, Discard);
  }

  /** The listener is closed only by a close of the transport, or by a bring-up that found it closed. */
  ghost predicate OpenUntilClosed(w: World) {
    && (w.listenerClosed ==> w.closed && w.bound && w.bringUp.Finished?)
    && (forall k :: 0 <= k < |w.closers| && w.closers[k].Latched? && w.closers[k].sawListener ==> w.bringUp.Finished?)
    && (w.closed <==> w.closers != [])
  }

  lemma {:induction false} RunIsOpen(acts: seq<Action>)
    ensures OpenUntilClosed(Exec(acts))
  {
    if acts != [] {
      RunIsOpen(acts[..|acts| - 1]);
      RunKeeps(acts[..|acts| - 1]);
      StepIsOpen(Exec(acts[..|acts| - 1]), acts[|acts| - 1]);
    }
  }

  lemma StepIsOpen(w: World, a: Action)
    requires Inv(w) && OpenUntilClosed(w)
    ensures OpenUntilClosed(Apply(w, a))
  {
    if a.CloseListener? && Enabled(w, a) {
      assert CloserOk(w, w.closers[a.k]);
    }
  }

  /**
   The bring-up comes to its end: on every run each of its steps brings it nearer, no other step touches it, and
   until it has finished one of them can be taken.
   */
  lemma BringUpFinishes(acts: seq<Action>, a: Action)
    ensures var w, v := Exec(acts), Exec(acts + [a]);
            if OfBringUp(a) && Enabled(w, a) then BringUpLeft(v.bringUp) < BringUpLeft(w.bringUp)
            else v.bringUp == w.bringUp
    ensures !Exec(acts).bringUp.Finished? ==> exists b :: OfBringUp(b) && Enabled(Exec(acts), b)
  {
    ExecLast(acts, a);
    BringUpMoves(Exec(acts), a);
    BringUpCanMove(Exec(acts));
  }

  lemma BringUpMoves(w: World, a: Action)
    ensures var v := Apply(w, a);
            if OfBringUp(a) && Enabled(w, a) then BringUpLeft(v.bringUp) < BringUpLeft(w.bringUp)
            else v.bringUp == w.bringUp
  {
  }

  lemma BringUpCanMove(w: World)
    ensures !w.bringUp.Finished? ==> exists b :: OfBringUp(b) && Enabled(w, b)
  {
    match w.bringUp
    case NotRun => assert OfBringUp(CheckOpen) && Enabled(w, CheckOpen);
    case Cleared => assert OfBringUp(Listen(true)) && Enabled(w, Listen(true));
    case Bound => assert OfBringUp(Publish) && Enabled(w, Publish);
    case Discarding => assert OfBringUp(Discard) && Enabled(w, Discard);
    case Finished =>
  }

  // ---------- every close returns ----------

  /** The goroutines the wait group counts. */
  ghost function Running(w: World): nat {
    (if w.accepting then 1 else 0) + (if w.warming then 1 else 0) + w.serving + w.answering
  }

  /** What a step adds to them, if it can be taken. */
  ghost function Spawned(w: World, a: Action): nat {
    match a
    case Publish => if w.bringUp == Bound && !w.closed then 2 else 0
    case SpawnAnswer => if w.published then 1 else 0
    case Inbound => if w.accepting then 1 else 0
    case _ => 0
  }

  /** And what it takes away: one that has come to its end, the accept loop only once its listener is closed. */
  ghost function Ended(w: World, a: Action): nat {
    match a
    case AnswerExits => if w.answering > 0 then 1 else 0
    case ServeExits => if w.serving > 0 then 1 else 0
    case AcceptExits => if w.accepting && w.listenerClosed then 1 else 0
    case WarmExits => if w.warming then 1 else 0
    case _ => 0
  }

  /** On every run the wait group counts exactly the goroutines that were spawned and have not ended. */
  lemma WaitGroupIsExact(acts: seq<Action>, a: Action)
    ensures Running(Exec(acts + [a])) == Running(Exec(acts)) + Spawned(Exec(acts), a) - Ended(Exec(acts), a)
    ensures Running(Exec([])) == 0
  {
    RunKeeps(acts);
    ExecLast(acts, a);
  }

  /** A step a close waits for: one of its own, or the end of a goroutine that is still counted. */
  ghost predicate Helps(w: World, a: Action, k: nat) {
    a == CloseListener(k) || a == WaitReturns(k) || Ended(w, a) == 1
  }

  ghost function CloseLeft(c: Closer): nat {
    match c
    case Latched(_) => 2
    case Waiting => 1
    case Returned => 0
  }

  /**
   Every close returns: on every run one that has not can take its next step, or a goroutine it waits for can end;
   its own steps bring it nearer, no other step touches it; and it returns only when none is left running.
   */
  lemma ClosesReturn(acts: seq<Action>, k: nat, a: Action)
    requires k < |Exec(acts).closers|
    ensures Exec(acts).closers[k] != Returned ==>
              exists b :: Helps(Exec(acts), b, k) && Exec(acts + [b]) != Exec(acts)
    ensures k < |Exec(acts + [a]).closers|
    ensures Exec(acts + [a]).closers[k] != Exec(acts).closers[k] ==>
              && (a == CloseListener(k) || a == WaitReturns(k))
              && CloseLeft(Exec(acts + [a]).closers[k]) == CloseLeft(Exec(acts).closers[k]) - 1
    ensures Exec(acts).closers[k] == Waiting ==>
              (Exec(acts + [WaitReturns(k)]).closers[k] == Returned <==> Running(Exec(acts)) == 0)
  {
    RunKeeps(acts);
    ExecLast(acts, a);
    ExecLast(acts, WaitReturns(k));
    CloserMoves(Exec(acts), k, a);
    if Exec(acts).closers[k] == Waiting {
      ReturnsWhenIdle(Exec(acts), k);
    }
    if Exec(acts).closers[k] != Returned {
      SomethingHelps(Exec(acts), k);
      ExecLast(acts, NextForClose(Exec(acts), k));
    }
  }

  lemma CloserMoves(w: World, k: nat, a: Action)
    requires k < |w.closers|
    ensures k < |Apply(w, a).closers|
    ensures Apply(w, a).closers[k] != w.closers[k] ==>
              && (a == CloseListener(k) || a == WaitReturns(k))
              && CloseLeft(Apply(w, a).closers[k]) == CloseLeft(w.closers[k]) - 1
  {
    if !a.StartClose? && !a.CloseListener? && !a.WaitReturns? {
      OthersLeaveClosers(w, a);
    }
  }

  lemma OthersLeaveClosers(w: World, a: Action)
    requires !a.StartClose? && !a.CloseListener? && !a.WaitReturns?
    ensures Apply(w, a).closers == w.closers
  {
  }

  lemma ReturnsWhenIdle(w: World, k: nat)
    requires k < |w.closers| && w.closers[k] == Waiting
    ensures k < |Apply(w, WaitReturns(k)).closers|
    ensures Apply(w, WaitReturns(k)).closers[k] == Returned <==> Running(w) == 0
  {
  }

  lemma SomethingHelps(w: World, k: nat)
    requires Inv(w) && k < |w.closers| && w.closers[k] != Returned
    ensures Helps(w, NextForClose(w, k), k) && Apply(w, NextForClose(w, k)) != w
  {
    assert CloserOk(w, w.closers[k]);
    if w.closers[k] == Waiting {
      SomethingEnds(w, k);
    } else {
      assert Apply(w, CloseListener(k)).closers[k] == Waiting;
    }
  }

  lemma SomethingEnds(w: World, k: nat)
    requires k < |w.closers| && w.closers[k] == Waiting && (w.accepting ==> w.listenerClosed)
    ensures Helps(w, NextForClose(w, k), k) && Apply(w, NextForClose(w, k)) != w
  {
    if Running(w) == 0 {
      ReturnsWhenIdle(w, k);
    }
  }

  ghost function NextForClose(w: World, k: nat): Action
    requires k < |w.closers|
  {
    if w.closers[k].Latched? then CloseListener(k)
    else if w.accepting then AcceptExits
    else if w.warming then WarmExits
    else if w.serving > 0 then ServeExits
    else if w.answering > 0 then AnswerExits
    else WaitReturns(k)
  }

  /** A close latches the transport closed, for good, and a listener it finds published is closed by it. */
  lemma CloseLatches(acts: seq<Action>, k: nat)
    ensures var w, v := Exec(acts), Exec(acts + [StartClose]);
            v.closed && |v.closers| == |w.closers| + 1 && v.closers[|w.closers|] == Latched(w.published)
    ensures var w, v := Exec(acts), Exec(acts + [CloseListener(k)]);
            k < |w.closers| && w.closers[k].Latched? ==>
              v.closers[k] == Waiting && (w.published ==> v.listenerClosed) && (v.listenerClosed ==> v.closed)
  {
    RunKeeps(acts);
    RunIsOpen(acts);
    ExecLast(acts, StartClose);
    ExecLast(acts, CloseListener(k));
    RunIsOpen(acts + [CloseListener(k)]);
    var w := Exec(acts);
    if k < |w.closers| {
      assert CloserOk(w, w.closers[k]);
    }
  }
}
