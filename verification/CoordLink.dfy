/**
 One coordinator link under every interleaving of its reader, any number of rebuilds and any number of
 closes (core/coordpool.go, coordLink.read, relink, close and transport).

 A step is one critical section or one blocking call; a step that is not enabled leaves the state alone. A read
 that drew a message is the step that drew it, so none is drawn from what is already closed.
 Sockets are numbered in the order they were dialed, and a shaped transport is known by the socket it runs on.
 */
module CoordLink {
  import opened Wrappers

  /** A rebuild or a close, and what it still has to do. */
  datatype Task =
    | Dialed(socket: nat)                                 // dialed, waiting for the lock
    | Closing(shaped: Option<nat>, socket: nat)           // swapped out or latched; transport first
    | ClosingSocket(socket: nat)
    | Finished
  {
    predicate Owes(s: nat) {
      !Finished? && socket == s
    }

    predicate OwesShaped(s: nat) {
      Closing? && shaped == Some(s)
    }
  }

  /** A read fails because the network says so, or because what it reads from was closed. */
  datatype Cause = Fault | Closed

  datatype Reader =
    | Entering
    | Reading(socket: nat, shaped: Option<nat>, gen: nat)
    | Failing(socket: nat, shaped: Option<nat>, gen: nat, cause: Cause)
    | Ended(cause: Cause)

  /** wrapped are the sockets a shaped transport was ever built on. */
  datatype Link = Link(
    conn: nat, shaped: Option<nat>, gen: nat, linkClosed: bool,
    next: nat, wrapped: set<nat>, closedSockets: set<nat>, closedShaped: set<nat>,
    tasks: seq<Task>, reader: Reader)

  datatype Action =
    | StartRelink                 // resolve and dial
    | Swap(k: nat)                // the rebuild's critical section
    | StartClose                  // the close's critical section
    | CloseShaped(k: nat)
    | CloseSocket(k: nat)
    | TakeTransport
    | ReadMessage
    | FailRead(cause: Cause)
    | Recheck

  function Start(isShaped: bool): Link {
    Link(0, if isShaped then Some(0) else None, 0, false, 1, if isShaped then {0} else {}, {}, {}, [], Entering)
  }

  predicate IsClosed(l: Link, socket: nat, shaped: Option<nat>) {
    socket in l.closedSockets || (shaped.Some? && shaped.value in l.closedShaped)
  }

  predicate Enabled(l: Link, a: Action) {
    match a
    case StartRelink => true
    case Swap(k) => k < |l.tasks| && l.tasks[k].Dialed?
    case StartClose => true
    case CloseShaped(k) => k < |l.tasks| && l.tasks[k].Closing?
    case CloseSocket(k) => k < |l.tasks| && l.tasks[k].ClosingSocket?
    case TakeTransport => l.reader.Entering?
    case ReadMessage => l.reader.Reading? && !IsClosed(l, l.reader.socket, l.reader.shaped)
    case FailRead(cause) => l.reader.Reading? && (cause.Closed? ==> IsClosed(l, l.reader.socket, l.reader.shaped))
    case Recheck => l.reader.Failing?
  }

  function Swapped(l: Link, k: nat): Link
    requires k < |l.tasks| && l.tasks[k].Dialed?
  {
    var socket := l.tasks[k].socket;
    if l.linkClosed then l.(tasks := l.tasks[k := ClosingSocket(socket)])
    else l.(conn := socket,
            shaped := if l.shaped.Some? then Some(socket) else None,
            wrapped := if l.shaped.Some? then l.wrapped + {socket} else l.wrapped,
            gen := l.gen + 1,
            tasks := l.tasks[k := Closing(l.shaped, l.conn)])
  }

  function Apply(l: Link, a: Action): Link {
    if !Enabled(l, a) then l
    else
      match a
      case StartRelink => l.(next := l.next + 1, tasks := l.tasks + [Dialed(l.next)])
      case Swap(k) => Swapped(l, k)
      case StartClose => l.(linkClosed := true, tasks := l.tasks + [Closing(l.shaped, l.conn)])
      case CloseShaped(k) =>
        var t := l.tasks[k];
        l.(closedShaped := if t.shaped.Some? then l.closedShaped + {t.shaped.value} else l.closedShaped,
           tasks := l.tasks[k := ClosingSocket(t.socket)])
      case CloseSocket(k) =>
        l.(closedSockets := l.closedSockets + {l.tasks[k].socket}, tasks := l.tasks[k := Finished])
      case TakeTransport => l.(reader := Reading(l.conn, l.shaped, l.gen))
      case ReadMessage => l.(reader := Entering)
      case FailRead(cause) => l.(reader := Failing(l.reader.socket, l.reader.shaped, l.reader.gen, cause))
      case Recheck => l.(reader := if l.reader.gen != l.gen then Entering else Ended(l.reader.cause))
  }

  function Exec(isShaped: bool, acts: seq<Action>): Link {
    if acts == [] then Start(isShaped) else Apply(Exec(isShaped, acts[..|acts| - 1]), acts[|acts| - 1])
  }

  // ---------- the invariant ----------

  ghost predicate Owed(l: Link, s: nat) {
    exists k :: 0 <= k < |l.tasks| && l.tasks[k].Owes(s)
  }

  ghost predicate OwedShaped(l: Link, s: nat) {
    exists k :: 0 <= k < |l.tasks| && l.tasks[k].OwesShaped(s)
  }

  /** Every socket ever dialed is closed, in use on an open link, or about to be closed. */
  ghost predicate Accounted(l: Link) {
    forall s: nat :: s < l.next ==> s in l.closedSockets || (s == l.conn && !l.linkClosed) || Owed(l, s)
  }

  /** So is every shaped transport. */
  ghost predicate ShapedAccounted(l: Link) {
    forall s :: s in l.wrapped ==> s in l.closedShaped || (s == l.conn && !l.linkClosed) || OwedShaped(l, s)
  }

  /** What waits to be installed is whole, and no other task's. */
  ghost predicate Waiting(l: Link) {
    && (forall k :: 0 <= k < |l.tasks| && !l.tasks[k].Finished? ==> l.tasks[k].socket < l.next)
    && (forall k :: 0 <= k < |l.tasks| && l.tasks[k].Dialed? ==>
                      && l.tasks[k].socket != l.conn
                      && l.tasks[k].socket !in l.closedSockets && l.tasks[k].socket !in l.closedShaped)
    && (forall j, k :: 0 <= j < |l.tasks| && 0 <= k < |l.tasks| && j != k && l.tasks[j].Dialed? && !l.tasks[k].Finished?
                       ==> l.tasks[j].socket != l.tasks[k].socket)
  }

  /** What a task closes is not what an open link uses. */
  ghost predicate Apart(l: Link) {
    forall k :: 0 <= k < |l.tasks| && (l.tasks[k].Closing? || l.tasks[k].ClosingSocket?) ==>
                  && (l.tasks[k].socket != l.conn || l.linkClosed)
                  && (l.tasks[k].Closing? && l.tasks[k].shaped.Some? ==> l.tasks[k].shaped.value == l.tasks[k].socket)
  }

  /** An open link's own socket and transport are whole. */
  ghost predicate Usable(l: Link) {
    && l.conn < l.next
    && (l.shaped.Some? ==> l.shaped == Some(l.conn) && l.conn in l.wrapped)
    && (!l.linkClosed ==> l.conn !in l.closedSockets && l.conn !in l.closedShaped)
    && (forall s :: s in l.closedSockets || s in l.closedShaped || s in l.wrapped ==> s < l.next)
    && (l.shaped.None? ==> l.wrapped == {})
  }

  /** A reader of the current generation holds the current socket. */
  ghost predicate ReaderTrue(l: Link) {
    match l.reader
    case Entering => true
    case Reading(socket, shaped, gen) =>
      socket < l.next && gen <= l.gen && (gen == l.gen ==> socket == l.conn && shaped == l.shaped)
    case Failing(socket, shaped, gen, cause) =>
      && socket < l.next && gen <= l.gen && (gen == l.gen ==> socket == l.conn && shaped == l.shaped)
      && (cause.Closed? ==> IsClosed(l, socket, shaped))
    case Ended(cause) => cause.Closed? ==> l.linkClosed
  }

  ghost predicate Inv(l: Link) {
    Accounted(l) && ShapedAccounted(l) && Waiting(l) && Apart(l) && Usable(l) && ReaderTrue(l)
  }

  // ---------- every step keeps it ----------

  /** A task that changes leaves what the others owe. */
  lemma StillOwed(l: Link, m: Link, k: nat, s: nat)
    requires k < |l.tasks| == |m.tasks| && m.tasks == l.tasks[k := m.tasks[k]] && Owed(l, s) && !l.tasks[k].Owes(s)
    ensures Owed(m, s)
  {
    var j :| 0 <= j < |l.tasks| && l.tasks[j].Owes(s);
    assert m.tasks[j].Owes(s);
  }

  lemma StillOwedShaped(l: Link, m: Link, k: nat, s: nat)
    requires k < |l.tasks| == |m.tasks| && m.tasks == l.tasks[k := m.tasks[k]]
    requires OwedShaped(l, s) && !l.tasks[k].OwesShaped(s)
    ensures OwedShaped(m, s)
  {
    var j :| 0 <= j < |l.tasks| && l.tasks[j].OwesShaped(s);
    assert m.tasks[j].OwesShaped(s);
  }

  lemma OwedLonger(l: Link, m: Link, s: nat)
    requires l.tasks <= m.tasks
    ensures Owed(l, s) ==> Owed(m, s)
    ensures OwedShaped(l, s) ==> OwedShaped(m, s)
  {
    if Owed(l, s) {
      var j :| 0 <= j < |l.tasks| && l.tasks[j].Owes(s);
      assert m.tasks[j].Owes(s);
    }
    if OwedShaped(l, s) {
      var j :| 0 <= j < |l.tasks| && l.tasks[j].OwesShaped(s);
      assert m.tasks[j].OwesShaped(s);
    }
  }

  lemma StartRelinkKeeps(l: Link)
    requires Inv(l)
    ensures Inv(Apply(l, StartRelink))
  {
    var m := Apply(l, StartRelink);
    forall s: nat
      ensures Owed(l, s) ==> Owed(m, s)
      ensures OwedShaped(l, s) ==> OwedShaped(m, s)
    {
      OwedLonger(l, m, s);
    }
    assert m.tasks[|l.tasks|].Owes(l.next);
  }

  lemma StartCloseKeeps(l: Link)
    requires Inv(l)
    ensures Inv(Apply(l, StartClose))
  {
    var m := Apply(l, StartClose);
    forall s: nat
      ensures Owed(l, s) ==> Owed(m, s)
      ensures OwedShaped(l, s) ==> OwedShaped(m, s)
    {
      OwedLonger(l, m, s);
    }
    assert m.tasks[|l.tasks|].Owes(l.conn);
    assert l.shaped.Some? ==> m.tasks[|l.tasks|].OwesShaped(l.conn);
  }

  lemma SwapAccounts(l: Link, k: nat)
    requires Inv(l) && k < |l.tasks| && l.tasks[k].Dialed?
    ensures Accounted(Swapped(l, k)) && ShapedAccounted(Swapped(l, k))
  {
    var m := Swapped(l, k);
    forall s: nat | s < m.next
      ensures s in m.closedSockets || (s == m.conn && !m.linkClosed) || Owed(m, s)
    {
      assert m.tasks[k].Owes(if l.linkClosed then l.tasks[k].socket else l.conn);
      if Owed(l, s) && !l.tasks[k].Owes(s) {
        StillOwed(l, m, k, s);
      }
    }
    forall s | s in m.wrapped
      ensures s in m.closedShaped || (s == m.conn && !m.linkClosed) || OwedShaped(m, s)
    {
      if !l.linkClosed && s == l.conn {
        assert m.tasks[k].OwesShaped(s);
      } else if OwedShaped(l, s) {
        StillOwedShaped(l, m, k, s);
      }
    }
  }

  lemma SwapKeeps(l: Link, k: nat)
    requires Inv(l) && k < |l.tasks| && l.tasks[k].Dialed?
    ensures Inv(Swapped(l, k))
  {
    SwapAccounts(l, k);
    var m := Swapped(l, k);
    assert Waiting(m);
    assert Apart(m);
    assert Usable(m);
  }

  lemma CloseShapedKeeps(l: Link, k: nat)
    requires Inv(l) && k < |l.tasks| && l.tasks[k].Closing?
    ensures Inv(Apply(l, CloseShaped(k)))
  {
    var m := Apply(l, CloseShaped(k));
    forall s: nat | s < m.next
      ensures s in m.closedSockets || (s == m.conn && !m.linkClosed) || Owed(m, s)
    {
      assert l.tasks[k].Owes(s) ==> m.tasks[k].Owes(s);
      if Owed(l, s) && !l.tasks[k].Owes(s) {
        StillOwed(l, m, k, s);
      }
    }
    forall s | s in m.wrapped
      ensures s in m.closedShaped || (s == m.conn && !m.linkClosed) || OwedShaped(m, s)
    {
      if OwedShaped(l, s) && !l.tasks[k].OwesShaped(s) {
        StillOwedShaped(l, m, k, s);
      }
    }
  }

  lemma CloseSocketKeeps(l: Link, k: nat)
    requires Inv(l) && k < |l.tasks| && l.tasks[k].ClosingSocket?
    ensures Inv(Apply(l, CloseSocket(k)))
  {
    var m := Apply(l, CloseSocket(k));
    forall s: nat | s < m.next
      ensures s in m.closedSockets || (s == m.conn && !m.linkClosed) || Owed(m, s)
    {
      if Owed(l, s) && !l.tasks[k].Owes(s) {
        StillOwed(l, m, k, s);
      }
    }
    forall s | s in m.wrapped
      ensures s in m.closedShaped || (s == m.conn && !m.linkClosed) || OwedShaped(m, s)
    {
      if OwedShaped(l, s) {
        StillOwedShaped(l, m, k, s);
      }
    }
  }

  lemma ReaderKeeps(l: Link, a: Action)
    requires Inv(l) && Enabled(l, a) && (a.TakeTransport? || a.ReadMessage? || a.FailRead? || a.Recheck?)
    ensures Inv(Apply(l, a))
  {
    var m := Apply(l, a);
    forall s: nat
      ensures Owed(l, s) ==> Owed(m, s)
      ensures OwedShaped(l, s) ==> OwedShaped(m, s)
    {
      OwedLonger(l, m, s);
    }
  }

  lemma StepKeeps(l: Link, a: Action)
    requires Inv(l)
    ensures Inv(Apply(l, a))
  {
    if Enabled(l, a) {
      match a
      case StartRelink => StartRelinkKeeps(l);
      case Swap(k) => SwapKeeps(l, k);
      case StartClose => StartCloseKeeps(l);
      case CloseShaped(k) => CloseShapedKeeps(l, k);
      case CloseSocket(k) => CloseSocketKeeps(l, k);
      case _ => ReaderKeeps(l, a);
    }
  }

  lemma {:induction false} RunKeeps(isShaped: bool, acts: seq<Action>)
    ensures Inv(Exec(isShaped, acts))
  {
    if acts != [] {
      RunKeeps(isShaped, acts[..|acts| - 1]);
      StepKeeps(Exec(isShaped, acts[..|acts| - 1]), acts[|acts| - 1]);
    }
  }

  // ---------- what the link promises ----------

  /** The read loop never ends because of a rebuild: only on a fault of the network, or a close. */
  lemma RebuildNeverEndsTheReader(isShaped: bool, acts: seq<Action>)
    requires Exec(isShaped, acts).reader == Ended(Closed)
    ensures Exec(isShaped, acts).linkClosed
  {
    RunKeeps(isShaped, acts);
  }

  /** A reader whose socket was closed under it while the link is open goes round again, on a socket that works. */
  lemma ReaderMovesOn(isShaped: bool, acts: seq<Action>)
    requires var l := Exec(isShaped, acts); !l.linkClosed && l.reader.Failing? && l.reader.cause.Closed?
    ensures var l := Exec(isShaped, acts);
            var m := Apply(Apply(l, Recheck), TakeTransport);
            m.reader == Reading(l.conn, l.shaped, l.gen) && !IsClosed(m, l.conn, l.shaped) && l.gen > l.reader.gen
  {
    RunKeeps(isShaped, acts);
  }

  lemma ExecLast(isShaped: bool, acts: seq<Action>, a: Action)
    ensures Exec(isShaped, acts + [a]) == Apply(Exec(isShaped, acts), a)
  {
    assert (acts + [a])[..|acts|] == acts;
  }

  /** After a message the reader goes back to the link, and reads on from what it has by then. */
  lemma ReaderReadsOn(isShaped: bool, acts: seq<Action>)
    requires var l := Exec(isShaped, acts); l.reader.Reading? && !IsClosed(l, l.reader.socket, l.reader.shaped)
    ensures var l, m := Exec(isShaped, acts), Exec(isShaped, acts + [ReadMessage] + [TakeTransport]);
            m == l.(reader := Reading(l.conn, l.shaped, l.gen))
  {
    ExecLast(isShaped, acts, ReadMessage);
    ExecLast(isShaped, acts + [ReadMessage], TakeTransport);
  }

  /** A failed read ends the loop, with its own error, exactly when no rebuild came since it began. */
  lemma ReaderEndsExactly(isShaped: bool, acts: seq<Action>)
    requires Exec(isShaped, acts).reader.Failing?
    ensures var l, m := Exec(isShaped, acts), Exec(isShaped, acts + [Recheck]);
            && (m.reader == Ended(l.reader.cause) <==> l.reader.gen == l.gen)
            && (m.reader == Entering <==> l.reader.gen < l.gen)
            && m == l.(reader := m.reader)
  {
    RunKeeps(isShaped, acts);
    ExecLast(isShaped, acts, Recheck);
  }

  /**
   What a rebuild comes to when it gets the lock: on an open link its socket is the link's, whole and under the next
   generation, and the old one is owed a close; on a closed one the link stays as it was and its socket is.
   */
  lemma RebuildInstalls(isShaped: bool, acts: seq<Action>, k: nat)
    requires var l := Exec(isShaped, acts); k < |l.tasks| && l.tasks[k].Dialed?
    ensures var l, m := Exec(isShaped, acts), Exec(isShaped, acts + [Swap(k)]);
            var dialed := l.tasks[k].socket;
            && m.linkClosed == l.linkClosed && m.reader == l.reader
            && (!l.linkClosed ==> m.conn == dialed != l.conn && m.gen == l.gen + 1 && !IsClosed(m, m.conn, m.shaped)
                                  && m.tasks[k] == Closing(l.shaped, l.conn))
            && (l.linkClosed ==> m.conn == l.conn && m.gen == l.gen && m.tasks[k] == ClosingSocket(dialed))
  {
    RunKeeps(isShaped, acts);
    ExecLast(isShaped, acts, Swap(k));
  }

  predicate OfReader(a: Action) {
    a.TakeTransport? || a.ReadMessage? || a.FailRead? || a.Recheck?
  }

  /** How many of its steps a reader of a closed link has before it, at most. */
  function StepsLeft(l: Link): nat {
    match l.reader
    case Ended(_) => 0
    case Failing(_, _, gen, _) => if gen == l.gen then 1 else 4
    case Reading(_, _, gen) => if gen == l.gen then 2 else 5
    case Entering => 3
  }

  /** The link was closed, and so is what it used last and what its reader is at. */
  ghost predicate Dead(l: Link) {
    && l.linkClosed && l.conn in l.closedSockets
    && (l.reader.Reading? ==> l.reader.socket in l.closedSockets)
  }

  lemma ClosedIsDead(l: Link)
    requires Inv(l) && l.linkClosed && AllDone(l)
    ensures Dead(l)
  {
  }

  lemma DeadStays(l: Link, a: Action)
    requires Dead(l)
    ensures Dead(Apply(l, a))
    ensures StepsLeft(Apply(l, a)) + (if OfReader(a) && Enabled(l, a) then 1 else 0) <= StepsLeft(l)
  {
  }

  /** These are steps the reader took in a run, from its n-th step on. */
  ghost predicate ReaderTook(isShaped: bool, acts: seq<Action>, n: nat, at: seq<nat>) {
    && (forall i :: 0 <= i < |at| ==> n <= at[i] < |acts| && OfReader(acts[at[i]])
                                      && Enabled(Exec(isShaped, acts[..at[i]]), acts[at[i]]))
    && (forall i, j :: 0 <= i < j < |at| ==> at[i] < at[j])
  }

  lemma ExecNext(isShaped: bool, acts: seq<Action>, n: nat)
    requires n < |acts|
    ensures Exec(isShaped, acts[..n + 1]) == Apply(Exec(isShaped, acts[..n]), acts[n])
  {
    assert acts[..n + 1][..n] == acts[..n];
  }

  /** Between two points of a run a dead link stays dead, and its reader gets no steps back. */
  lemma {:induction false} DeadRun(isShaped: bool, acts: seq<Action>, i: nat, j: nat)
    requires i <= j <= |acts| && Dead(Exec(isShaped, acts[..i]))
    ensures Dead(Exec(isShaped, acts[..j]))
    ensures StepsLeft(Exec(isShaped, acts[..j])) <= StepsLeft(Exec(isShaped, acts[..i]))
    decreases j
  {
    if i < j {
      DeadRun(isShaped, acts, i, j - 1);
      ExecNext(isShaped, acts, j - 1);
      DeadStays(Exec(isShaped, acts[..j - 1]), acts[j - 1]);
    }
  }

  lemma {:induction false} StepsRunOut(isShaped: bool, acts: seq<Action>, n: nat, at: seq<nat>, m: nat)
    requires n <= m <= |acts| && Dead(Exec(isShaped, acts[..n])) && ReaderTook(isShaped, acts, n, at)
    requires forall i :: 0 <= i < |at| ==> at[i] < m
    ensures Dead(Exec(isShaped, acts[..m]))
    ensures StepsLeft(Exec(isShaped, acts[..m])) + |at| <= StepsLeft(Exec(isShaped, acts[..n]))
    decreases |at|
  {
    if at == [] {
      DeadRun(isShaped, acts, n, m);
    } else {
      var last := at[|at| - 1];
      StepsRunOut(isShaped, acts, n, at[..|at| - 1], last);
      ExecNext(isShaped, acts, last);
      DeadStays(Exec(isShaped, acts[..last]), acts[last]);
      DeadRun(isShaped, acts, last + 1, m);
    }
  }

  /** Some step of the reader's is enabled. */
  ghost predicate CanStep(l: Link) {
    exists a :: OfReader(a) && Enabled(l, a)
  }

  /**
   The read loop outlives its link by at most five steps: from any point of any run at which the link is closed
   and its sockets with it, whatever rebuilds are still asked for, the reader can always go on until it has
   ended, and has ended once it took five.
   */
  lemma ClosedReaderEnds(isShaped: bool, acts: seq<Action>, n: nat, at: seq<nat>)
    requires n <= |acts| && Exec(isShaped, acts[..n]).linkClosed && AllDone(Exec(isShaped, acts[..n]))
    requires ReaderTook(isShaped, acts, n, at)
    ensures Exec(isShaped, acts).reader.Ended? || CanStep(Exec(isShaped, acts))
    ensures |at| <= 5 && (|at| == 5 ==> Exec(isShaped, acts).reader.Ended?)
  {
    RunKeeps(isShaped, acts[..n]);
    ClosedIsDead(Exec(isShaped, acts[..n]));
    StepsRunOut(isShaped, acts, n, at, |acts|);
    assert acts[..|acts|] == acts;
    DeadReaderGoesOn(Exec(isShaped, acts));
  }

  lemma DeadReaderGoesOn(l: Link)
    requires Dead(l)
    ensures l.reader.Ended? || CanStep(l)
  {
    match l.reader
    case Entering => assert OfReader(TakeTransport) && Enabled(l, TakeTransport);
    case Reading(_, _, _) => assert OfReader(FailRead(Closed)) && Enabled(l, FailRead(Closed));
    case Failing(_, _, _, _) => assert OfReader(Recheck) && Enabled(l, Recheck);
    case Ended(_) =>
  }

  // ---------- rebuilds and closes come to an end ----------

  /** The step is the k-th task's own. */
  predicate OfTask(a: Action, k: nat) {
    (a.Swap? || a.CloseShaped? || a.CloseSocket?) && a.k == k
  }

  /** How many steps a task has before it, at most. */
  function TaskLeft(t: Task): nat {
    match t
    case Dialed(_) => 3
    case Closing(_, _) => 2
    case ClosingSocket(_) => 1
    case Finished => 0
  }

  /** A step of a task's own brings it nearer its end, and no other step touches it. */
  lemma TaskMovesOn(l: Link, a: Action, k: nat)
    requires k < |l.tasks|
    ensures k < |Apply(l, a).tasks|
    ensures OfTask(a, k) && Enabled(l, a) ==> TaskLeft(Apply(l, a).tasks[k]) < TaskLeft(l.tasks[k])
    ensures !(OfTask(a, k) && Enabled(l, a)) ==> Apply(l, a).tasks[k] == l.tasks[k]
  {
  }

  /** These are steps a task took in a run. */
  ghost predicate TaskTook(isShaped: bool, acts: seq<Action>, k: nat, at: seq<nat>) {
    && (forall i :: 0 <= i < |at| ==> at[i] < |acts| && OfTask(acts[at[i]], k)
                                      && Enabled(Exec(isShaped, acts[..at[i]]), acts[at[i]]))
    && (forall i, j :: 0 <= i < j < |at| ==> at[i] < at[j])
  }

  lemma {:induction false} TaskRun(isShaped: bool, acts: seq<Action>, k: nat, i: nat, j: nat)
    requires i <= j <= |acts| && k < |Exec(isShaped, acts[..i]).tasks|
    ensures k < |Exec(isShaped, acts[..j]).tasks|
    ensures TaskLeft(Exec(isShaped, acts[..j]).tasks[k]) <= TaskLeft(Exec(isShaped, acts[..i]).tasks[k])
    decreases j
  {
    if i < j {
      TaskRun(isShaped, acts, k, i, j - 1);
      ExecNext(isShaped, acts, j - 1);
      TaskMovesOn(Exec(isShaped, acts[..j - 1]), acts[j - 1], k);
    }
  }

  lemma {:induction false} TaskRunsOut(isShaped: bool, acts: seq<Action>, k: nat, at: seq<nat>, m: nat)
    requires m <= |acts| && TaskTook(isShaped, acts, k, at) && k < |Exec(isShaped, acts[..m]).tasks|
    requires forall i :: 0 <= i < |at| ==> at[i] < m
    ensures TaskLeft(Exec(isShaped, acts[..m]).tasks[k]) + |at| <= 3
    decreases |at|
  {
    if at != [] {
      var last := at[|at| - 1];
      TaskRunsOut(isShaped, acts, k, at[..|at| - 1], last);
      ExecNext(isShaped, acts, last);
      TaskMovesOn(Exec(isShaped, acts[..last]), acts[last], k);
      TaskRun(isShaped, acts, k, last + 1, m);
    }
  }

  /**
   Every rebuild and close comes to its end: on every run it can always take its next step until it has finished,
   and has finished once it took three.
   */
  lemma TasksFinish(isShaped: bool, acts: seq<Action>, k: nat, at: seq<nat>)
    requires k < |Exec(isShaped, acts).tasks| && TaskTook(isShaped, acts, k, at)
    ensures |at| <= 3 && (|at| == 3 ==> Exec(isShaped, acts).tasks[k].Finished?)
    ensures !Exec(isShaped, acts).tasks[k].Finished? ==>
              Enabled(Exec(isShaped, acts), Swap(k)) || Enabled(Exec(isShaped, acts), CloseShaped(k))
              || Enabled(Exec(isShaped, acts), CloseSocket(k))
  {
    assert acts[..|acts|] == acts;
    TaskRunsOut(isShaped, acts, k, at, |acts|);
  }

  /** What one step, and so any number of them, may do to the link's own fields. */
  ghost predicate Grows(l: Link, m: Link) {
    && l.gen <= m.gen
    && (l.linkClosed ==> m.linkClosed && m.conn == l.conn && m.gen == l.gen)
    && (m.gen == l.gen ==> m.conn == l.conn && m.shaped == l.shaped)
    && l.closedSockets <= m.closedSockets && l.closedShaped <= m.closedShaped
    && (l.shaped.Some? <==> m.shaped.Some?)
  }

  /** Over every run: the generation only increases, a generation is one socket, and none is installed after close. */
  lemma {:induction false} LinkOnlyMovesForward(isShaped: bool, acts: seq<Action>, n: nat)
    requires n <= |acts|
    ensures Grows(Exec(isShaped, acts[..n]), Exec(isShaped, acts))
  {
    if n == |acts| {
      assert acts[..n] == acts;
    } else {
      var prior := acts[..|acts| - 1];
      LinkOnlyMovesForward(isShaped, prior, n);
      assert prior[..n] == acts[..n];
    }
  }

  /** A rebuild carries the shape across: the link is shaped exactly as it began, and on its own socket. */
  lemma ShapeIsKept(isShaped: bool, acts: seq<Action>)
    ensures var l := Exec(isShaped, acts); l.shaped == if isShaped then Some(l.conn) else None
  {
    RunKeeps(isShaped, acts);
    LinkOnlyMovesForward(isShaped, acts, 0);
  }

  ghost predicate AllDone(l: Link) {
    forall k :: 0 <= k < |l.tasks| ==> l.tasks[k].Finished?
  }

  /**
   Once all rebuilds and closes are done, every socket ever dialed and every transport ever built is
   closed, save those of an open link.
   */
  lemma NothingIsLeftOpen(isShaped: bool, acts: seq<Action>)
    requires AllDone(Exec(isShaped, acts))
    ensures var l := Exec(isShaped, acts);
            && (forall s: nat :: s < l.next ==> (s !in l.closedSockets <==> s == l.conn && !l.linkClosed))
            && (forall s :: s in l.wrapped ==> (s !in l.closedShaped <==> s == l.conn && !l.linkClosed))
  {
    RunKeeps(isShaped, acts);
  }
}
