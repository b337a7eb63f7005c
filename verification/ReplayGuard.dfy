/**
 The exit's replay guard over authenticated session ids (core/reality_auth.go, realityReplayGuard.admit).
 Times are in nanoseconds.
 */
module ReplayGuard {
  const WINDOW: int := 90_000_000_000

  type SessionId = string

  /** One sealed session id, the timestamp sealed in it, and the exit's clock when it arrived. */
  datatype Hello = Hello(sid: SessionId, ts: int, now: int)

  type Seen = map<SessionId, int>

  predicate Fresh(h: Hello) {
    -WINDOW <= h.now - h.ts <= WINDOW
  }

  function Evicted(seen: Seen, now: int): Seen {
    map k | k in seen && now - seen[k] <= WINDOW :: seen[k]
  }

  function Admits(seen: Seen, h: Hello): bool {
    Fresh(h) && h.sid !in Evicted(seen, h.now)
  }

  function After(seen: Seen, h: Hello): Seen {
    if !Fresh(h) then seen
    else if h.sid in Evicted(seen, h.now) then Evicted(seen, h.now)
    else Evicted(seen, h.now)[h.sid := h.now]
  }

  /** The guard itself, as the source updates it. */
  class Guard {
    var seen: Seen

    constructor ()
      ensures seen == map[]
    {
      seen := map[];
    }

    method Admit(sid: SessionId, ts: int, now: int) returns (ok: bool)
      modifies this
      ensures ok == Admits(old(seen), Hello(sid, ts, now))
      ensures seen == After(old(seen), Hello(sid, ts, now))
    {
      var d := now - ts;
      if d > WINDOW || d < -WINDOW {
        return false;
      }
      var keys := seen.Keys;
      while keys != {}
        invariant keys <= old(seen).Keys
        invariant forall k :: k in seen <==> k in old(seen) && (k in keys || now - old(seen)[k] <= WINDOW)
        invariant forall k :: k in seen ==> seen[k] == old(seen)[k]
        decreases keys
      {
        var k :| k in keys;
        if now - seen[k] > WINDOW {
          seen := seen - {k};
        }
        keys := keys - {k};
      }
      assert seen == Evicted(old(seen), now);
      if sid in seen {
        return false;
      }
      seen := seen[sid := now];
      return true;
    }
  }

  // ---------- runs ----------

  function Exec(run: seq<Hello>): Seen {
    if run == [] then map[] else After(Exec(run[..|run| - 1]), run[|run| - 1])
  }

  predicate Admitted(run: seq<Hello>, i: int) {
    0 <= i < |run| && Admits(Exec(run[..i]), run[i])
  }

  /** The clock does not run backwards. */
  ghost predicate InOrder(run: seq<Hello>) {
    forall i, j :: 0 <= i < j < |run| ==> run[i].now <= run[j].now
  }

  /** What was admitted within the window of the last arrival is remembered, at its latest admission. */
  ghost predicate Remembers(run: seq<Hello>, seen: Seen) {
    forall i :: Admitted(run, i) && run[|run| - 1].now - run[i].now <= WINDOW ==>
                  run[i].sid in seen && seen[run[i].sid] >= run[i].now
  }

  /** What is remembered was admitted, when it says. */
  ghost predicate Truthful(run: seq<Hello>, seen: Seen) {
    forall k :: k in seen ==> exists i :: Admitted(run, i) && run[i].sid == k && run[i].now == seen[k]
  }

  lemma SameAdmissions(run: seq<Hello>, n: nat, i: int)
    requires n <= |run|
    ensures Admitted(run[..n], i) <==> Admitted(run, i) && i < n
  {
    if 0 <= i < n {
      assert run[..n][..i] == run[..i];
    }
  }

  lemma LastStepIs(run: seq<Hello>)
    requires run != []
    ensures run[..|run| - 1][..|run| - 1] == run[..|run| - 1]
    ensures Exec(run) == After(Exec(run[..|run| - 1]), run[|run| - 1])
    ensures Admitted(run, |run| - 1) <==> Admits(Exec(run[..|run| - 1]), run[|run| - 1])
  {
  }

  lemma StepRemembers(seen: Seen, h: Hello, sid: SessionId, t: int)
    requires sid in seen && seen[sid] >= t && h.now - t <= WINDOW
    ensures sid in After(seen, h) && After(seen, h)[sid] >= t
  {
  }

  lemma {:induction false} RunRemembers(run: seq<Hello>)
    requires InOrder(run)
    ensures Remembers(run, Exec(run))
  {
    if run != [] {
      var n := |run| - 1;
      var prior := run[..n];
      RunRemembers(prior);
      LastStepIs(run);
      forall i | Admitted(run, i) && run[n].now - run[i].now <= WINDOW
        ensures run[i].sid in Exec(run) && Exec(run)[run[i].sid] >= run[i].now
      {
        if i < n {
          SameAdmissions(run, n, i);
          assert Admitted(prior, i) && prior[|prior| - 1].now <= run[n].now;
          StepRemembers(Exec(prior), run[n], run[i].sid, run[i].now);
        }
      }
    }
  }

  lemma {:induction false} RunIsTruthful(run: seq<Hello>)
    ensures Truthful(run, Exec(run))
  {
    if run != [] {
      var n := |run| - 1;
      var prior := run[..n];
      RunIsTruthful(prior);
      LastStepIs(run);
      forall k | k in Exec(run)
        ensures exists i :: Admitted(run, i) && run[i].sid == k && run[i].now == Exec(run)[k]
      {
        if k in Exec(prior) && Exec(run)[k] == Exec(prior)[k] {
          var i :| Admitted(prior, i) && prior[i].sid == k && prior[i].now == Exec(prior)[k];
          SameAdmissions(run, n, i);
        } else {
          assert Admitted(run, n);
        }
      }
    }
  }

  // ---------- what the guard promises ----------

  /** Two admissions of one session id are more than a window apart. */
  lemma AdmissionsAreApart(run: seq<Hello>, i: nat, j: nat)
    requires InOrder(run) && i < j && Admitted(run, i) && Admitted(run, j) && run[i].sid == run[j].sid
    ensures run[j].now - run[i].now > WINDOW
  {
    var prior := run[..j];
    RunRemembers(prior);
    SameAdmissions(run, j, i);
    assert prior[|prior| - 1].now <= run[j].now;
  }

  /** The same hello, arriving again after the i-th arrival, is admitted. */
  ghost predicate Replayed(run: seq<Hello>, i: nat) {
    exists j :: i < j && Admitted(run, j) && run[i].sid == run[j].sid && run[i].ts == run[j].ts
  }

  /** A window after its first admission, a hello that was not ahead of the clock is stale. */
  lemma BehindIsNotReplayed(run: seq<Hello>, i: nat)
    requires InOrder(run) && Admitted(run, i) && run[i].ts <= run[i].now
    ensures !Replayed(run, i)
  {
    if Replayed(run, i) {
      var j :| i < j && Admitted(run, j) && run[i].sid == run[j].sid && run[i].ts == run[j].ts;
      AdmissionsAreApart(run, i, j);
    }
  }

  ghost predicate Continues(prior: seq<Hello>, run: seq<Hello>) {
    prior <= run && InOrder(run)
  }

  /** A hello sealed ahead of the exit's clock is admitted again, once a window and one tick have passed. */
  lemma AheadIsReplayed(run: seq<Hello>, h: Hello, again: Hello, longer: seq<Hello>)
    requires InOrder(run) && run != [] && h == run[|run| - 1] && Admitted(run, |run| - 1) && h.ts > h.now
    requires again == Hello(h.sid, h.ts, h.now + WINDOW + 1) && longer == run + [again]
    ensures Continues(run, longer) && Admitted(longer, |run|) && Replayed(longer, |run| - 1)
  {
    assert longer[..|run|] == run;
    LastStepIs(run);
    assert Exec(run)[h.sid] == h.now;
    assert again.sid !in Evicted(Exec(run), again.now);
  }

  /**
   A hello just admitted is never admitted again, however the run goes on, exactly when its sealed
   timestamp was not ahead of the exit's clock.
   */
  lemma AdmittedForGood(run: seq<Hello>)
    requires InOrder(run) && Admitted(run, |run| - 1)
    ensures (forall longer :: Continues(run, longer) ==> !Replayed(longer, |run| - 1))
       <==> run[|run| - 1].ts <= run[|run| - 1].now
  {
    var i := |run| - 1;
    var h := run[i];
    if h.ts <= h.now {
      forall longer | Continues(run, longer)
        ensures !Replayed(longer, i)
      {
        assert longer[..|run|] == run;
        SameAdmissions(longer, |run|, i);
        BehindIsNotReplayed(longer, i);
      }
    } else {
      var again := Hello(h.sid, h.ts, h.now + WINDOW + 1);
      AheadIsReplayed(run, h, again, run + [again]);
      assert Continues(run, run + [again]) && Replayed(run + [again], i);
    }
  }

  /** The arrivals admitted no more than a window before a time. */
  ghost function Recent(run: seq<Hello>, now: int): set<int> {
    set i | 0 <= i < |run| && Admitted(run, i) && now - run[i].now <= WINDOW
  }

  lemma {:induction false} EachFromItsOwn(run: seq<Hello>, keys: set<SessionId>, from: set<int>)
    requires forall i :: i in from ==> 0 <= i < |run|
    requires forall k :: k in keys ==> exists i :: i in from && run[i].sid == k
    ensures |keys| <= |from|
    decreases keys
  {
    if keys != {} {
      var k :| k in keys;
      var i :| i in from && run[i].sid == k;
      forall q | q in keys - {k}
        ensures exists j :: j in from - {i} && run[j].sid == q
      {
        var j :| j in from && run[j].sid == q;
        assert j in from - {i};
      }
      EachFromItsOwn(run, keys - {k}, from - {i});
      assert |keys| == |keys - {k}| + 1 && |from| == |from - {i}| + 1;
    }
  }

  lemma EntryIsRecent(run: seq<Hello>, k: SessionId) returns (i: int)
    requires InOrder(run) && Admitted(run, |run| - 1) && k in Exec(run)
    ensures i in Recent(run, run[|run| - 1].now) && run[i].sid == k && run[i].now == Exec(run)[k]
  {
    LastStepIs(run);
    RunIsTruthful(run);
    i :| Admitted(run, i) && run[i].sid == k && run[i].now == Exec(run)[k];
  }

  /**
   After every admission the guard remembers nothing older than a window, and no more than was admitted
   within one.
   */
  lemma MemoryIsOneWindow(run: seq<Hello>)
    requires InOrder(run) && Admitted(run, |run| - 1)
    ensures var now := run[|run| - 1].now;
            && (forall k :: k in Exec(run) ==> 0 <= now - Exec(run)[k] <= WINDOW)
            && |Exec(run)| <= |Recent(run, now)|
  {
    var now, seen := run[|run| - 1].now, Exec(run);
    forall k | k in seen
      ensures 0 <= now - seen[k] <= WINDOW
      ensures exists i :: i in Recent(run, now) && run[i].sid == k
    {
      var i := EntryIsRecent(run, k);
    }
    EachFromItsOwn(run, seen.Keys, Recent(run, now));
  }
}
