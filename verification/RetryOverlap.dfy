/**
  When the two statements of `fail_retry` behave as one (packages/platform/jobs.py:208-252),
  and the runs in which they do not.
*/
module RetryOverlap {
  import opened Common
  import opened Jobs
  import opened LeaseSafety

  // ----- When the write still finds its row -----

  /** Not by `w`, and no claim's clock is past `until`. */
  ghost predicate Outside(s: Stmt, w: Worker, until: Time) {
    match s
    case Whole(c) => !ByWorker(c, w) && (c.Claim? ==> c.now <= until)
    case ReadRetry(v, _) => v != w
    case WriteRetry(v, _, _) => v != w
    case DropRetry(v) => v != w
  }

  ghost predicate AllOutside(ss: seq<Stmt>, w: Worker, until: Time) {
    forall s :: s in ss ==> Outside(s, w, until)
  }

  /** `w` has read the row it owns, and no other worker has an unfinished `fail_retry` on it. */
  ghost predicate SoleReader(d: Db, w: Worker, id: JobId) {
    OwnedBy(d, id, w) && Pends(d, w, id) && forall v :: v != w ==> !Pends(d, v, id)
  }

  /** No claim up to `until` can take the row. */
  ghost predicate Shielded(d: Db, id: JobId, until: Time)
    requires id in d.jobs
  {
    var j := d.jobs[id];
    j.status == Cancelled || (j.status == Leased && j.expires.Some? && until <= j.expires.value)
  }

  lemma {:induction false} ShieldStep(d: Db, s: Stmt, w: Worker, id: JobId, until: Time)
    requires SoleReader(d, w, id) && Shielded(d, id, until) && Outside(s, w, until)
    ensures var e := Exec(d, s);
            && SoleReader(e, w, id) && Shielded(e, id, until)
            && e.pending[w] == d.pending[w] && e.jobs[id].attempt == d.jobs[id].attempt
  {
    var e := Exec(d, s);
    forall v | v != w ensures !Pends(e, v, id) {
      assert !Pends(d, v, id);
      if s == ReadRetry(v, id) { assert !Works(d, s); }
    }
    if s.WriteRetry? { assert !Pends(d, s.w, id); }
  }

  lemma {:induction false} ShieldHolds(d: Db, ss: seq<Stmt>, w: Worker, id: JobId, until: Time)
    requires SoleReader(d, w, id) && Shielded(d, id, until) && AllOutside(ss, w, until)
    ensures var e := RunFrom(d, ss);
            && SoleReader(e, w, id) && Shielded(e, id, until)
            && e.pending[w] == d.pending[w] && e.jobs[id].attempt == d.jobs[id].attempt
  {
    if ss != [] {
      var t, s := RunFrom(d, ss[..|ss| - 1]), ss[|ss| - 1];
      assert s in ss && forall x :: x in ss[..|ss| - 1] ==> x in ss;
      ShieldHolds(d, ss[..|ss| - 1], w, id, until);
      ShieldStep(t, s, w, id, until);
      assert RunFrom(d, ss) == Exec(t, s);
    }
  }

  lemma {:induction false} AnotherWorker(used: set<Worker>) returns (v: Worker)
    ensures forall u :: u in used ==> u < v
    decreases used
  {
    v := 0;
    if used != {} {
      var u :| u in used;
      v := AnotherWorker(used - {u});
      if v <= u { v := u + 1; }
      assert forall x :: x in used ==> x == u || x in used - {u};
    }
  }

  ghost predicate StillOwned(d: Db, ss: seq<Stmt>, w: Worker, id: JobId, until: Time) {
    AllOutside(ss, w, until) ==> OwnedBy(RunFrom(d, ss), id, w)
  }

  /** What a worker about to write can check: whatever the others commit with clocks up to
      `until`, its `fail_retry` still finds the row its own, exactly when `until` is no later
      than the expiry it read (or the row is cancelled, which no claim takes) and no other
      `fail_retry` on the row is unfinished. */
  lemma {:induction false} WriteStillOwnedIff(d: Db, w: Worker, id: JobId, until: Time)
    requires OwnedBy(d, id, w) && Pends(d, w, id)
    requires d.jobs[id].status == Cancelled || (d.jobs[id].status == Leased && d.jobs[id].expires.Some?)
    ensures (forall ss :: StillOwned(d, ss, w, id, until)) <==> SoleReader(d, w, id) && Shielded(d, id, until)
  {
    if v :| v != w && Pends(d, v, id) {
      OneMore(d, WriteRetry(v, 0, 0));
      assert !StillOwned(d, [WriteRetry(v, 0, 0)], w, id, until);
    } else if !Shielded(d, id, until) {
      var v := AnotherWorker(d.pending.Keys + {w});
      var s := Whole(Claim(v, id, until, 0));
      OneMore(d, s);
      assert v !in d.pending && v != w;
      assert Works(d, s) && Exec(d, s).jobs[id].owner == Some(v);
      assert !StillOwned(d, [s], w, id, until);
    } else {
      forall ss ensures StillOwned(d, ss, w, id, until) {
        if AllOutside(ss, w, until) { ShieldHolds(d, ss, w, id, until); }
      }
    }
  }

  // ----- Runs in which every write comes in time -----

  /** While a worker is between its two statements, no claim on the job has a clock past the
      expiry the worker read. */
  ghost predicate TimelyAt(d: Db, s: Stmt) {
    s.Whole? && s.c.Claim? ==>
      forall w :: Pends(d, w, s.c.id) ==> d.pending[w].until.Some? && s.c.now <= d.pending[w].until.value
  }

  ghost predicate Timely(ss: seq<Stmt>) {
    forall i: nat :: i < |ss| ==> TimelyAt(Run(ss[..i]), ss[i])
  }

  /** The row is as `w` read it: owned by `w`, with the same attempt and limit. */
  ghost predicate Unspoiled(d: Db, w: Worker) {
    w in d.pending ==>
      var r := d.pending[w];
      && OwnedBy(d, r.id, w)
      && d.jobs[r.id].attempt == r.attempt && d.jobs[r.id].maxAttempts == r.maxAttempts
      && d.jobs[r.id].expires == r.until
      && (d.jobs[r.id].status == Leased || d.jobs[r.id].status == Cancelled)
  }

  ghost predicate AllUnspoiled(d: Db) {
    forall w {:trigger Unspoiled(d, w)} :: Unspoiled(d, w)
  }

  /** Owned rows are leased or cancelled. */
  ghost predicate OwnersHold(d: Db) {
    forall id :: id in d.jobs && d.jobs[id].owner.Some? ==>
      d.jobs[id].status == Leased || d.jobs[id].status == Cancelled
  }

  lemma {:induction false} OwnersStep(d: Db, s: Stmt)
    requires OwnersHold(d)
    ensures OwnersHold(Exec(d, s))
  {
  }

  lemma {:induction false} UnspoiledStep(d: Db, s: Stmt, w: Worker)
    requires AllUnspoiled(d) && OwnersHold(d) && TimelyAt(d, s)
    ensures Unspoiled(Exec(d, s), w)
  {
    assert Unspoiled(d, w);
    if s.WriteRetry? { assert Unspoiled(d, s.w); }
  }

  lemma {:induction false} TimelyKeeps(ss: seq<Stmt>, k: nat)
    requires Timely(ss) && k <= |ss|
    ensures AllUnspoiled(Run(ss[..k])) && OwnersHold(Run(ss[..k]))
  {
    if k == 0 {
      assert ss[..0] == [];
    } else {
      TimelyKeeps(ss, k - 1);
      RunStep(ss, k - 1);
      hide Run, AllUnspoiled, OwnersHold;
      var d, e := Run(ss[..k - 1]), Run(ss[..k]);
      OwnersStep(d, ss[k - 1]);
      forall w ensures Unspoiled(e, w) { UnspoiledStep(d, ss[k - 1], w); }
      AllAre(e);
    }
  }

  lemma {:induction false} AllAre(d: Db)
    requires forall w {:trigger Unspoiled(d, w)} :: Unspoiled(d, w)
    ensures AllUnspoiled(d)
  {
  }

  /** A run in which every `fail_retry` comes in time is as good as one in which it is a single
      statement: every job changes hands safely, `attempt` counts the failures, and whatever is
      completed or failed stays dead. */
  lemma {:induction false} TimelyRunsAreSafe(ss: seq<Stmt>, id: JobId)
    requires Timely(ss)
    ensures HandsOverSafely(ss)
    ensures Counted(ss, id)
    ensures PositiveAttempts(ss) ==>
              forall i: nat, k: nat :: i <= k <= |ss| && TerminalAt(ss, i, id) ==> DeadAt(ss, k, id)
  {
    hide Run;
    forall i: nat, j | i < |ss| ensures !RobsAt(ss, i, j) && FreshAt(ss, i, j) {
      TimelyKeeps(ss, i);
      if ss[i].WriteRetry? { assert Unspoiled(Run(ss[..i]), ss[i].w); }
    }
    HandoverIff(ss);
    CountedUpTo(ss, |ss|, id);
    assert ss[..|ss|] == ss;
    if PositiveAttempts(ss) {
      forall i: nat, k: nat | i <= k <= |ss| && TerminalAt(ss, i, id) ensures DeadAt(ss, k, id) {
        TimelyKeeps(ss, i);
        NoRetryOnTerminal(ss, i, id);
        TerminalStaysDead(Run(ss[..i]), id);
        assert DeadAfter(Run(ss[..i]), ss[i..k], id);
        RunSplit(ss, i, k);
      }
    }
  }

  ghost predicate TerminalAt(ss: seq<Stmt>, i: nat, id: JobId) {
    i <= |ss| && id in Run(ss[..i]).jobs &&
    (Run(ss[..i]).jobs[id].status == Completed || Run(ss[..i]).jobs[id].status == Failed)
  }

  ghost predicate DeadAt(ss: seq<Stmt>, i: nat, id: JobId) {
    i <= |ss| && id in Run(ss[..i]).jobs && Dead(Run(ss[..i]).jobs[id])
  }

  lemma {:induction false} NoRetryOnTerminal(ss: seq<Stmt>, i: nat, id: JobId)
    requires i <= |ss| && TerminalAt(ss, i, id) && AllUnspoiled(Run(ss[..i])) && PositiveAttempts(ss)
    ensures Bounded(Run(ss[..i]).jobs[id]) && forall w :: !WillRetry(Run(ss[..i]), w, id)
  {
    RetryBound(ss[..i], id);
    hide Run;
    forall w ensures !WillRetry(Run(ss[..i]), w, id) { assert Unspoiled(Run(ss[..i]), w); }
  }

  // ----- Runs in which a write comes late -----

  /** Worker 7 claims job 0 for 30 seconds and starts to fail it; its lease runs out, and
      worker 8 claims the job. */
  function LateStart(): seq<Stmt> {
    [] + [Whole(Enqueue(0, UnknownKind, 5, 0))] + [Whole(Claim(7, 0, 0, 30))] + [ReadRetry(7, 0)]
    + [Whole(Claim(8, 0, 31, 30))]
  }

  function Reclaimed(): Job {
    NewJob(UnknownKind, 5, 0).(status := Leased, owner := Some(8), expires := Some(61))
  }

  lemma {:induction false} LateStartIs()
    ensures Run(LateStart()) == Db(map[0 := Reclaimed()], map[7 := Seen(0, 0, 5, Some(30))])
  {
    var a, b, c := Whole(Enqueue(0, UnknownKind, 5, 0)), Whole(Claim(7, 0, 0, 30)), ReadRetry(7, 0);
    RunFromNext(NO_JOBS, [], a);
    RunFromNext(NO_JOBS, [] + [a], b);
    RunFromNext(NO_JOBS, [] + [a] + [b], c);
    RunFromNext(NO_JOBS, [] + [a] + [b] + [c], Whole(Claim(8, 0, 31, 30)));
  }

  lemma {:induction false} LateNext(ss: seq<Stmt>, s: Stmt)
    ensures Run(ss + [s]) == Exec(Run(ss), s)
    ensures (ss + [s])[..|ss|] == ss && (ss + [s])[|ss|] == s
  {
    RunFromNext(NO_JOBS, ss, s);
  }

  /** Worker 7 writes: worker 8 loses its lease without releasing it and 28 seconds before it
      runs out. */
  lemma {:induction false} LateWriteStealsALease() returns (ss: seq<Stmt>)
    ensures PositiveAttempts(ss) && !HandsOverSafely(ss)
    ensures ss != [] && OwnedBy(Run(ss[..|ss| - 1]), 0, 8) && 0 in Run(ss).jobs && Claimable(Run(ss).jobs[0], 33)
  {
    LateStartIs();
    LateNext(LateStart(), WriteRetry(7, 31, 2));
    ss := LateStart() + [WriteRetry(7, 31, 2)];
    assert PositiveAttempts(ss);
    assert ss[..|ss| - 1] == LateStart();
    hide Run, LateStart, PositiveAttempts;
    HandoverIff(ss);
    assert RobsAt(ss, |ss| - 1, 0);
  }

  /** Worker 8 completes, then worker 7 writes: a completed job is claimable again. */
  lemma {:induction false} LateWriteRevivesAJob() returns (ss: seq<Stmt>, i: nat)
    ensures PositiveAttempts(ss) && i <= |ss| && TerminalAt(ss, i, 0)
    ensures 0 in Run(ss).jobs && Claimable(Run(ss).jobs[0], 40)
  {
    var done := LateStart() + [Whole(Complete(8, 0))];
    LateStartIs();
    LateNext(LateStart(), Whole(Complete(8, 0)));
    LateNext(done, WriteRetry(7, 38, 2));
    ss, i := done + [WriteRetry(7, 38, 2)], |done|;
    assert PositiveAttempts(ss);
    hide LateStart, PositiveAttempts, Run;
  }

  lemma {:induction false} CountNext(ss: seq<Stmt>, s: Stmt, id: JobId)
    ensures FailureCount(ss + [s], id) ==
            FailureCount(ss, id) + (if s.WriteRetry? && WriteOn(Run(ss), s, id, s.w) then 1 else 0)
  {
    assert (ss + [s])[..|ss|] == ss;
  }

  lemma {:induction false} NoWritesNoFailures(ss: seq<Stmt>, id: JobId)
    requires forall s :: s in ss ==> !s.WriteRetry?
    ensures FailureCount(ss, id) == 0
  {
    if ss != [] {
      assert ss[|ss| - 1] in ss && forall s :: s in ss[..|ss| - 1] ==> s in ss;
      NoWritesNoFailures(ss[..|ss| - 1], id);
    }
  }

  /** Worker 8 fails too, then worker 7 writes: two failures, recorded as one. */
  lemma {:induction false} LateWriteLosesAFailure() returns (ss: seq<Stmt>)
    ensures PositiveAttempts(ss) && 0 in Run(ss).jobs
    ensures FailureCount(ss, 0) == 2 && Run(ss).jobs[0].attempt == 1
  {
    var a := LateStart() + [ReadRetry(8, 0)];
    var b := a + [WriteRetry(8, 32, 2)];
    LateStartIs();
    LateNext(LateStart(), ReadRetry(8, 0));
    LateNext(a, WriteRetry(8, 32, 2));
    LateNext(b, WriteRetry(7, 33, 2));
    ss := b + [WriteRetry(7, 33, 2)];
    assert PositiveAttempts(ss) && forall s :: s in a ==> !s.WriteRetry?;
    hide LateStart, PositiveAttempts, Run, FailureCount;
    NoWritesNoFailures(a, 0);
    CountNext(a, WriteRetry(8, 32, 2), 0);
    CountNext(b, WriteRetry(7, 33, 2), 0);
  }
}
