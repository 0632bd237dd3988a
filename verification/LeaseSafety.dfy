/**
  What every run of store statements keeps, whoever makes them and in whatever order, and
  what the two statements of `fail_retry` let through.
*/
module LeaseSafety {
  import opened Common
  import opened Jobs

  ghost predicate OwnedBy(d: Db, id: JobId, w: Worker) {
    id in d.jobs && Owns(d.jobs[id], w)
  }

  /** `w` has read `id` in a `fail_retry` it has not finished. */
  ghost predicate Pends(d: Db, w: Worker, id: JobId) {
    w in d.pending && d.pending[w].id == id
  }

  /** The update of `w`'s `fail_retry` on `id`. */
  ghost predicate WriteOn(d: Db, s: Stmt, id: JobId, w: Worker) {
    s.WriteRetry? && s.w == w && Pends(d, w, id) && id in d.jobs
  }

  /** ... on a row its reader no longer owns. */
  ghost predicate StaleWrite(d: Db, s: Stmt, id: JobId) {
    s.WriteRetry? && WriteOn(d, s, id, s.w) && !OwnedBy(d, id, s.w)
  }

  // ----- Handover -----

  /** A release of `id` by `a` itself. */
  ghost predicate Release(d: Db, s: Stmt, id: JobId, a: Worker) {
    (s == Whole(Complete(a, id)) && Works(d, s)) || WriteOn(d, s, id, a)
  }

  ghost predicate Takeover(d: Db, s: Stmt, id: JobId, a: Worker) {
    Works(d, s) && s.Whole? && s.c.Claim? && s.c.id == id && s.c.w != a
  }

  /** The expiry set by `a`'s latest successful claim or heartbeat on `id`. */
  ghost function GrantedUntil(ss: seq<Stmt>, id: JobId, a: Worker): Option<Time> {
    if ss == [] then None
    else
      var before := ss[..|ss| - 1];
      var s := ss[|ss| - 1];
      if s.Whole? && (s.c.Claim? || s.c.Heartbeat?) && s.c.id == id && s.c.w == a && Works(Run(before), s)
      then Some(s.c.now + s.c.leaseSeconds)
      else GrantedUntil(before, id, a)
  }

  /** While `a` owns a job, the row's expiry is the last one `a` set. */
  lemma {:induction false} ExpiryIsLastGrant(ss: seq<Stmt>, id: JobId, a: Worker)
    requires OwnedBy(Run(ss), id, a)
    ensures Run(ss).jobs[id].expires == GrantedUntil(ss, id, a) && GrantedUntil(ss, id, a).Some?
  {
    if ss != [] {
      var before := ss[..|ss| - 1];
      if OwnedBy(Run(before), id, a) {
        ExpiryIsLastGrant(before, id, a);
      }
    }
  }

  /** An owned row is leased or, after a cancel, cancelled. */
  lemma {:induction false} OwnedNotPending(ss: seq<Stmt>, id: JobId, a: Worker)
    requires OwnedBy(Run(ss), id, a)
    ensures Run(ss).jobs[id].status == Leased || Run(ss).jobs[id].status == Cancelled
  {
    if ss != [] {
      var before := ss[..|ss| - 1];
      if OwnedBy(Run(before), id, a) {
        OwnedNotPending(before, id, a);
      }
    }
  }

  /** The `i`-th statement takes `id` away from `a`. */
  ghost predicate LosesAt(ss: seq<Stmt>, i: nat, id: JobId, a: Worker)
    requires i < |ss|
  {
    OwnedBy(Run(ss[..i]), id, a) && !OwnedBy(Exec(Run(ss[..i]), ss[i]), id, a)
  }

  /** ... by `a`'s own release, or by a claim strictly after the last expiry `a` had set. */
  ghost predicate SafeLossAt(ss: seq<Stmt>, i: nat, id: JobId, a: Worker)
    requires i < |ss|
  {
    var d, s := Run(ss[..i]), ss[i];
    || Release(d, s, id, a)
    || (Takeover(d, s, id, a) && GrantedUntil(ss[..i], id, a).Some? && s.c.now > GrantedUntil(ss[..i], id, a).value)
  }

  /** The `i`-th statement is a stale write that hits another worker's lease. */
  ghost predicate RobsAt(ss: seq<Stmt>, i: nat, id: JobId)
    requires i < |ss|
  {
    StaleWrite(Run(ss[..i]), ss[i], id) && Run(ss[..i]).jobs[id].owner.Some?
  }

  lemma {:induction false} LosesOwnership(ss: seq<Stmt>, i: nat, id: JobId, a: Worker)
    requires i < |ss| && LosesAt(ss, i, id, a)
    ensures SafeLossAt(ss, i, id, a) || RobsAt(ss, i, id)
  {
    hide Run;
    ExpiryIsLastGrant(ss[..i], id, a);
    OwnedNotPending(ss[..i], id, a);
  }

  /** A job owned by `a` at one time and not at a later one changed hands safely, or was taken
      by another worker's stale write. */
  lemma {:induction false} HandoverIsSafe(ss: seq<Stmt>, i: nat, k: nat, id: JobId, a: Worker) returns (m: nat)
    requires i <= k <= |ss|
    requires OwnedBy(Run(ss[..i]), id, a) && !OwnedBy(Run(ss[..k]), id, a)
    ensures i <= m < k && LosesAt(ss, m, id, a)
    ensures SafeLossAt(ss, m, id, a) || RobsAt(ss, m, id)
    decreases k - i
  {
    RunStep(ss, i);
    if OwnedBy(Run(ss[..i + 1]), id, a) {
      m := HandoverIsSafe(ss, i + 1, k, id, a);
    } else {
      m := i;
      LosesOwnership(ss, i, id, a);
    }
  }

  ghost predicate HandsOverSafely(ss: seq<Stmt>) {
    forall i: nat, id, a {:trigger LosesAt(ss, i, id, a)} ::
      i < |ss| && LosesAt(ss, i, id, a) ==> SafeLossAt(ss, i, id, a)
  }

  lemma {:induction false} RobIsUnsafe(ss: seq<Stmt>, i: nat, id: JobId) returns (a: Worker)
    requires i < |ss| && RobsAt(ss, i, id)
    ensures LosesAt(ss, i, id, a) && !SafeLossAt(ss, i, id, a)
  {
    hide Run;
    a := Run(ss[..i]).jobs[id].owner.value;
  }

  /** In a run every job changes hands safely exactly when no stale write hits a held lease. */
  lemma {:induction false} HandoverIff(ss: seq<Stmt>)
    ensures HandsOverSafely(ss) <==> forall i: nat, id {:trigger RobsAt(ss, i, id)} :: i < |ss| ==> !RobsAt(ss, i, id)
  {
    if i: nat, id :| i < |ss| && RobsAt(ss, i, id) {
      var a := RobIsUnsafe(ss, i, id);
    }
    if i: nat, id, a :| i < |ss| && LosesAt(ss, i, id, a) && !SafeLossAt(ss, i, id, a) {
      LosesOwnership(ss, i, id, a);
    }
  }

  // ----- A worker without the lease -----

  /** A statement by which the holder of `id` would act on it. */
  ghost predicate HolderStmt(d: Db, s: Stmt, id: JobId, a: Worker) {
    match s
    case Whole(c) => (c.Heartbeat? || c.SetCheckpoint? || c.Complete?) && c.id == id && c.w == a
    case ReadRetry(w, i) => w == a && i == id
    case WriteRetry(w, _, _) => WriteOn(d, s, id, a)
    case DropRetry(_) => false
  }

  ghost predicate ClaimsBy(s: Stmt, id: JobId, a: Worker) {
    s.Whole? && s.c.Claim? && s.c.id == id && s.c.w == a
  }

  ghost predicate NoClaims(ss: seq<Stmt>, id: JobId, a: Worker) {
    forall s :: s in ss ==> !ClaimsBy(s, id, a)
  }

  lemma {:induction false} StaysOut(d: Db, ss: seq<Stmt>, id: JobId, a: Worker)
    requires !OwnedBy(d, id, a) && !Pends(d, a, id) && NoClaims(ss, id, a)
    ensures !OwnedBy(RunFrom(d, ss), id, a) && !Pends(RunFrom(d, ss), a, id)
  {
    if ss != [] {
      assert forall s :: s in ss[..|ss| - 1] ==> s in ss;
      assert ss[|ss| - 1] in ss;
      StaysOut(d, ss[..|ss| - 1], id, a);
    }
  }

  /** After `ss`, `s` by `a` on `id` raises and changes nothing. */
  ghost predicate PowerlessIn(d: Db, ss: seq<Stmt>, s: Stmt, id: JobId, a: Worker) {
    NoClaims(ss, id, a) && HolderStmt(RunFrom(d, ss), s, id, a) ==>
      !Works(RunFrom(d, ss), s) && Exec(RunFrom(d, ss), s) == RunFrom(d, ss)
  }

  /** Once `a` does not own a job, whatever it does on it raises and changes nothing until it
      claims the job again, exactly when it is not inside a `fail_retry` that has read it. */
  lemma {:induction false} StaleWorkerIsPowerless(d: Db, id: JobId, a: Worker)
    requires id in d.jobs && !OwnedBy(d, id, a)
    ensures (forall ss, s :: PowerlessIn(d, ss, s, id, a)) <==> !Pends(d, a, id)
  {
    if Pends(d, a, id) {
      assert !PowerlessIn(d, [], WriteRetry(a, 0, 0), id, a);
    } else {
      forall ss, s ensures PowerlessIn(d, ss, s, id, a) {
        if NoClaims(ss, id, a) { StaysOut(d, ss, id, a); }
      }
    }
  }

  // ----- Retry bound -----

  /** Jobs are enqueued with a positive number of attempts. */
  ghost predicate PositiveAttempts(ss: seq<Stmt>) {
    forall s :: s in ss && s.Whole? && s.c.Enqueue? ==> s.c.maxAttempts > 0
  }

  ghost predicate Bounded(j: Job) {
    && 0 < j.maxAttempts && j.attempt <= j.maxAttempts
    && (j.owner.Some? ==> j.attempt < j.maxAttempts)
    && (j.status == Pending ==> j.attempt < j.maxAttempts && j.owner == None)
    && (j.status == Leased ==> j.owner.Some?)
    && (j.status == Failed ==> j.attempt == j.maxAttempts && j.owner == None)
    && (j.status == Completed ==> j.owner == None)
  }

  ghost predicate SeenBounded(d: Db, w: Worker, id: JobId) {
    Pends(d, w, id) ==>
      && id in d.jobs && d.pending[w].maxAttempts == d.jobs[id].maxAttempts
      && d.pending[w].attempt < d.pending[w].maxAttempts
  }

  ghost predicate Kept(d: Db, id: JobId) {
    && (id in d.jobs ==> Bounded(d.jobs[id]))
    && forall w {:trigger SeenBounded(d, w, id)} :: SeenBounded(d, w, id)
  }

  lemma {:induction false} StepKept(d: Db, s: Stmt, id: JobId)
    requires Kept(d, id) && (s.Whole? && s.c.Enqueue? ==> s.c.maxAttempts > 0)
    ensures Kept(Exec(d, s), id)
  {
    if s.WriteRetry? { assert SeenBounded(d, s.w, id); }
    forall w ensures SeenBounded(Exec(d, s), w, id) { assert SeenBounded(d, w, id); }
  }

  /** Whatever overlaps: any held job has an attempt left, and no attempt exceeds the limit. */
  lemma {:induction false} RetryBound(ss: seq<Stmt>, id: JobId)
    requires PositiveAttempts(ss)
    ensures Kept(Run(ss), id)
  {
    if ss != [] {
      assert ss[|ss| - 1] in ss && forall s :: s in ss[..|ss| - 1] ==> s in ss;
      RetryBound(ss[..|ss| - 1], id);
      StepKept(Run(ss[..|ss| - 1]), ss[|ss| - 1], id);
    }
  }

  /** How often `fail_retry` has gone through on `id`. */
  ghost function FailureCount(ss: seq<Stmt>, id: JobId): nat {
    if ss == [] then 0
    else
      var before := ss[..|ss| - 1];
      var s := ss[|ss| - 1];
      FailureCount(before, id) + (if s.WriteRetry? && WriteOn(Run(before), s, id, s.w) then 1 else 0)
  }

  ghost predicate Counted(ss: seq<Stmt>, id: JobId) {
    if id in Run(ss).jobs then Run(ss).jobs[id].attempt == FailureCount(ss, id) else FailureCount(ss, id) == 0
  }

  /** The `i`-th statement, if it is a `fail_retry` update of `id`, finds the attempt it read. */
  ghost predicate FreshAt(ss: seq<Stmt>, i: nat, id: JobId)
    requires i < |ss|
  {
    var d, s := Run(ss[..i]), ss[i];
    s.WriteRetry? && WriteOn(d, s, id, s.w) ==> d.pending[s.w].attempt == d.jobs[id].attempt
  }

  lemma {:induction false} CountStep(ss: seq<Stmt>, i: nat, id: JobId)
    requires i < |ss| && Counted(ss[..i], id)
    ensures Counted(ss[..i + 1], id) <==> FreshAt(ss, i, id)
  {
    RunStep(ss, i);
    assert ss[..i + 1][..i] == ss[..i];
    hide Run;
  }

  lemma {:induction false} CountedUpTo(ss: seq<Stmt>, k: nat, id: JobId)
    requires k <= |ss| && forall i: nat :: i < k ==> FreshAt(ss, i, id)
    ensures Counted(ss[..k], id)
  {
    if k > 0 {
      CountedUpTo(ss, k - 1, id);
      CountStep(ss, k - 1, id);
    } else {
      assert ss[..0] == [];
    }
  }

  /** `attempt` counts the failures all along a run exactly when every update finds the attempt
      it read; and then no job fails more often than its limit allows. */
  lemma {:induction false} AttemptsCountIff(ss: seq<Stmt>, id: JobId)
    ensures (forall k: nat :: k <= |ss| ==> Counted(ss[..k], id)) <==> forall i: nat :: i < |ss| ==> FreshAt(ss, i, id)
    ensures PositiveAttempts(ss) && Counted(ss, id) && id in Run(ss).jobs ==>
              FailureCount(ss, id) <= Run(ss).jobs[id].maxAttempts
  {
    hide Counted, FreshAt;
    if forall i: nat :: i < |ss| ==> FreshAt(ss, i, id) {
      forall k: nat | k <= |ss| ensures Counted(ss[..k], id) { CountedUpTo(ss, k, id); }
    }
    if forall k: nat :: k <= |ss| ==> Counted(ss[..k], id) {
      forall i: nat | i < |ss| ensures FreshAt(ss, i, id) {
        assert Counted(ss[..i], id) && Counted(ss[..i + 1], id);
        CountStep(ss, i, id);
      }
    }
    if PositiveAttempts(ss) && Counted(ss, id) && id in Run(ss).jobs {
      RetryBound(ss, id);
      assert Run(ss).jobs[id].attempt == FailureCount(ss, id) by { CountIs(ss, id); }
    }
  }

  lemma {:induction false} CountIs(ss: seq<Stmt>, id: JobId)
    requires Counted(ss, id) && id in Run(ss).jobs
    ensures Run(ss).jobs[id].attempt == FailureCount(ss, id)
  {
  }

  /** `fail_retry` ends in `failed` exactly when it uses up the last attempt. */
  lemma {:induction false} FailsExactlyOnTheLast(ss: seq<Stmt>, s: Stmt, id: JobId, w: Worker)
    requires PositiveAttempts(ss) && WriteOn(Run(ss), s, id, w)
    ensures var after := Exec(Run(ss), s).jobs[id];
            && after.attempt <= after.maxAttempts
            && (after.status == Failed <==> after.attempt == after.maxAttempts)
            && (after.status == Pending <==> after.attempt < after.maxAttempts)
            && (Counted(ss + [s], id) ==> FailureCount(ss + [s], id) == after.attempt)
  {
    assert (ss + [s])[..|ss|] == ss;
    RetryBound(ss, id);
    assert SeenBounded(Run(ss), w, id);
  }

  // ----- The pause before a retry -----

  ghost predicate ClaimsFrom(s: Stmt, id: JobId, until: Time) {
    s.Whole? && s.c.Claim? && s.c.id == id && s.c.now >= until
  }

  /** The job waits until a time, and no `fail_retry` on it is unfinished. */
  ghost predicate Waits(d: Db, id: JobId, until: Time) {
    && id in d.jobs && d.jobs[id].owner == None
    && ((d.jobs[id].status == Pending && d.jobs[id].nextRetryAt == Some(until)) || d.jobs[id].status == Cancelled)
    && forall w :: !Pends(d, w, id)
  }

  lemma {:induction false} WaitsOn(d: Db, ss: seq<Stmt>, id: JobId, until: Time)
    requires Waits(d, id, until) && forall s :: s in ss ==> !ClaimsFrom(s, id, until)
    ensures Waits(RunFrom(d, ss), id, until)
  {
    if ss != [] {
      var t, s := RunFrom(d, ss[..|ss| - 1]), ss[|ss| - 1];
      assert s in ss && forall x :: x in ss[..|ss| - 1] ==> x in ss;
      WaitsOn(d, ss[..|ss| - 1], id, until);
      assert RunFrom(d, ss) == Exec(t, s);
      hide RunFrom;
      forall w ensures !Pends(Exec(t, s), w, id) { assert !Pends(t, w, id); }
      if s.WriteRetry? { assert !Pends(t, s.w, id); }
    }
  }

  /** A failure that leaves an attempt holds the job back: right after it the job can be claimed
      exactly from the end of the pause on, and until a claim at such a time nobody owns it. */
  lemma {:induction false} RetryWaits(d: Db, s: Stmt, id: JobId, w: Worker, ss: seq<Stmt>)
    requires WriteOn(d, s, id, w) && d.pending[w].attempt + 1 < d.pending[w].maxAttempts
    requires forall v :: v != w ==> !Pends(d, v, id)
    ensures forall t :: Claimable(Exec(d, s).jobs[id], t) <==> t >= s.now + s.backoff
    ensures (forall x :: x in ss ==> !ClaimsFrom(x, id, s.now + s.backoff)) ==>
              !(exists v :: OwnedBy(RunFrom(Exec(d, s), ss), id, v))
  {
    var e := Exec(d, s);
    forall v ensures !Pends(e, v, id) { assert v != w ==> !Pends(d, v, id); }
    assert Waits(e, id, s.now + s.backoff);
    if forall x :: x in ss ==> !ClaimsFrom(x, id, s.now + s.backoff) { WaitsOn(e, ss, id, s.now + s.backoff); }
  }

  // ----- Terminality -----

  /** Completed or failed, perhaps cancelled afterwards: nobody owns it, nobody can claim it. */
  ghost predicate Dead(j: Job) {
    j.owner == None && (j.status == Completed || j.status == Failed || j.status == Cancelled)
  }

  lemma {:induction false} DeadIsNeverClaimed(j: Job, now: Time)
    requires Dead(j)
    ensures !Claimable(j, now)
  {
  }

  /** An unfinished `fail_retry` that will put the job back in the queue. */
  ghost predicate WillRetry(d: Db, w: Worker, id: JobId) {
    Pends(d, w, id) && d.pending[w].attempt + 1 < d.pending[w].maxAttempts
  }

  ghost predicate DeadAfter(d: Db, ss: seq<Stmt>, id: JobId) {
    id in RunFrom(d, ss).jobs && Dead(RunFrom(d, ss).jobs[id])
  }

  lemma {:induction false} DeadStaysDead(d: Db, ss: seq<Stmt>, id: JobId)
    requires id in d.jobs && Dead(d.jobs[id]) && forall w :: !WillRetry(d, w, id)
    ensures DeadAfter(d, ss, id) && forall w :: !WillRetry(RunFrom(d, ss), w, id)
  {
    if ss != [] {
      var t, s := RunFrom(d, ss[..|ss| - 1]), ss[|ss| - 1];
      DeadStaysDead(d, ss[..|ss| - 1], id);
      assert RunFrom(d, ss) == Exec(t, s);
      hide RunFrom;
      if s.WriteRetry? { assert !WillRetry(t, s.w, id); }
      forall w ensures !WillRetry(Exec(t, s), w, id) { assert !WillRetry(t, w, id); }
    }
  }

  /** A completed or failed job stays dead, whatever statements follow and cancels among them,
      exactly when no unfinished `fail_retry` is about to put it back. */
  lemma {:induction false} TerminalStaysDead(d: Db, id: JobId)
    requires id in d.jobs && Bounded(d.jobs[id])
    requires d.jobs[id].status == Completed || d.jobs[id].status == Failed
    ensures (forall ss :: DeadAfter(d, ss, id)) <==> forall w :: !WillRetry(d, w, id)
  {
    if w :| WillRetry(d, w, id) {
      var s := WriteRetry(w, 0, 0);
      RunFromNext(d, [], s);
      assert [] + [s] == [s];
      assert !DeadAfter(d, [s], id);
    } else {
      forall ss ensures DeadAfter(d, ss, id) { DeadStaysDead(d, ss, id); }
    }
  }

  /** Cancelling is not terminal: the cancelled owner's failure puts the job back in the queue. */
  lemma {:induction false} CancelledCanRunAgain() returns (ss: seq<Stmt>)
    ensures PositiveAttempts(ss) && |ss| >= 5 && ss[2] == Whole(Cancel(0))
    ensures 0 in Run(ss[..3]).jobs && Run(ss[..3]).jobs[0].status == Cancelled
    ensures 0 in Run(ss[..5]).jobs && Claimable(Run(ss[..5]).jobs[0], 10)
  {
    ss := [Whole(Enqueue(0, UnknownKind, 5, 0)), Whole(Claim(7, 0, 0, 30)), Whole(Cancel(0)), ReadRetry(7, 0),
           WriteRetry(7, 1, 2)];
    assert ss[..0] == [];
    RunStep(ss, 0);
    RunStep(ss, 1);
    RunStep(ss, 2);
    RunStep(ss, 3);
    RunStep(ss, 4);
    hide Run;
  }

  ghost predicate CancelledAfter(d: Db, ss: seq<Stmt>, id: JobId) {
    id in RunFrom(d, ss).jobs && RunFrom(d, ss).jobs[id].status == Cancelled
  }

  lemma {:induction false} UnownedStaysCancelled(d: Db, ss: seq<Stmt>, id: JobId)
    requires id in d.jobs && d.jobs[id].status == Cancelled && d.jobs[id].owner == None
    requires forall w :: !Pends(d, w, id)
    ensures CancelledAfter(d, ss, id) && RunFrom(d, ss).jobs[id].owner == None
    ensures forall w :: !Pends(RunFrom(d, ss), w, id)
  {
    if ss != [] {
      var t, s := RunFrom(d, ss[..|ss| - 1]), ss[|ss| - 1];
      UnownedStaysCancelled(d, ss[..|ss| - 1], id);
      assert RunFrom(d, ss) == Exec(t, s);
      hide RunFrom;
      forall w ensures !Pends(Exec(t, s), w, id) { assert !Pends(t, w, id); }
      if s.WriteRetry? { assert !Pends(t, s.w, id); }
    }
  }

  /** A cancel is final, whatever statements follow, exactly when nobody owns the job and no
      unfinished `fail_retry` has read it. */
  lemma {:induction false} CancelIsFinalIff(d: Db, id: JobId)
    requires id in d.jobs
    ensures d.jobs[id].owner == None && (forall w :: !Pends(d, w, id)) <==>
            forall ss :: CancelledAfter(Exec(d, Whole(Cancel(id))), ss, id)
  {
    var e := Exec(d, Whole(Cancel(id)));
    if w :| Pends(d, w, id) {
      OneMore(e, WriteRetry(w, 0, 0));
      assert !CancelledAfter(e, [WriteRetry(w, 0, 0)], id);
    } else if d.jobs[id].owner.Some? {
      var w := d.jobs[id].owner.value;
      if w in d.pending {
        // inside a `fail_retry` of another job, which it finishes first
        OneMore(e, DropRetry(w));
        RunFromNext(e, [DropRetry(w)], Whole(Complete(w, id)));
        assert !CancelledAfter(e, [DropRetry(w)] + [Whole(Complete(w, id))], id);
      } else {
        OneMore(e, Whole(Complete(w, id)));
        assert !CancelledAfter(e, [Whole(Complete(w, id))], id);
      }
    } else {
      forall w ensures !Pends(e, w, id) { assert !Pends(d, w, id); }
      forall ss ensures CancelledAfter(e, ss, id) { UnownedStaysCancelled(e, ss, id); }
    }
  }

  lemma {:induction false} OneMore(d: Db, s: Stmt)
    ensures RunFrom(d, [s]) == Exec(d, s)
  {
    RunFromNext(d, [], s);
    assert [] + [s] == [s];
  }
}
