/**
  Durable jobs with leases (packages/platform/jobs.py). A `Call` is one guarded statement
  against the `jobs` table, committed; `Apply` says what it does to the rows, and leaves them
  alone where the store raises `JobNotOwned` or selects no row. `fail_retry` is two
  statements, an unlocked guarded read and an update by id alone; `Stmt` keeps them apart.
*/
module Jobs {
  import opened Common

  type JobId = nat
  type Worker = nat
  type Time = int

  datatype Status = Pending | Leased | Completed | Failed | Cancelled

  /** `{"page": page, "done": done}`; the empty checkpoint reads as page 0, not done. */
  datatype Checkpoint = Checkpoint(page: nat, done: bool)

  datatype Kind = PagedEcho(totalPages: int) | TenderChangeCheck | UnknownKind

  datatype Job = Job(
    kind: Kind,
    status: Status,
    owner: Option<Worker>,
    expires: Option<Time>,
    attempt: nat,
    maxAttempts: int,
    nextRetryAt: Option<Time>,
    checkpoint: Checkpoint,
    createdAt: Time
  )

  type Table = map<JobId, Job>

  datatype Call =
    | Enqueue(id: JobId, kind: Kind, maxAttempts: int, createdAt: Time)
    | Claim(w: Worker, id: JobId, now: Time, leaseSeconds: nat)
    | Heartbeat(w: Worker, id: JobId, now: Time, leaseSeconds: nat)
    | SetCheckpoint(w: Worker, id: JobId, checkpoint: Checkpoint)
    | Complete(w: Worker, id: JobId)
    | Cancel(id: JobId)

  function NewJob(kind: Kind, maxAttempts: int, createdAt: Time): Job {
    Job(kind, Pending, None, None, 0, maxAttempts, None, Checkpoint(0, false), createdAt)
  }

  /** The WHERE clause of `claim`; a NULL expiry never compares as passed. */
  predicate Claimable(j: Job, now: Time) {
    || (j.status == Pending && (j.nextRetryAt == None || j.nextRetryAt.value <= now))
    || (j.status == Leased && j.expires.Some? && j.expires.value < now)
  }

  predicate Owns(j: Job, w: Worker) { j.owner == Some(w) }

  predicate HoldsLease(j: Job, w: Worker) { j.owner == Some(w) && j.status == Leased }

  /** Does the call find its row, or does it raise (or claim nothing)? */
  predicate Succeeds(t: Table, c: Call) {
    match c
    case Enqueue(id, _, _, _) => id !in t
    case Claim(_, id, now, _) => id in t && Claimable(t[id], now)
    case Heartbeat(w, id, _, _) => id in t && HoldsLease(t[id], w)
    case SetCheckpoint(w, id, _) => id in t && HoldsLease(t[id], w)
    case Complete(w, id) => id in t && Owns(t[id], w)
    case Cancel(id) => id in t
  }

  /** The update of `fail_retry`: the row gets the attempt that was read, plus one. */
  function Retried(j: Job, attempt: nat, maxAttempts: int, now: Time, backoff: nat): Job {
    if attempt + 1 < maxAttempts then
      j.(status := Pending, attempt := attempt + 1, owner := None, expires := None,
         nextRetryAt := Some(now + backoff))
    else
      j.(status := Failed, attempt := attempt + 1, owner := None, expires := None)
  }

  /** The row after a successful call. */
  function RowAfter(t: Table, c: Call): Job
    requires Succeeds(t, c)
  {
    match c
    case Enqueue(_, kind, maxAttempts, createdAt) => NewJob(kind, maxAttempts, createdAt)
    case Claim(w, id, now, lease) => t[id].(status := Leased, owner := Some(w), expires := Some(now + lease))
    case Heartbeat(_, id, now, lease) => t[id].(expires := Some(now + lease))
    case SetCheckpoint(_, id, cp) => t[id].(checkpoint := cp)
    case Complete(_, id) => t[id].(status := Completed, owner := None, expires := None)
    case Cancel(id) => t[id].(status := Cancelled)
  }

  function Apply(t: Table, c: Call): Table {
    if Succeeds(t, c) then t[c.id := RowAfter(t, c)] else t
  }

  // ----- Runs of statements -----

  /** What the read of `fail_retry` saw; `until` is the expiry the row had then. */
  datatype Seen = Seen(id: JobId, attempt: nat, maxAttempts: int, until: Option<Time>)

  /** The committed table, and what the workers inside `fail_retry` have read. */
  datatype Db = Db(jobs: Table, pending: map<Worker, Seen>)

  datatype Stmt =
    | Whole(c: Call)
    | ReadRetry(w: Worker, id: JobId)
    | WriteRetry(w: Worker, now: Time, backoff: nat)
    | DropRetry(w: Worker)

  predicate ByWorker(c: Call, w: Worker) {
    (c.Claim? || c.Heartbeat? || c.SetCheckpoint? || c.Complete?) && c.w == w
  }

  /** A worker inside `fail_retry` makes no other call. */
  predicate Busy(d: Db, c: Call) {
    (c.Claim? || c.Heartbeat? || c.SetCheckpoint? || c.Complete?) && c.w in d.pending
  }

  /** Does the statement take effect, or does it raise, find nothing or not occur? */
  predicate Works(d: Db, s: Stmt) {
    match s
    case Whole(c) => !Busy(d, c) && Succeeds(d.jobs, c)
    case ReadRetry(w, id) => w !in d.pending && id in d.jobs && Owns(d.jobs[id], w)
    case WriteRetry(w, _, _) => w in d.pending && d.pending[w].id in d.jobs
    case DropRetry(w) => w in d.pending
  }

  function Exec(d: Db, s: Stmt): Db {
    if !Works(d, s) then d
    else
      match s
      case Whole(c) => d.(jobs := Apply(d.jobs, c))
      case ReadRetry(w, id) =>
        var j := d.jobs[id];
        d.(pending := d.pending[w := Seen(id, j.attempt, j.maxAttempts, j.expires)])
      case WriteRetry(w, now, backoff) =>
        var r := d.pending[w];
        Db(d.jobs[r.id := Retried(d.jobs[r.id], r.attempt, r.maxAttempts, now, backoff)], d.pending - {w})
      case DropRetry(w) => d.(pending := d.pending - {w})
  }

  const NO_JOBS: Db := Db(map[], map[])

  function RunFrom(d: Db, ss: seq<Stmt>): Db {
    if ss == [] then d else Exec(RunFrom(d, ss[..|ss| - 1]), ss[|ss| - 1])
  }

  /** The database after a run of statements on the empty table. */
  function Run(ss: seq<Stmt>): Db { RunFrom(NO_JOBS, ss) }

  lemma {:induction false} RunStep(ss: seq<Stmt>, i: nat)
    requires i < |ss|
    ensures Run(ss[..i + 1]) == Exec(Run(ss[..i]), ss[i])
  {
    assert ss[..i + 1][..i] == ss[..i];
  }

  lemma {:induction false} RunFromNext(d: Db, ss: seq<Stmt>, s: Stmt)
    ensures RunFrom(d, ss + [s]) == Exec(RunFrom(d, ss), s)
  {
    assert (ss + [s])[..|ss|] == ss;
  }

  lemma {:induction false} RunSplit(ss: seq<Stmt>, i: nat, k: nat)
    requires i <= k <= |ss|
    ensures RunFrom(Run(ss[..i]), ss[i..k]) == Run(ss[..k])
    decreases k
  {
    if i < k {
      RunSplit(ss, i, k - 1);
      RunStep(ss, k - 1);
      assert ss[i..k][..k - 1 - i] == ss[i..k - 1];
    }
  }

  /** `compute_backoff_seconds`: exponential from the first retry on, capped. */
  function Power(base: nat, e: nat): nat {
    if e == 0 then 1 else base * Power(base, e - 1)
  }

  function BackoffSeconds(attempt: int): nat {
    var p := Power(2, if attempt > 1 then attempt else 1);
    if p < 300 then p else 300
  }

  lemma {:induction false} PowerGrows(e: nat, f: nat)
    requires e <= f
    ensures Power(2, e) <= Power(2, f)
    decreases f
  {
    if e < f { PowerGrows(e, f - 1); }
  }

  /** Later attempts never wait less, and every wait is between 2 and 300 seconds. */
  lemma {:induction false} BackoffMonotone(a: int, b: int)
    requires a <= b
    ensures 2 <= BackoffSeconds(a) <= BackoffSeconds(b) <= 300
  {
    var e := if a > 1 then a else 1;
    var f := if b > 1 then b else 1;
    PowerGrows(e, f);
    PowerGrows(1, e);
    assert Power(2, 1) == 2 * Power(2, 0);
  }

  /** The first waits are two seconds; from the first attempt on they double, up to 300. */
  lemma {:induction false} BackoffDoubles(attempt: int)
    ensures attempt <= 1 ==> BackoffSeconds(attempt) == 2
    ensures attempt >= 1 ==>
              var next := 2 * BackoffSeconds(attempt);
              BackoffSeconds(attempt + 1) == if next < 300 then next else 300
  {
    var e := if attempt > 1 then attempt else 1;
    assert Power(2, 1) == 2 * Power(2, 0);
    assert Power(2, e + 1) == 2 * Power(2, e);
  }

  // ----- The store -----

  class JobStore {
    var jobs: Table

    constructor ()
      ensures jobs == map[]
    {
      jobs := map[];
    }

    /** `id` is the next value of the table's sequence. */
    method EnqueueJob(id: JobId, kind: Kind, maxAttempts: int, now: Time)
      requires id !in jobs
      modifies this
      ensures jobs == Apply(old(jobs), Enqueue(id, kind, maxAttempts, now))
      ensures jobs[id].kind == kind && jobs[id].maxAttempts == maxAttempts && jobs[id].attempt == 0
      ensures jobs[id].createdAt == now && jobs[id].checkpoint == Checkpoint(0, false)
      ensures forall t :: Claimable(jobs[id], t)
    {
      jobs := jobs[id := NewJob(kind, maxAttempts, now)];
    }

    /** Rows in `locked` are held by other transactions and skipped; among the rest the
        oldest claimable row is taken. */
    method ClaimJob(w: Worker, now: Time, leaseSeconds: nat, locked: set<JobId>) returns (id: Option<JobId>)
      modifies this
      ensures id == None <==> forall k :: k in old(jobs) && k !in locked ==> !Claimable(old(jobs)[k], now)
      ensures id == None ==> jobs == old(jobs)
      ensures id.Some? ==>
                && id.value in old(jobs) && id.value !in locked
                && Succeeds(old(jobs), Claim(w, id.value, now, leaseSeconds))
                && jobs == Apply(old(jobs), Claim(w, id.value, now, leaseSeconds))
                && HoldsLease(jobs[id.value], w) && jobs[id.value].expires == Some(now + leaseSeconds)
                && jobs[id.value].attempt == old(jobs)[id.value].attempt
                && jobs[id.value].checkpoint == old(jobs)[id.value].checkpoint
                && forall k :: k in old(jobs) && k !in locked && Claimable(old(jobs)[k], now) ==>
                     old(jobs)[id.value].createdAt <= old(jobs)[k].createdAt
    {
      var candidates := set k | k in jobs && k !in locked && Claimable(jobs[k], now);
      assert forall k :: k in candidates <==> k in jobs && k !in locked && Claimable(jobs[k], now);
      if candidates == {} {
        return None;
      }
      ghost var oldest := Oldest(jobs, candidates);
      var k :| k in candidates && forall o :: o in candidates ==> jobs[k].createdAt <= jobs[o].createdAt;
      jobs := jobs[k := jobs[k].(status := Leased, owner := Some(w), expires := Some(now + leaseSeconds))];
      id := Some(k);
    }

    method HeartbeatJob(id: JobId, w: Worker, now: Time, leaseSeconds: nat) returns (notOwned: bool)
      modifies this
      ensures notOwned <==> !(id in old(jobs) && HoldsLease(old(jobs)[id], w))
      ensures !notOwned ==> jobs == old(jobs)[id := old(jobs)[id].(expires := Some(now + leaseSeconds))]
      ensures jobs == Apply(old(jobs), Heartbeat(w, id, now, leaseSeconds))
    {
      if id !in jobs || jobs[id].owner != Some(w) || jobs[id].status != Leased {
        return true;
      }
      jobs := jobs[id := jobs[id].(expires := Some(now + leaseSeconds))];
      notOwned := false;
    }

    method CheckpointJob(id: JobId, w: Worker, checkpoint: Checkpoint) returns (notOwned: bool)
      modifies this
      ensures notOwned <==> !(id in old(jobs) && HoldsLease(old(jobs)[id], w))
      ensures !notOwned ==> jobs == old(jobs)[id := old(jobs)[id].(checkpoint := checkpoint)]
      ensures jobs == Apply(old(jobs), SetCheckpoint(w, id, checkpoint))
    {
      if id !in jobs || jobs[id].owner != Some(w) || jobs[id].status != Leased {
        return true;
      }
      jobs := jobs[id := jobs[id].(checkpoint := checkpoint)];
      notOwned := false;
    }

    method CompleteJob(id: JobId, w: Worker) returns (notOwned: bool)
      modifies this
      ensures notOwned <==> !(id in old(jobs) && Owns(old(jobs)[id], w))
      ensures !notOwned ==> id in jobs && jobs[id].status == Completed && jobs[id].owner == None
      ensures jobs == Apply(old(jobs), Complete(w, id))
    {
      if id !in jobs || jobs[id].owner != Some(w) {
        return true;
      }
      jobs := jobs[id := jobs[id].(status := Completed, owner := None, expires := None)];
      notOwned := false;
    }

    /** The read that opens `fail_retry`; `None` is the raised `JobNotOwned`. */
    method SelectAttempt(id: JobId, w: Worker) returns (seen: Option<Seen>)
      ensures seen == None <==> !(id in jobs && Owns(jobs[id], w))
      ensures seen.Some? ==> seen.value == Seen(id, jobs[id].attempt, jobs[id].maxAttempts, jobs[id].expires)
    {
      if id !in jobs || jobs[id].owner != Some(w) {
        return None;
      }
      seen := Some(Seen(id, jobs[id].attempt, jobs[id].maxAttempts, jobs[id].expires));
    }

    /** The update that ends it; others may have committed since the read. */
    method UpdateRetry(seen: Seen, now: Time, backoff: nat) returns (result: Status)
      requires seen.id in jobs
      modifies this
      ensures jobs == old(jobs)[seen.id := Retried(old(jobs)[seen.id], seen.attempt, seen.maxAttempts, now, backoff)]
      ensures result == jobs[seen.id].status && jobs[seen.id].attempt == seen.attempt + 1
      ensures jobs[seen.id].owner == None && (result == Pending || result == Failed)
      ensures result == Pending <==> seen.attempt + 1 < seen.maxAttempts
      ensures result == Pending ==> jobs[seen.id].nextRetryAt == Some(now + backoff)
    {
      var id := seen.id;
      var newAttempt := seen.attempt + 1;
      if newAttempt < seen.maxAttempts {
        jobs := jobs[id := jobs[id].(status := Pending, attempt := newAttempt, owner := None, expires := None,
                                     nextRetryAt := Some(now + backoff))];
        return Pending;
      }
      jobs := jobs[id := jobs[id].(status := Failed, attempt := newAttempt, owner := None, expires := None)];
      result := Failed;
    }

    method CancelJob(id: JobId)
      modifies this
      ensures jobs == Apply(old(jobs), Cancel(id))
      ensures id in old(jobs) ==> id in jobs && jobs[id] == old(jobs)[id].(status := Cancelled)
    {
      if id in jobs {
        jobs := jobs[id := jobs[id].(status := Cancelled)];
      }
    }
  }

  lemma {:induction false} Oldest(t: Table, s: set<JobId>) returns (k: JobId)
    requires s != {} && s <= t.Keys
    ensures k in s && forall o :: o in s ==> t[k].createdAt <= t[o].createdAt
    decreases s
  {
    k :| k in s;
    var rest := s - {k};
    if rest != {} {
      var m := Oldest(t, rest);
      if t[m].createdAt < t[k].createdAt { k := m; }
    }
    forall o | o in s ensures t[k].createdAt <= t[o].createdAt {
      assert o in rest || o in s - rest;
    }
  }
}
