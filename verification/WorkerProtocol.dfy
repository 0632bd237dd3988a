/**
  The worker program (apps/worker/main.py, apps/worker/example_job.py) as a protocol over
  the job store: each action is one committed transaction, a crash or an exception. Any
  number of workers interleave; each runs one job at a time.
*/
module WorkerProtocol {
  import opened Common
  import opened Jobs

  datatype Event = Event(job: JobId, page: nat)

  /** Where a worker's own code stands: between jobs, in its `try` block with its local
      `done`, inside a page transaction with what it read, in the exception handler, or there
      inside `fail_retry` with what that read. */
  datatype Local =
    | Idle
    | Working(job: JobId, done: bool)
    | Reading(job: JobId, page: nat, totalPages: int)
    | Failing(job: JobId)
    | Retrying(seen: Seen)

  datatype World = World(jobs: Table, outbox: seq<Event>, locals: map<Worker, Local>)

  datatype Action =
    | EnqueueAction(id: JobId, kind: Kind, maxAttempts: int, createdAt: Time)
    | ClaimAction(w: Worker, id: JobId, now: Time, leaseSeconds: nat)
    | ReadAction(w: Worker)
    | CommitAction(w: Worker)
    | BeatAction(w: Worker, now: Time, leaseSeconds: nat)
    | CheckDoneAction(w: Worker)
    | CompleteAction(w: Worker)
    | ThrowAction(w: Worker)
    | RetryReadAction(w: Worker)
    | RetryWriteAction(w: Worker, now: Time, backoff: nat)
    | CrashAction(w: Worker)
    | CancelAction(id: JobId)

  function LocalOf(s: World, w: Worker): Local {
    if w in s.locals then s.locals[w] else Idle
  }

  function WithLocal(s: World, w: Worker, l: Local): World {
    s.(locals := s.locals[w := l])
  }

  predicate IsPaged(t: Table, id: JobId) {
    id in t && t[id].kind.PagedEcho?
  }

  predicate IsCheck(t: Table, id: JobId) {
    id in t && t[id].kind.TenderChangeCheck?
  }

  /** `process_page`: the checkpoint after one more page than the one read. */
  function NextCheckpoint(page: nat, totalPages: int): Checkpoint {
    Checkpoint(page + 1, page + 1 >= totalPages)
  }

  /** What the worker program allows next. */
  predicate Enabled(s: World, a: Action) {
    match a
    case EnqueueAction(id, _, _, _) => id !in s.jobs
    case ClaimAction(w, id, now, lease) => LocalOf(s, w) == Idle && Succeeds(s.jobs, Claim(w, id, now, lease))
    case ReadAction(w) => LocalOf(s, w).Working? && !LocalOf(s, w).done && IsPaged(s.jobs, LocalOf(s, w).job)
    case CommitAction(w) => LocalOf(s, w).Reading?
    case BeatAction(w, _, _) => LocalOf(s, w).Working? && !LocalOf(s, w).done && IsCheck(s.jobs, LocalOf(s, w).job)
    case CheckDoneAction(w) => LocalOf(s, w).Working? && !LocalOf(s, w).done && IsCheck(s.jobs, LocalOf(s, w).job)
    case CompleteAction(w) => LocalOf(s, w).Working? && LocalOf(s, w).done
    case ThrowAction(w) => LocalOf(s, w).Working? || LocalOf(s, w).Reading?
    case RetryReadAction(w) => LocalOf(s, w).Failing? && LocalOf(s, w).job in s.jobs
    case RetryWriteAction(w, _, _) => LocalOf(s, w).Retrying? && LocalOf(s, w).seen.id in s.jobs
    case CrashAction(w) => true
    case CancelAction(id) => true
  }

  /** The local `done` a worker starts a claimed job with. */
  function StartDone(j: Job): bool {
    j.kind.PagedEcho? && j.checkpoint.done
  }

  function Step(s: World, a: Action): World
    requires Enabled(s, a)
  {
    match a
    case EnqueueAction(id, kind, maxAttempts, createdAt) =>
      s.(jobs := Apply(s.jobs, Enqueue(id, kind, maxAttempts, createdAt)))
    case ClaimAction(w, id, now, lease) =>
      WithLocal(s.(jobs := Apply(s.jobs, Claim(w, id, now, lease))), w, Working(id, StartDone(s.jobs[id])))
    case ReadAction(w) =>
      var j := s.jobs[LocalOf(s, w).job];
      // an unlocked read: others may commit before this transaction does
      WithLocal(s, w, Reading(LocalOf(s, w).job, j.checkpoint.page, j.kind.totalPages))
    case CommitAction(w) =>
      var l := LocalOf(s, w);
      var cp := NextCheckpoint(l.page, l.totalPages);
      var c := SetCheckpoint(w, l.job, cp);
      if Succeeds(s.jobs, c) then
        // the outbox row and the checkpoint land in one commit
        World(Apply(s.jobs, c), s.outbox + [Event(l.job, cp.page)], s.locals[w := Working(l.job, cp.done)])
      else
        // JobNotOwned rolls both back
        WithLocal(s, w, Failing(l.job))
    case BeatAction(w, now, lease) =>
      var c := Heartbeat(w, LocalOf(s, w).job, now, lease);
      if Succeeds(s.jobs, c) then s.(jobs := Apply(s.jobs, c)) else WithLocal(s, w, Failing(LocalOf(s, w).job))
    case CheckDoneAction(w) =>
      var id := LocalOf(s, w).job;
      var c := SetCheckpoint(w, id, Checkpoint(0, true));
      WithLocal(s.(jobs := Apply(s.jobs, c)), w, if Succeeds(s.jobs, c) then Working(id, true) else Failing(id))
    case CompleteAction(w) =>
      var id := LocalOf(s, w).job;
      var c := Complete(w, id);
      WithLocal(s.(jobs := Apply(s.jobs, c)), w, if Succeeds(s.jobs, c) then Idle else Failing(id))
    case ThrowAction(w) => WithLocal(s, w, Failing(LocalOf(s, w).job))
    case RetryReadAction(w) =>
      var id := LocalOf(s, w).job;
      var j := s.jobs[id];
      // not the owner: `JobNotOwned`, which the handler swallows
      WithLocal(s, w, if Owns(j, w) then Retrying(Seen(id, j.attempt, j.maxAttempts, j.expires)) else Idle)
    case RetryWriteAction(w, now, backoff) =>
      // the update names only the id: whoever owns the row by now
      var r := LocalOf(s, w).seen;
      WithLocal(s.(jobs := s.jobs[r.id := Retried(s.jobs[r.id], r.attempt, r.maxAttempts, now, backoff)]), w, Idle)
    case CrashAction(w) => WithLocal(s, w, Idle)
    case CancelAction(id) => s.(jobs := Apply(s.jobs, Cancel(id)))
  }

  const START: World := World(map[], [], map[])

  /** Every action of the run is allowed where it happens. */
  predicate Legal(s: World, acts: seq<Action>)
    decreases |acts|
  {
    acts == [] || (Enabled(s, acts[0]) && Legal(Step(s, acts[0]), acts[1..]))
  }

  function After(s: World, acts: seq<Action>): World
    requires Legal(s, acts)
    decreases |acts|
  {
    if acts == [] then s else After(Step(s, acts[0]), acts[1..])
  }

  // ----- Exactly-once effects -----

  /** The pages of `id` in the outbox, in order. */
  function PagesOf(outbox: seq<Event>, id: JobId): seq<nat> {
    if outbox == [] then []
    else
      var e := outbox[|outbox| - 1];
      PagesOf(outbox[..|outbox| - 1], id) + (if e.job == id then [e.page] else [])
  }

  /** 1, 2, ..., n */
  function FirstPages(n: nat): seq<nat> {
    if n == 0 then [] else FirstPages(n - 1) + [n]
  }

  function LastPage(j: Job): nat
    requires j.kind.PagedEcho?
  {
    if j.kind.totalPages > 1 then j.kind.totalPages else 1
  }

  ghost predicate PagesInOrder(s: World, id: JobId) {
    && (id !in s.jobs ==> PagesOf(s.outbox, id) == [])
    && (IsPaged(s.jobs, id) ==>
          var j := s.jobs[id];
          && PagesOf(s.outbox, id) == FirstPages(j.checkpoint.page)
          && j.checkpoint.page <= LastPage(j)
          && (j.checkpoint.done <==> j.checkpoint.page == LastPage(j))
          && (j.status == Completed ==> j.checkpoint.done))
  }

  function JobOf(l: Local): JobId
    requires !l.Idle?
  {
    if l.Retrying? then l.seen.id else l.job
  }

  /** What a lease holder knows agrees with the row; nobody works on a missing row. */
  ghost predicate LocalAgrees(s: World, id: JobId, w: Worker) {
    var l := LocalOf(s, w);
    && (!l.Idle? && JobOf(l) == id ==> id in s.jobs)
    && (l.Reading? && l.job == id ==> IsPaged(s.jobs, id) && l.totalPages == s.jobs[id].kind.totalPages)
    && (IsPaged(s.jobs, id) && !l.Idle? && JobOf(l) == id && s.jobs[id].owner == Some(w) ==>
          && (l.Working? ==> l.done == s.jobs[id].checkpoint.done)
          && (l.Reading? ==> s.jobs[id].checkpoint == Checkpoint(l.page, false)))
  }

  ghost predicate Good(s: World, id: JobId) {
    && PagesInOrder(s, id)
    && forall w {:trigger LocalAgrees(s, id, w)} :: LocalAgrees(s, id, w)
  }

  lemma {:induction false} AppendPage(outbox: seq<Event>, e: Event, id: JobId)
    ensures PagesOf(outbox + [e], id) == PagesOf(outbox, id) + (if e.job == id then [e.page] else [])
  {
    assert (outbox + [e])[..|outbox|] == outbox;
  }

  /** A page commits only on the row that was read, however long ago: whoever took the lease
      in between left an owner whom the commit does not match. */
  lemma {:induction false} CommitsWhatWasRead(s: World, w: Worker, id: JobId)
    requires Good(s, id) && LocalOf(s, w).Reading? && LocalOf(s, w).job == id
    requires Succeeds(s.jobs, SetCheckpoint(w, id, NextCheckpoint(LocalOf(s, w).page, LocalOf(s, w).totalPages)))
    ensures var l := LocalOf(s, w);
            && IsPaged(s.jobs, id) && s.jobs[id].kind.totalPages == l.totalPages
            && s.jobs[id].checkpoint == Checkpoint(l.page, false)
  {
    hide PagesInOrder;
    assert LocalAgrees(s, id, w);
  }

  lemma {:induction false} CommitStepGood(s: World, w: Worker, id: JobId)
    requires Good(s, id) && Enabled(s, CommitAction(w))
    ensures PagesInOrder(Step(s, CommitAction(w)), id)
  {
    hide PagesOf;
    var l := LocalOf(s, w);
    AppendPage(s.outbox, Event(l.job, NextCheckpoint(l.page, l.totalPages).page), id);
    if l.job == id && Succeeds(s.jobs, SetCheckpoint(w, id, NextCheckpoint(l.page, l.totalPages))) {
      CommitsWhatWasRead(s, w, id);
    }
  }

  lemma {:induction false} StepPages(s: World, a: Action, id: JobId)
    requires Good(s, id) && Enabled(s, a)
    ensures PagesInOrder(Step(s, a), id)
  {
    if a.CommitAction? {
      CommitStepGood(s, a.w, id);
    } else {
      hide PagesOf;
      if a.CompleteAction? { assert LocalAgrees(s, id, a.w); }
    }
  }

  lemma {:induction false} CommitAgrees(s: World, v: Worker, id: JobId, w: Worker)
    requires Good(s, id) && Enabled(s, CommitAction(v))
    ensures LocalAgrees(Step(s, CommitAction(v)), id, w)
  {
    hide PagesOf, PagesInOrder;
    assert LocalAgrees(s, id, w) && LocalAgrees(s, id, v);
  }

  lemma {:induction false} StepAgrees(s: World, a: Action, id: JobId, w: Worker)
    requires Good(s, id) && Enabled(s, a)
    ensures LocalAgrees(Step(s, a), id, w)
  {
    hide PagesOf, PagesInOrder;
    assert LocalAgrees(s, id, w);
    match a
    case ReadAction(v) => assert LocalAgrees(s, id, v);
    case CommitAction(v) => CommitAgrees(s, v, id, w);
    case CheckDoneAction(v) => assert LocalAgrees(s, id, v);
    case _ =>
  }

  lemma {:induction false} StepGood(s: World, a: Action, id: JobId)
    requires Good(s, id) && Enabled(s, a)
    ensures Good(Step(s, a), id)
  {
    StepPages(s, a, id);
    forall w ensures LocalAgrees(Step(s, a), id, w) { StepAgrees(s, a, id, w); }
  }

  lemma {:induction false} RunGood(s: World, acts: seq<Action>, id: JobId)
    requires Good(s, id) && Legal(s, acts)
    ensures Good(After(s, acts), id)
    decreases |acts|
  {
    if acts != [] {
      StepGood(s, acts[0], id);
      RunGood(Step(s, acts[0]), acts[1..], id);
    }
  }

  /** Whatever the workers, crashes, expiries, reclaims and retries: a paged job's committed
      events are pages 1..checkpoint.page in order, each once, and a completed job has
      exactly max(1, totalPages) of them. */
  lemma {:induction false} ExactlyOnce(acts: seq<Action>, id: JobId)
    requires Legal(START, acts)
    requires IsPaged(After(START, acts).jobs, id)
    ensures var s := After(START, acts);
            var j := s.jobs[id];
            && PagesOf(s.outbox, id) == FirstPages(j.checkpoint.page)
            && (j.status == Completed ==> j.checkpoint.page == LastPage(j))
  {
    RunGood(START, acts, id);
  }

  /** In any run, a page transaction that commits does so on the very checkpoint it read. */
  lemma {:induction false} NoStaleCommit(acts: seq<Action>, w: Worker, id: JobId)
    requires Legal(START, acts)
    requires var l := LocalOf(After(START, acts), w); l.Reading? && l.job == id
    ensures var s := After(START, acts);
            var l := LocalOf(s, w);
            Succeeds(s.jobs, SetCheckpoint(w, id, NextCheckpoint(l.page, l.totalPages))) ==>
              s.jobs[id].checkpoint == Checkpoint(l.page, false)
  {
    RunGood(START, acts, id);
    hide Good;
    var l := LocalOf(After(START, acts), w);
    if Succeeds(After(START, acts).jobs, SetCheckpoint(w, id, NextCheckpoint(l.page, l.totalPages))) {
      CommitsWhatWasRead(After(START, acts), w, id);
    }
  }

  lemma {:induction false} FirstPagesAre(n: nat)
    ensures |FirstPages(n)| == n && forall i :: 0 <= i < n ==> FirstPages(n)[i] == i + 1
  {
    if n > 0 { FirstPagesAre(n - 1); }
  }
}
