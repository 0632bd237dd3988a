/**
  The worker's own code (apps/worker/main.py:69-155): loops and the exception handler, with
  other workers' transactions interleaved between any two of its own. Each method proves
  that what it did, with what the others did in between, is a legal run of the protocol.
*/
module WorkerLoop {
  import opened Common
  import opened Jobs
  import opened WorkerProtocol

  predicate ByWorker(a: Action, w: Worker) {
    match a
    case EnqueueAction(_, _, _, _) => false
    case CancelAction(_) => false
    case ClaimAction(v, _, _, _) => v == w
    case ReadAction(v) => v == w
    case CommitAction(v) => v == w
    case BeatAction(v, _, _) => v == w
    case CheckDoneAction(v) => v == w
    case CompleteAction(v) => v == w
    case ThrowAction(v) => v == w
    case RetryReadAction(v) => v == w
    case RetryWriteAction(v, _, _) => v == w
    case CrashAction(v) => v == w
  }

  /** The actions of `acts` that others may take, one after the other. */
  function Foreign(s: World, acts: seq<Action>, w: Worker): (r: seq<Action>)
    ensures Legal(s, r)
    decreases |acts|
  {
    if acts == [] then []
    else if Enabled(s, acts[0]) && !ByWorker(acts[0], w) then
      [acts[0]] + Foreign(Step(s, acts[0]), acts[1..], w)
    else Foreign(s, acts[1..], w)
  }

  lemma {:induction false} LegalConcat(s: World, a: seq<Action>, b: seq<Action>)
    requires Legal(s, a) && Legal(After(s, a), b)
    ensures Legal(s, a + b) && After(s, a + b) == After(After(s, a), b)
    decreases |a|
  {
    if a == [] {
      assert a + b == b;
    } else {
      LegalConcat(Step(s, a[0]), a[1..], b);
      assert (a + b)[1..] == a[1..] + b;
    }
  }

  lemma {:induction false} Single(s: World, a: Action)
    requires Enabled(s, a)
    ensures Legal(s, [a]) && After(s, [a]) == Step(s, a)
  {
    assert [a][1..] == [];
    assert Legal(Step(s, a), []);
  }

  /** Others leave a worker's local state alone, keep rows, and only advance a paged job. */
  ghost predicate Undisturbed(s: World, t: World, w: Worker, id: JobId) {
    && LocalOf(t, w) == LocalOf(s, w)
    && (id in s.jobs ==> id in t.jobs && t.jobs[id].kind == s.jobs[id].kind)
    && (IsPaged(s.jobs, id) ==> t.jobs[id].checkpoint.page >= s.jobs[id].checkpoint.page)
  }

  lemma {:induction false} StepUndisturbed(s: World, a: Action, w: Worker, id: JobId)
    requires Good(s, id) && Enabled(s, a) && !ByWorker(a, w)
    ensures Undisturbed(s, Step(s, a), w, id)
  {
    hide PagesInOrder;
    if a.CommitAction? {
      assert LocalAgrees(s, id, a.w);
    }
  }

  lemma {:induction false} ForeignUndisturbed(s: World, acts: seq<Action>, w: Worker, id: JobId)
    requires Good(s, id)
    ensures Undisturbed(s, After(s, Foreign(s, acts, w)), w, id)
    decreases |acts|
  {
    hide Good;
    if acts != [] {
      if Enabled(s, acts[0]) && !ByWorker(acts[0], w) {
        StepUndisturbed(s, acts[0], w, id);
        StepGood(s, acts[0], id);
        ForeignUndisturbed(Step(s, acts[0]), acts[1..], w, id);
        var rest := Foreign(Step(s, acts[0]), acts[1..], w);
        assert ([acts[0]] + rest)[1..] == rest;
        hide Step, Enabled;
      } else {
        ForeignUndisturbed(s, acts[1..], w, id);
      }
    }
  }

  // ----- While a worker leads a job -----

  /** `w` holds the lease, and no other worker has an unfinished `fail_retry` on the job. */
  ghost predicate Leads(s: World, w: Worker, id: JobId) {
    && id in s.jobs && HoldsLease(s.jobs[id], w)
    && forall v :: v != w ==> !RetriesOn(s, v, id)
  }

  ghost predicate RetriesOn(s: World, v: Worker, id: JobId) {
    LocalOf(s, v).Retrying? && LocalOf(s, v).seen.id == id
  }

  /** A claim or a cancel of the job. */
  predicate Disturbs(a: Action, id: JobId) {
    (a.ClaimAction? || a.CancelAction?) && a.id == id
  }

  ghost predicate Peaceful(acts: seq<Action>, id: JobId) {
    forall a :: a in acts ==> !Disturbs(a, id)
  }

  /** Nothing the others can do then touches the row. */
  lemma {:induction false} StepLeads(s: World, a: Action, w: Worker, id: JobId)
    requires Leads(s, w, id) && Enabled(s, a) && !ByWorker(a, w) && !Disturbs(a, id)
    ensures Leads(Step(s, a), w, id) && Step(s, a).jobs[id] == s.jobs[id]
  {
    var t := Step(s, a);
    if a.RetryWriteAction? { assert !RetriesOn(s, a.w, id); }
    forall v | v != w ensures !RetriesOn(t, v, id) { assert !RetriesOn(s, v, id); }
  }

  lemma {:induction false} ForeignLeads(s: World, acts: seq<Action>, w: Worker, id: JobId)
    requires Leads(s, w, id) && Peaceful(acts, id)
    ensures var t := After(s, Foreign(s, acts, w)); Leads(t, w, id) && t.jobs[id] == s.jobs[id]
    decreases |acts|
  {
    hide Leads;
    if acts != [] {
      assert acts[0] in acts && forall a :: a in acts[1..] ==> a in acts;
      if Enabled(s, acts[0]) && !ByWorker(acts[0], w) {
        StepLeads(s, acts[0], w, id);
        ForeignLeads(Step(s, acts[0]), acts[1..], w, id);
        var rest := Foreign(Step(s, acts[0]), acts[1..], w);
        assert ([acts[0]] + rest)[1..] == rest;
        hide Step, Enabled;
      } else {
        ForeignLeads(s, acts[1..], w, id);
      }
    }
  }

  /** A worker's own step leaves the others where they are. */
  lemma {:induction false} OwnStepLeads(s: World, a: Action, w: Worker, id: JobId)
    requires Leads(s, w, id) && Enabled(s, a) && ByWorker(a, w) && !a.ClaimAction?
    requires id in Step(s, a).jobs && HoldsLease(Step(s, a).jobs[id], w)
    ensures Leads(Step(s, a), w, id)
  {
    forall v | v != w ensures !RetriesOn(Step(s, a), v, id) { assert !RetriesOn(s, v, id); }
  }

  /** The actions of one worker, in order. */
  function Own(acts: seq<Action>, w: Worker): seq<Action> {
    if acts == [] then []
    else Own(acts[..|acts| - 1], w) + (if ByWorker(acts[|acts| - 1], w) then [acts[|acts| - 1]] else [])
  }

  lemma {:induction false} OwnNext(acts: seq<Action>, a: Action, w: Worker)
    ensures Own(acts + [a], w) == Own(acts, w) + (if ByWorker(a, w) then [a] else [])
  {
    assert (acts + [a])[..|acts|] == acts;
  }

  lemma {:induction false} OwnConcat(acts: seq<Action>, more: seq<Action>, w: Worker)
    requires forall a :: a in more ==> !ByWorker(a, w)
    ensures Own(acts + more, w) == Own(acts, w)
  {
    if more == [] {
      assert acts + more == acts;
    } else {
      var init, a := more[..|more| - 1], more[|more| - 1];
      assert a in more && forall b :: b in init ==> b in more;
      OwnConcat(acts, init, w);
      OwnNext(acts + init, a, w);
      assert acts + more == acts + init + [a];
    }
  }

  lemma {:induction false} ForeignIsForeign(s: World, acts: seq<Action>, w: Worker)
    ensures forall a :: a in Foreign(s, acts, w) ==> !ByWorker(a, w)
    decreases |acts|
  {
    hide Step, Enabled, ByWorker;
    if acts != [] {
      if Enabled(s, acts[0]) && !ByWorker(acts[0], w) {
        ForeignIsForeign(Step(s, acts[0]), acts[1..], w);
      } else {
        ForeignIsForeign(s, acts[1..], w);
      }
    }
  }

  /** The committed database, where each worker's code stands, and the actions so far. */
  class Database {
    const store: JobStore
    var outbox: seq<Event>
    var locals: map<Worker, Local>
    ghost var history: seq<Action>
    ghost const origin: World

    function Now(): World
      reads this, store
    {
      World(store.jobs, outbox, locals)
    }

    /** The present is where a legal run from the origin leads. */
    ghost predicate Valid()
      reads this, store
    {
      Legal(origin, history) && After(origin, history) == Now()
    }

    constructor (s: World)
      ensures Valid() && Now() == s && origin == s && history == [] && fresh(store)
    {
      store := new JobStore();
      outbox, locals := s.outbox, s.locals;
      history := [];
      origin := s;
      new;
      store.jobs := s.jobs;
    }

    /** Files the step just taken from `before`. */
    ghost method Record(a: Action, before: World)
      requires Legal(origin, history) && After(origin, history) == before
      requires Enabled(before, a) && Now() == Step(before, a)
      modifies `history
      ensures Valid() && history == old(history) + [a]
    {
      Single(before, a);
      LegalConcat(origin, history, [a]);
      history := history + [a];
    }

    /** Other workers' transactions commit in between. */
    method Others(acts: seq<Action>, w: Worker)
      requires Valid()
      modifies this, store
      ensures Valid() && old(history) <= history && Own(history, w) == Own(old(history), w)
      ensures Now() == After(old(Now()), Foreign(old(Now()), acts, w))
    {
      var r := Foreign(Now(), acts, w);
      ForeignIsForeign(Now(), acts, w);
      OwnConcat(history, r, w);
      LegalConcat(origin, history, r);
      history := history + r;
      var t := After(Now(), r);
      store.jobs, outbox, locals := t.jobs, t.outbox, t.locals;
    }

    /** The read that opens a page transaction. */
    method ReadPage(id: JobId, w: Worker) returns (page: nat, totalPages: int)
      requires Valid() && LocalOf(Now(), w) == Working(id, false) && IsPaged(store.jobs, id)
      modifies this, store
      ensures Valid() && Now() == Step(old(Now()), ReadAction(w))
      ensures history == old(history) + [ReadAction(w)]
      ensures LocalOf(Now(), w) == Reading(id, page, totalPages)
    {
      ghost var before := Now();
      page, totalPages := store.jobs[id].checkpoint.page, store.jobs[id].kind.totalPages;
      locals := locals[w := Reading(id, page, totalPages)];
      Record(ReadAction(w), before);
    }

    /** The rest of it: outbox row and checkpoint, or neither. */
    method CommitPage(id: JobId, w: Worker, page: nat, totalPages: int) returns (raised: bool, done: bool)
      requires Valid() && LocalOf(Now(), w) == Reading(id, page, totalPages)
      modifies this, store
      ensures Valid() && Now() == Step(old(Now()), CommitAction(w))
      ensures history == old(history) + [CommitAction(w)]
      ensures raised <==> !(id in old(store.jobs) && HoldsLease(old(store.jobs)[id], w))
      ensures outbox == old(outbox) + (if raised then [] else [Event(id, page + 1)])
      ensures LocalOf(Now(), w) == (if raised then Failing(id) else Working(id, done))
    {
      ghost var before := Now();
      var checkpoint := NextCheckpoint(page, totalPages);
      done := checkpoint.done;
      raised := store.CheckpointJob(id, w, checkpoint);
      if raised {
        // rolled back: no outbox row either
        locals := locals[w := Failing(id)];
      } else {
        outbox := outbox + [Event(id, checkpoint.page)];
        locals := locals[w := Working(id, done)];
      }
      Record(CommitAction(w), before);
    }

    method HeartbeatTransaction(id: JobId, w: Worker, now: Time, leaseSeconds: nat) returns (raised: bool)
      requires Valid() && LocalOf(Now(), w) == Working(id, false) && IsCheck(store.jobs, id)
      modifies this, store
      ensures Valid() && Now() == Step(old(Now()), BeatAction(w, now, leaseSeconds))
      ensures history == old(history) + [BeatAction(w, now, leaseSeconds)]
      ensures LocalOf(Now(), w) == (if raised then Failing(id) else Working(id, false))
    {
      ghost var before := Now();
      raised := store.HeartbeatJob(id, w, now, leaseSeconds);
      if raised {
        locals := locals[w := Failing(id)];
      }
      Record(BeatAction(w, now, leaseSeconds), before);
    }

    method CheckDoneTransaction(id: JobId, w: Worker) returns (raised: bool)
      requires Valid() && LocalOf(Now(), w) == Working(id, false) && IsCheck(store.jobs, id)
      modifies this, store
      ensures Valid() && Now() == Step(old(Now()), CheckDoneAction(w))
      ensures history == old(history) + [CheckDoneAction(w)]
      ensures LocalOf(Now(), w) == (if raised then Failing(id) else Working(id, true))
    {
      ghost var before := Now();
      raised := store.CheckpointJob(id, w, Checkpoint(0, true));
      locals := locals[w := if raised then Failing(id) else Working(id, true)];
      Record(CheckDoneAction(w), before);
    }

    method CompleteTransaction(id: JobId, w: Worker) returns (raised: bool)
      requires Valid() && LocalOf(Now(), w) == Working(id, true)
      modifies this, store
      ensures Valid() && Now() == Step(old(Now()), CompleteAction(w))
      ensures history == old(history) + [CompleteAction(w)]
      ensures LocalOf(Now(), w) == (if raised then Failing(id) else Idle)
      ensures store.jobs.Keys == old(store.jobs.Keys)
    {
      ghost var before := Now();
      raised := store.CompleteJob(id, w);
      locals := locals[w := if raised then Failing(id) else Idle];
      Record(CompleteAction(w), before);
    }

    /** An exception inside a transaction: nothing of it commits. */
    method Throw(id: JobId, w: Worker)
      requires Valid() && (LocalOf(Now(), w).Working? || LocalOf(Now(), w).Reading?) && LocalOf(Now(), w).job == id
      modifies this, store
      ensures Valid() && Now() == Step(old(Now()), ThrowAction(w))
      ensures history == old(history) + [ThrowAction(w)]
      ensures LocalOf(Now(), w) == Failing(id) && store.jobs == old(store.jobs)
    {
      ghost var before := Now();
      locals := locals[w := Failing(id)];
      Record(ThrowAction(w), before);
    }

    /** The guarded read of `fail_retry`; `JobNotOwned` is swallowed. */
    method RetryRead(id: JobId, w: Worker) returns (seen: Option<Seen>)
      requires Valid() && LocalOf(Now(), w) == Failing(id) && id in store.jobs
      modifies this, store
      ensures Valid() && Now() == Step(old(Now()), RetryReadAction(w))
      ensures history == old(history) + [RetryReadAction(w)]
      ensures LocalOf(Now(), w) == if seen.Some? then Retrying(seen.value) else Idle
      ensures seen.Some? ==> seen.value.id == id
      ensures store.jobs == old(store.jobs)
    {
      ghost var before := Now();
      seen := store.SelectAttempt(id, w);
      locals := locals[w := if seen.Some? then Retrying(seen.value) else Idle];
      Record(RetryReadAction(w), before);
    }

    /** Its update, by id alone. */
    method RetryWrite(seen: Seen, w: Worker, now: Time, backoff: nat)
      requires Valid() && LocalOf(Now(), w) == Retrying(seen) && seen.id in store.jobs
      modifies this, store
      ensures Valid() && Now() == Step(old(Now()), RetryWriteAction(w, now, backoff))
      ensures history == old(history) + [RetryWriteAction(w, now, backoff)]
      ensures LocalOf(Now(), w) == Idle
    {
      ghost var before := Now();
      var result := store.UpdateRetry(seen, now, backoff);
      locals := locals[w := Idle];
      Record(RetryWriteAction(w, now, backoff), before);
    }

    /** The claim of `run_once`: the oldest claimable row that is not locked. */
    method ClaimTransaction(w: Worker, now: Time, leaseSeconds: nat, locked: set<JobId>) returns (id: Option<JobId>)
      requires Valid() && LocalOf(Now(), w) == Idle
      modifies this, store
      ensures Valid() && old(history) <= history
      ensures id == None ==> Now() == old(Now()) && history == old(history)
      ensures id == None <==> forall k :: k in old(store.jobs) && k !in locked ==> !Claimable(old(store.jobs)[k], now)
      ensures id.Some? ==>
                && id.value !in locked && Enabled(old(Now()), ClaimAction(w, id.value, now, leaseSeconds))
                && (forall k :: k in old(store.jobs) && k !in locked && Claimable(old(store.jobs)[k], now) ==>
                      old(store.jobs)[id.value].createdAt <= old(store.jobs)[k].createdAt)
                && Now() == Step(old(Now()), ClaimAction(w, id.value, now, leaseSeconds))
    {
      ghost var before := Now();
      id := store.ClaimJob(w, now, leaseSeconds, locked);
      if id.Some? {
        locals := locals[w := Working(id.value, StartDone(store.jobs[id.value]))];
        Record(ClaimAction(w, id.value, now, leaseSeconds), before);
      }
    }
  }

  /** What a run of the schedule supplies: what the others do before the k-th own
      transaction, whether it throws, and its clock. */
  datatype Schedule = Schedule(others: nat -> seq<Action>, throws: nat -> bool, clock: nat -> Time, beats: nat)

  /** Nobody else claims or cancels the job meanwhile. */
  ghost predicate Quiet(s: Schedule, id: JobId) {
    forall k: nat :: Peaceful(s.others(k), id)
  }

  ghost predicate ThrowsBefore(s: Schedule, n: int) {
    exists i: nat :: i < n && s.throws(i)
  }

  /** Only the checkpoint and the lease have moved. */
  ghost predicate Progressed(j: Job, k: Job) {
    k == j.(checkpoint := k.checkpoint, expires := k.expires)
  }

  /** The job is given back, one attempt up: to the queue after a pause, or as failed. */
  ghost predicate GivenBack(j: Job, k: Job, now: Time) {
    && k.attempt == j.attempt + 1 && k.maxAttempts == j.maxAttempts && k.kind == j.kind
    && k.owner == None && k.expires == None
    && if j.attempt + 1 < j.maxAttempts then
         k.status == Pending && k.nextRetryAt == Some(now + BackoffSeconds(j.attempt + 1))
       else k.status == Failed
  }

  ghost predicate Finished(j: Job, k: Job) {
    k.status == Completed && k.owner == None && k.attempt == j.attempt && k.kind == j.kind
  }

  /** An exception strikes one of the transactions the job's branch needs. */
  ghost predicate Strikes(j: Job, s: Schedule) {
    match j.kind
    case PagedEcho(_) => ThrowsBefore(s, 2 * (LastPage(j) - j.checkpoint.page))
    case TenderChangeCheck => ThrowsBefore(s, s.beats + 1)
    case UnknownKind => true
  }

  /** The heartbeats of a check job. */
  function Beats(s: Schedule, w: Worker, n: nat): seq<Action> {
    if n == 0 then [] else Beats(s, w, n - 1) + [BeatAction(w, s.clock(n - 1), LEASE_SECONDS)]
  }

  /** Pages still to go, by the row. */
  ghost function Remaining(t: Table, id: JobId): int {
    if IsPaged(t, id) then LastPage(t[id]) - t[id].checkpoint.page else 0
  }

  method LetOthers(db: Database, acts: seq<Action>, w: Worker, id: JobId)
    requires db.Valid() && Good(db.Now(), id)
    modifies db, db.store
    ensures db.Valid() && old(db.history) <= db.history && Good(db.Now(), id)
    ensures Own(db.history, w) == old(Own(db.history, w))
    ensures Undisturbed(old(db.Now()), db.Now(), w, id)
    ensures old(Leads(db.Now(), w, id)) && Peaceful(acts, id) ==>
              Leads(db.Now(), w, id) && db.store.jobs[id] == old(db.store.jobs[id])
  {
    hide Good, Database.Valid, Undisturbed, Own, Leads;
    ForeignUndisturbed(db.Now(), acts, w, id);
    if Leads(db.Now(), w, id) && Peaceful(acts, id) { ForeignLeads(db.Now(), acts, w, id); }
    RunGood(db.Now(), Foreign(db.Now(), acts, w), id);
    db.Others(acts, w);
  }

  /** A page transaction that commits moves the row one page on. */
  lemma {:induction false} PageProgress(s: World, w: Worker, id: JobId)
    requires Good(s, id) && LocalOf(s, w).Reading? && LocalOf(s, w).job == id && IsPaged(s.jobs, id)
    ensures var t := Step(s, CommitAction(w));
            && IsPaged(t.jobs, id)
            && (HoldsLease(s.jobs[id], w) ==> 0 <= Remaining(t.jobs, id) < Remaining(s.jobs, id))
  {
    hide PagesOf;
    assert LocalAgrees(s, id, w);
  }

  lemma {:induction false} RemainingShrinks(s: World, t: World, w: Worker, id: JobId)
    requires Undisturbed(s, t, w, id) && IsPaged(s.jobs, id)
    ensures IsPaged(t.jobs, id) && Remaining(t.jobs, id) <= Remaining(s.jobs, id)
  {
  }

  /** An exception in the `try` block. */
  method Fail(db: Database, id: JobId, w: Worker)
    requires db.Valid() && Good(db.Now(), id) && id in db.store.jobs
    requires (LocalOf(db.Now(), w).Working? || LocalOf(db.Now(), w).Reading?) && LocalOf(db.Now(), w).job == id
    modifies db, db.store
    ensures db.Valid() && old(db.history) <= db.history && Good(db.Now(), id)
    ensures LocalOf(db.Now(), w) == Failing(id) && db.store.jobs == old(db.store.jobs)
    ensures db.history == old(db.history) + [ThrowAction(w)]
    ensures old(Leads(db.Now(), w, id)) ==> Leads(db.Now(), w, id)
  {
    hide Good, Database.Valid;
    StepGood(db.Now(), ThrowAction(w), id);
    if Leads(db.Now(), w, id) { OwnStepLeads(db.Now(), ThrowAction(w), w, id); }
    hide Leads;
    db.Throw(id, w);
  }

  /** The row after one more page. */
  ghost function PageDone(j: Job): Job
    requires j.kind.PagedEcho?
  {
    j.(checkpoint := NextCheckpoint(j.checkpoint.page, j.kind.totalPages))
  }

  /** What reading and committing a page does to the row of a leading worker. */
  lemma {:induction false} ReadLeads(s: World, w: Worker, id: JobId)
    requires Leads(s, w, id) && LocalOf(s, w) == Working(id, false) && IsPaged(s.jobs, id)
    ensures var t := Step(s, ReadAction(w)); Leads(t, w, id) && t.jobs == s.jobs
  {
    OwnStepLeads(s, ReadAction(w), w, id);
  }

  lemma {:induction false} CommitLeads(s: World, w: Worker, id: JobId)
    requires Good(s, id) && Leads(s, w, id) && LocalOf(s, w).Reading? && LocalOf(s, w).job == id
    ensures IsPaged(s.jobs, id)
    ensures var t := Step(s, CommitAction(w)); Leads(t, w, id) && t.jobs[id] == PageDone(s.jobs[id])
  {
    assert LocalAgrees(s, id, w);
    hide PagesInOrder, LocalAgrees;
    OwnStepLeads(s, CommitAction(w), w, id);
  }

  /** The body of the page loop: one transaction that commits, or raises. Others commit
      between its read and its own commit. */
  method OnePage(db: Database, id: JobId, w: Worker, s: Schedule, k: nat) returns (raised: bool, done: bool)
    requires db.Valid() && Good(db.Now(), id) && IsPaged(db.store.jobs, id)
    requires LocalOf(db.Now(), w) == Working(id, false)
    modifies db, db.store
    ensures db.Valid() && old(db.history) <= db.history && Good(db.Now(), id) && IsPaged(db.store.jobs, id)
    ensures LocalOf(db.Now(), w) == (if raised then Failing(id) else Working(id, done))
    ensures !raised ==> 0 <= Remaining(db.store.jobs, id) < Remaining(old(db.store.jobs), id)
    ensures old(Leads(db.Now(), w, id)) && Quiet(s, id) ==>
              && Leads(db.Now(), w, id) && (raised <==> s.throws(2 * k) || s.throws(2 * k + 1))
              && db.store.jobs[id] == if raised then old(db.store.jobs[id]) else PageDone(old(db.store.jobs[id]))
  {
    hide Good, Database.Valid, Remaining, Foreign, After, Legal, Leads;
    ghost var led := Leads(db.Now(), w, id) && Quiet(s, id);
    ghost var row := db.store.jobs[id];
    done := false;
    if s.throws(2 * k) {
      Fail(db, id, w);
      return true, false;
    }
    StepGood(db.Now(), ReadAction(w), id);
    if led { ReadLeads(db.Now(), w, id); }
    var page, totalPages := db.ReadPage(id, w);
    ghost var read := db.Now();
    assert read.jobs == old(db.store.jobs);
    LetOthers(db, s.others(2 * k + 1), w, id);
    RemainingShrinks(read, db.Now(), w, id);
    hide Step;
    if s.throws(2 * k + 1) {
      Fail(db, id, w);
      return true, false;
    }
    StepGood(db.Now(), CommitAction(w), id);
    PageProgress(db.Now(), w, id);
    if led { CommitLeads(db.Now(), w, id); }
    raised, done := db.CommitPage(id, w, page, totalPages);
  }

  /** A leading worker's `done` is the row's. */
  lemma {:induction false} DoneIs(s: World, w: Worker, id: JobId, done: bool)
    requires Good(s, id) && Leads(s, w, id) && IsPaged(s.jobs, id) && LocalOf(s, w) == Working(id, done)
    ensures 0 <= Remaining(s.jobs, id) && (done <==> Remaining(s.jobs, id) == 0)
  {
    assert LocalAgrees(s, id, w);
    hide PagesOf, LocalAgrees;
  }

  lemma {:induction false} PageDoneCounts(t: Table, u: Table, id: JobId)
    requires IsPaged(t, id) && id in u && u[id] == PageDone(t[id])
    ensures Remaining(u, id) == Remaining(t, id) - 1 && Progressed(t[id], u[id])
  {
  }

  /** The loop of a `paged_echo` job, starting with the local `done` the claim gave it. */
  method PagedLoop(db: Database, id: JobId, w: Worker, s: Schedule) returns (raised: bool)
    requires db.Valid() && Good(db.Now(), id) && IsPaged(db.store.jobs, id)
    requires LocalOf(db.Now(), w).Working? && LocalOf(db.Now(), w).job == id
    modifies db, db.store
    ensures db.Valid() && old(db.history) <= db.history && Good(db.Now(), id) && id in db.store.jobs
    ensures LocalOf(db.Now(), w) == (if raised then Failing(id) else Working(id, true))
    ensures old(Leads(db.Now(), w, id)) && Quiet(s, id) ==>
              && Leads(db.Now(), w, id) && Progressed(old(db.store.jobs[id]), db.store.jobs[id])
              && (raised <==> ThrowsBefore(s, 2 * old(Remaining(db.store.jobs, id))))
  {
    hide Good, Database.Valid, Remaining, Step, Foreign, After, Legal, Leads, PageDone, Quiet;
    var k: nat := 0;
    raised := false;
    var done := LocalOf(db.Now(), w).done;
    ghost var led := Leads(db.Now(), w, id) && Quiet(s, id);
    ghost var row, total := db.store.jobs[id], Remaining(db.store.jobs, id);
    if led { DoneIs(db.Now(), w, id, done); }
    while !done && !raised
      invariant db.Valid() && old(db.history) <= db.history && Good(db.Now(), id) && IsPaged(db.store.jobs, id)
      invariant LocalOf(db.Now(), w) == (if raised then Failing(id) else Working(id, done))
      invariant led ==> Leads(db.Now(), w, id) && Progressed(row, db.store.jobs[id])
      invariant led && !raised ==> Remaining(db.store.jobs, id) == total - k && !ThrowsBefore(s, 2 * k)
      invariant led && !raised ==> (done <==> k == total)
      invariant led && raised ==> ThrowsBefore(s, 2 * total)
      decreases !raised, Remaining(db.store.jobs, id)
    {
      ghost var before := db.Now();
      if led {
        DoneIs(before, w, id, false);
        assert Peaceful(s.others(2 * k), id) by { QuietAt(s, 2 * k, id); }
      }
      LetOthers(db, s.others(2 * k), w, id);
      RemainingShrinks(before, db.Now(), w, id);
      ghost var middle := db.Now();
      assert led ==> Remaining(middle.jobs, id) == total - k by { if led { SameRemaining(before, middle, id); } }
      raised, done := OnePage(db, id, w, s, k);
      if led && !raised {
        PageDoneCounts(middle.jobs, db.store.jobs, id);
        DoneIs(db.Now(), w, id, done);
      }
      k := k + 1;
    }
  }

  lemma {:induction false} QuietAt(s: Schedule, k: nat, id: JobId)
    requires Quiet(s, id)
    ensures Peaceful(s.others(k), id)
  {
  }

  lemma {:induction false} SameRemaining(s: World, t: World, id: JobId)
    requires id in s.jobs && id in t.jobs && s.jobs[id] == t.jobs[id]
    ensures Remaining(s.jobs, id) == Remaining(t.jobs, id)
  {
  }

  lemma {:induction false} BeatLeads(s: World, w: Worker, id: JobId, now: Time)
    requires Leads(s, w, id) && LocalOf(s, w) == Working(id, false) && IsCheck(s.jobs, id)
    ensures var t := Step(s, BeatAction(w, now, LEASE_SECONDS));
            && Leads(t, w, id) && t.jobs[id] == s.jobs[id].(expires := Some(now + LEASE_SECONDS))
            && LocalOf(t, w) == Working(id, false)
  {
    OwnStepLeads(s, BeatAction(w, now, LEASE_SECONDS), w, id);
  }

  lemma {:induction false} CheckDoneLeads(s: World, w: Worker, id: JobId)
    requires Leads(s, w, id) && LocalOf(s, w) == Working(id, false) && IsCheck(s.jobs, id)
    ensures var t := Step(s, CheckDoneAction(w));
            && Leads(t, w, id) && t.jobs[id] == s.jobs[id].(checkpoint := Checkpoint(0, true))
            && LocalOf(t, w) == Working(id, true)
  {
    OwnStepLeads(s, CheckDoneAction(w), w, id);
  }

  /** One heartbeat, after the others' transactions: does the branch raise there? */
  method OneBeat(db: Database, id: JobId, w: Worker, s: Schedule, k: nat) returns (raised: bool)
    requires db.Valid() && Good(db.Now(), id) && IsCheck(db.store.jobs, id)
    requires LocalOf(db.Now(), w) == Working(id, false)
    modifies db, db.store
    ensures db.Valid() && old(db.history) <= db.history && Good(db.Now(), id) && IsCheck(db.store.jobs, id)
    ensures LocalOf(db.Now(), w) == (if raised then Failing(id) else Working(id, false))
    ensures !raised ==> Own(db.history, w) == old(Own(db.history, w)) + [BeatAction(w, s.clock(k), LEASE_SECONDS)]
    ensures old(Leads(db.Now(), w, id)) && Quiet(s, id) ==>
              && Leads(db.Now(), w, id) && (raised <==> s.throws(k))
              && db.store.jobs[id] ==
                 if raised then old(db.store.jobs[id])
                 else old(db.store.jobs[id]).(expires := Some(s.clock(k) + LEASE_SECONDS))
  {
    hide Good, Database.Valid, Foreign, After, Legal, Leads, Quiet, Own;
    ghost var led := Leads(db.Now(), w, id) && Quiet(s, id);
    if led { QuietAt(s, k, id); }
    LetOthers(db, s.others(k), w, id);
    if s.throws(k) {
      Fail(db, id, w);
      return true;
    }
    ghost var before := db.Now();
    StepGood(before, BeatAction(w, s.clock(k), LEASE_SECONDS), id);
    if led { BeatLeads(before, w, id, s.clock(k)); }
    OwnNext(db.history, BeatAction(w, s.clock(k), LEASE_SECONDS), w);
    raised := db.HeartbeatTransaction(id, w, s.clock(k), LEASE_SECONDS);
  }

  /** The final checkpoint of the branch, likewise. */
  method FinalCheckpoint(db: Database, id: JobId, w: Worker, s: Schedule) returns (raised: bool)
    requires db.Valid() && Good(db.Now(), id) && IsCheck(db.store.jobs, id)
    requires LocalOf(db.Now(), w) == Working(id, false)
    modifies db, db.store
    ensures db.Valid() && old(db.history) <= db.history && Good(db.Now(), id) && id in db.store.jobs
    ensures LocalOf(db.Now(), w) == (if raised then Failing(id) else Working(id, true))
    ensures !raised ==> Own(db.history, w) == old(Own(db.history, w)) + [CheckDoneAction(w)]
    ensures old(Leads(db.Now(), w, id)) && Quiet(s, id) ==>
              && Leads(db.Now(), w, id) && (raised <==> s.throws(s.beats))
              && Progressed(old(db.store.jobs[id]), db.store.jobs[id])
  {
    hide Good, Database.Valid, Foreign, After, Legal, Leads, Quiet, Own;
    ghost var led := Leads(db.Now(), w, id) && Quiet(s, id);
    if led { QuietAt(s, s.beats, id); }
    LetOthers(db, s.others(s.beats), w, id);
    if s.throws(s.beats) {
      Fail(db, id, w);
      return true;
    }
    StepGood(db.Now(), CheckDoneAction(w), id);
    if led { CheckDoneLeads(db.Now(), w, id); }
    OwnNext(db.history, CheckDoneAction(w), w);
    raised := db.CheckDoneTransaction(id, w);
  }

  /** The branch of a `tender_change_check` job: heartbeats in their own transactions, then
      the final checkpoint. */
  method CheckBranch(db: Database, id: JobId, w: Worker, s: Schedule) returns (raised: bool)
    requires db.Valid() && Good(db.Now(), id) && IsCheck(db.store.jobs, id)
    requires LocalOf(db.Now(), w) == Working(id, false)
    modifies db, db.store
    ensures db.Valid() && old(db.history) <= db.history && Good(db.Now(), id) && id in db.store.jobs
    ensures LocalOf(db.Now(), w) == (if raised then Failing(id) else Working(id, true))
    ensures !raised ==> Own(db.history, w) == old(Own(db.history, w)) + Beats(s, w, s.beats) + [CheckDoneAction(w)]
    ensures old(Leads(db.Now(), w, id)) && Quiet(s, id) ==>
              && Leads(db.Now(), w, id) && Progressed(old(db.store.jobs[id]), db.store.jobs[id])
              && (raised <==> ThrowsBefore(s, s.beats + 1))
  {
    hide Good, Database.Valid, Foreign, After, Legal, Leads, Quiet, Own, Step, LocalOf;
    ghost var led := Leads(db.Now(), w, id) && Quiet(s, id);
    ghost var row := db.store.jobs[id];
    raised := false;
    for k := 0 to s.beats
      invariant db.Valid() && old(db.history) <= db.history && Good(db.Now(), id) && IsCheck(db.store.jobs, id)
      invariant LocalOf(db.Now(), w) == Working(id, false) && !raised
      invariant Own(db.history, w) == old(Own(db.history, w)) + Beats(s, w, k)
      invariant led ==> Leads(db.Now(), w, id) && Progressed(row, db.store.jobs[id]) && !ThrowsBefore(s, k)
    {
      raised := OneBeat(db, id, w, s, k);
      if raised {
        return;
      }
      assert Beats(s, w, k + 1) == Beats(s, w, k) + [BeatAction(w, s.clock(k), LEASE_SECONDS)];
    }
    raised := FinalCheckpoint(db, id, w, s);
  }

  const LEASE_SECONDS: nat := 30

  /** What the read of `fail_retry` tells a leading worker. */
  ghost predicate SeesRow(s: World, w: Worker, id: JobId) {
    && id in s.jobs && LocalOf(s, w).Retrying?
    && LocalOf(s, w).seen == Seen(id, s.jobs[id].attempt, s.jobs[id].maxAttempts, s.jobs[id].expires)
  }

  lemma {:induction false} RetryReadLeads(s: World, w: Worker, id: JobId)
    requires Leads(s, w, id) && LocalOf(s, w) == Failing(id)
    ensures var t := Step(s, RetryReadAction(w)); Leads(t, w, id) && t.jobs == s.jobs && SeesRow(t, w, id)
  {
    OwnStepLeads(s, RetryReadAction(w), w, id);
  }

  lemma {:induction false} RetryWriteGives(s: World, w: Worker, id: JobId, now: Time, backoff: nat)
    requires SeesRow(s, w, id) && backoff == BackoffSeconds(s.jobs[id].attempt + 1)
    ensures var t := Step(s, RetryWriteAction(w, now, backoff));
            id in t.jobs && GivenBack(s.jobs[id], t.jobs[id], now)
  {
    hide BackoffSeconds;
  }

  /** The exception handler: a worker that still leads the job gives it back. */
  method HandleException(db: Database, id: JobId, w: Worker, tail: Schedule)
    requires db.Valid() && Good(db.Now(), id) && id in db.store.jobs
    requires LocalOf(db.Now(), w) == Failing(id)
    modifies db, db.store
    ensures db.Valid() && old(db.history) <= db.history && Good(db.Now(), id)
    ensures LocalOf(db.Now(), w) == Idle
    ensures old(Leads(db.Now(), w, id)) && Quiet(tail, id) ==>
              id in db.store.jobs && GivenBack(old(db.store.jobs[id]), db.store.jobs[id], tail.clock(1))
  {
    hide Good, Database.Valid, Foreign, After, Legal, Step, Leads, Quiet, Own;
    ghost var led := Leads(db.Now(), w, id) && Quiet(tail, id);
    if led { QuietAt(tail, 1, id); QuietAt(tail, 2, id); QuietAt(tail, 3, id); }
    LetOthers(db, tail.others(1), w, id);
    // the handler's own read of the row gives the backoff
    var backoff := BackoffSeconds(db.store.jobs[id].attempt + 1);
    LetOthers(db, tail.others(2), w, id);
    StepGood(db.Now(), RetryReadAction(w), id);
    if led { RetryReadLeads(db.Now(), w, id); }
    var seen := db.RetryRead(id, w);
    if seen.Some? {
      LetOthers(db, tail.others(3), w, id);
      StepGood(db.Now(), RetryWriteAction(w, tail.clock(1), backoff), id);
      if led { RetryWriteGives(db.Now(), w, id, tail.clock(1), backoff); }
      db.RetryWrite(seen.value, w, tail.clock(1), backoff);
    }
  }

  lemma {:induction false} CompleteFinishes(s: World, w: Worker, id: JobId)
    requires Leads(s, w, id) && LocalOf(s, w) == Working(id, true)
    ensures var t := Step(s, CompleteAction(w));
            LocalOf(t, w) == Idle && id in t.jobs && Finished(s.jobs[id], t.jobs[id])
  {
  }

  /** The branch for the job's kind. */
  method RunBranch(db: Database, id: JobId, w: Worker, s: Schedule) returns (raised: bool)
    requires db.Valid() && Good(db.Now(), id) && id in db.store.jobs
    requires LocalOf(db.Now(), w).Working? && LocalOf(db.Now(), w).job == id
    requires !IsPaged(db.store.jobs, id) ==> !LocalOf(db.Now(), w).done
    modifies db, db.store
    ensures db.Valid() && old(db.history) <= db.history && Good(db.Now(), id) && id in db.store.jobs
    ensures LocalOf(db.Now(), w) == (if raised then Failing(id) else Working(id, true))
    ensures old(Leads(db.Now(), w, id)) && Quiet(s, id) ==>
              && Leads(db.Now(), w, id) && Progressed(old(db.store.jobs[id]), db.store.jobs[id])
              && (raised <==> Strikes(old(db.store.jobs[id]), s))
  {
    hide Good, Database.Valid, Leads, Quiet, Own, ThrowsBefore;
    match db.store.jobs[id].kind {
      case PagedEcho(_) => raised := PagedLoop(db, id, w, s);
      case TenderChangeCheck => raised := CheckBranch(db, id, w, s);
      case UnknownKind =>
        Fail(db, id, w);
        raised := true;
    }
  }

  /** The completion, in its own transaction. */
  method FinishJob(db: Database, id: JobId, w: Worker, tail: Schedule) returns (raised: bool)
    requires db.Valid() && Good(db.Now(), id) && id in db.store.jobs && LocalOf(db.Now(), w) == Working(id, true)
    modifies db, db.store
    ensures db.Valid() && old(db.history) <= db.history && Good(db.Now(), id) && id in db.store.jobs
    ensures LocalOf(db.Now(), w) == (if raised then Failing(id) else Idle)
    ensures old(Leads(db.Now(), w, id)) && Quiet(tail, id) ==>
              && (raised <==> tail.throws(0))
              && if raised then Leads(db.Now(), w, id) && db.store.jobs[id] == old(db.store.jobs[id])
                 else Finished(old(db.store.jobs[id]), db.store.jobs[id])
  {
    hide Good, Database.Valid, Foreign, After, Legal, Leads, Quiet, Own;
    ghost var led := Leads(db.Now(), w, id) && Quiet(tail, id);
    if led { QuietAt(tail, 0, id); }
    LetOthers(db, tail.others(0), w, id);
    if tail.throws(0) {
      Fail(db, id, w);
      return true;
    }
    StepGood(db.Now(), CompleteAction(w), id);
    if led { CompleteFinishes(db.Now(), w, id); }
    raised := db.CompleteTransaction(id, w);
  }

  lemma {:induction false} LaterOutbox(origin: World, h: seq<Action>, k: seq<Action>)
    requires Legal(origin, h) && Legal(origin, k) && h <= k
    ensures After(origin, h).outbox <= After(origin, k).outbox
    decreases |k|
  {
    if h == [] {
      OutboxGrows(origin, k);
    } else {
      LaterOutbox(Step(origin, h[0]), h[1..], k[1..]);
    }
  }

  lemma {:induction false} OutboxGrows(s: World, acts: seq<Action>)
    requires Legal(s, acts)
    ensures s.outbox <= After(s, acts).outbox
    decreases |acts|
  {
    if acts != [] {
      assert s.outbox <= Step(s, acts[0]).outbox;
      OutboxGrows(Step(s, acts[0]), acts[1..]);
    }
  }

  lemma {:induction false} SinceProgress(j: Job, k: Job, l: Job, now: Time)
    requires Progressed(j, k)
    ensures GivenBack(k, l, now) ==> GivenBack(j, l, now)
    ensures Finished(k, l) ==> Finished(j, l)
  {
  }

  lemma {:induction false} NowIs(db: Database)
    requires db.Valid()
    ensures Legal(db.origin, db.history) && After(db.origin, db.history).outbox == db.outbox
  {
  }

  lemma {:induction false} LaterIs(db: Database, origin: World, before: seq<Action>, outbox: seq<Event>)
    requires db.Valid() && db.origin == origin && Legal(origin, before) && After(origin, before).outbox == outbox
    requires before <= db.history
    ensures outbox <= db.outbox
  {
    LaterOutbox(origin, before, db.history);
  }

  /** A completed paged job has all its pages in the outbox. */
  lemma {:induction false} CompletedPages(s: World, id: JobId)
    requires Good(s, id) && IsPaged(s.jobs, id) && s.jobs[id].status == Completed
    ensures PagesOf(s.outbox, id) == FirstPages(LastPage(s.jobs[id]))
  {
  }

  /** `_process_claimed_job`: run the job's branch and complete it; on any exception give it
      back. The worker always ends up free for the next job. While it leads the job and nobody
      claims or cancels it, the job is done with all its pages unless an exception strikes,
      and is given back exactly when one does. */
  method ProcessClaimedJob(db: Database, id: JobId, w: Worker, s: Schedule, tail: Schedule)
    requires db.Valid() && Good(db.Now(), id) && id in db.store.jobs
    requires LocalOf(db.Now(), w).Working? && LocalOf(db.Now(), w).job == id
    requires !IsPaged(db.store.jobs, id) ==> !LocalOf(db.Now(), w).done
    modifies db, db.store
    ensures db.Valid() && old(db.history) <= db.history && Good(db.Now(), id)
    ensures LocalOf(db.Now(), w) == Idle
    ensures old(db.outbox) <= db.outbox
    ensures old(Leads(db.Now(), w, id)) && Quiet(s, id) && Quiet(tail, id) ==>
              && id in db.store.jobs
              && if Strikes(old(db.store.jobs[id]), s) || tail.throws(0) then
                   GivenBack(old(db.store.jobs[id]), db.store.jobs[id], tail.clock(1))
                 else
                   && Finished(old(db.store.jobs[id]), db.store.jobs[id])
                   && (IsPaged(db.store.jobs, id) ==>
                         PagesOf(db.outbox, id) == FirstPages(LastPage(db.store.jobs[id])))
  {
    hide Good, Database.Valid, Leads, Quiet, Own, Strikes, PagesOf, LastPage, Legal, After, BackoffSeconds;
    hide Progressed, GivenBack;
    ghost var led := Leads(db.Now(), w, id) && Quiet(s, id) && Quiet(tail, id);
    ghost var origin, before, outbox := db.origin, db.history, db.outbox;
    NowIs(db);
    ghost var row := db.store.jobs[id];
    var raised := RunBranch(db, id, w, s);
    ghost var done := db.store.jobs[id];
    if !raised {
      raised := FinishJob(db, id, w, tail);
    }
    if raised {
      HandleException(db, id, w, tail);
    } else if led && IsPaged(db.store.jobs, id) {
      CompletedPages(db.Now(), id);
    }
    if led { SinceProgress(row, done, db.store.jobs[id], tail.clock(1)); }
    LaterIs(db, origin, before, outbox);
  }

  /** A claim leads its job, unless another worker is still inside a `fail_retry` on it. */
  lemma {:induction false} ClaimLeads(s: World, w: Worker, id: JobId, now: Time)
    requires Enabled(s, ClaimAction(w, id, now, LEASE_SECONDS)) && forall v :: v != w ==> !RetriesOn(s, v, id)
    ensures var t := Step(s, ClaimAction(w, id, now, LEASE_SECONDS));
            && Leads(t, w, id)
            && t.jobs[id] == s.jobs[id].(status := Leased, owner := Some(w), expires := Some(now + LEASE_SECONDS))
  {
    var t := Step(s, ClaimAction(w, id, now, LEASE_SECONDS));
    forall v | v != w ensures !RetriesOn(t, v, id) { assert !RetriesOn(s, v, id); }
  }

  /** The claimed row and the row it was claimed from need the same of the worker. */
  lemma {:induction false} SinceClaim(j: Job, k: Job, l: Job, s: Schedule, now: Time)
    requires k == j.(status := k.status, owner := k.owner, expires := k.expires)
    ensures Strikes(j, s) <==> Strikes(k, s)
    ensures GivenBack(k, l, now) ==> GivenBack(j, l, now)
    ensures Finished(k, l) ==> Finished(j, l)
  {
  }

  /** `run_once`: claim at most one job and process it; `job` is the one claimed. */
  method RunOnce(db: Database, w: Worker, locked: set<JobId>, s: Schedule, tail: Schedule)
    returns (claimed: bool, ghost job: JobId)
    requires db.Valid() && db.origin == START && LocalOf(db.Now(), w) == Idle
    modifies db, db.store
    ensures db.Valid() && old(db.history) <= db.history && LocalOf(db.Now(), w) == Idle
    ensures !claimed ==> db.Now() == old(db.Now())
    ensures claimed <==>
              exists k :: k in old(db.store.jobs) && k !in locked && Claimable(old(db.store.jobs)[k], s.clock(0))
    ensures claimed ==>
              && job in old(db.store.jobs) && job !in locked && Claimable(old(db.store.jobs)[job], s.clock(0))
              && forall k :: k in old(db.store.jobs) && k !in locked && Claimable(old(db.store.jobs)[k], s.clock(0)) ==>
                               old(db.store.jobs)[job].createdAt <= old(db.store.jobs)[k].createdAt
    ensures claimed && old(forall v :: v != w ==> !RetriesOn(db.Now(), v, job)) && Quiet(s, job) && Quiet(tail, job) ==>
              && job in db.store.jobs
              && if Strikes(old(db.store.jobs[job]), s) || tail.throws(0) then
                   GivenBack(old(db.store.jobs[job]), db.store.jobs[job], tail.clock(1))
                 else Finished(old(db.store.jobs[job]), db.store.jobs[job])
  {
    forall id: JobId ensures Good(db.Now(), id) { RunGood(START, db.history, id); }
    hide Good, Database.Valid, Foreign, After, Legal, Leads, Quiet, Own, Strikes, GivenBack, Finished, PagesOf;
    ghost var before := db.Now();
    job := 0;
    var id := db.ClaimTransaction(w, s.clock(0), LEASE_SECONDS, locked);
    claimed := id.Some?;
    if claimed {
      job := id.value;
      assert Good(before, job);
      StepGood(before, ClaimAction(w, job, s.clock(0), LEASE_SECONDS), job);
      ghost var alone := forall v :: v != w ==> !RetriesOn(before, v, job);
      if alone { ClaimLeads(before, w, job, s.clock(0)); }
      ghost var row := db.store.jobs[job];
      ProcessClaimedJob(db, id.value, w, s, tail);
      if alone && Quiet(s, job) && Quiet(tail, job) {
        SinceClaim(before.jobs[job], row, db.store.jobs[job], s, tail.clock(1));
      }
    }
  }
}
