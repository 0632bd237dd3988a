/**
  The migration runner and its ledger (packages/platform/migrations_runner.py). Hooks and
  SQL may fail anywhere; the ledger and the executed SQL survive from call to call.
*/
module Migrations {
  import opened Common

  type Version = nat
  type Digest = nat

  datatype Migration = Migration(version: Version, checksum: Digest)

  datatype CheckStatus = Passed | Failed | Skipped

  datatype LedgerRow = LedgerRow(checksum: Digest, preflight: CheckStatus, postflight: CheckStatus)

  type Ledger = map<Version, LedgerRow>

  /** What happens around one migration: a hook answers, or an exception is thrown in the
      preflight, in the SQL, in the postflight, or after the commit. */
  datatype Fate =
    | PreflightRefuses
    | PreflightThrows
    | SqlThrows
    | PostflightThrows
    | Runs(postflightOk: bool)
    | RunsThenStops(postflightOk: bool)

  predicate Commits(fate: Fate) { fate.Runs? || fate.RunsThenStops? }

  datatype Outcome =
    | Applied(versions: seq<Version>)
    | ChecksumMismatch(version: Version)
    | PreflightFailed(version: Version)
    | PostflightFailed(version: Version)
    | Interrupted(version: Version)

  /** The row the bootstrap file inserts. */
  const BOOTSTRAP_ROW: LedgerRow := LedgerRow(0, Skipped, Skipped)

  const FRESH_LEDGER: Ledger := map[0 := BOOTSTRAP_ROW]

  predicate Recorded(ledger: Ledger, v: Version) {
    v in ledger && ledger[v].preflight != Failed
  }

  function NotBootstrap(files: seq<Migration>): seq<Migration> {
    if files == [] then []
    else NotBootstrap(files[..|files| - 1]) + (if files[|files| - 1].version != 0 then [files[|files| - 1]] else [])
  }

  /** The migrations without an effective ledger row, or the first edited one. */
  function Unrecorded(ms: seq<Migration>, ledger: Ledger): seq<Migration> {
    if ms == [] then []
    else Unrecorded(ms[..|ms| - 1], ledger) + (if Recorded(ledger, ms[|ms| - 1].version) then [] else [ms[|ms| - 1]])
  }

  predicate Edited(ledger: Ledger, m: Migration) {
    Recorded(ledger, m.version) && ledger[m.version].checksum != m.checksum
  }

  ghost predicate FirstEditedAt(ms: seq<Migration>, ledger: Ledger, i: nat) {
    i < |ms| && Edited(ledger, ms[i]) && forall j :: 0 <= j < i ==> !Edited(ledger, ms[j])
  }

  /** `v` is the version of the first edited migration. */
  ghost predicate FirstEdited(ms: seq<Migration>, ledger: Ledger, v: Version) {
    exists i: nat :: FirstEditedAt(ms, ledger, i) && ms[i].version == v
  }

  /** The versions current_version's query considers. */
  function Effective(ledger: Ledger): set<Version> {
    set v | v in ledger && ledger[v].preflight != Failed && ledger[v].postflight != Failed
  }

  /** The discovered files but the bootstrap, in order. */
  lemma {:induction false} NotBootstrapPicked(files: seq<Migration>, counted: Migration -> bool) returns (at: seq<nat>)
    requires forall m :: counted(m) <==> m.version != 0
    ensures Picks(files, NotBootstrap(files), at, counted)
  {
    if files == [] {
      at := [];
    } else {
      var before := NotBootstrapPicked(files[..|files| - 1], counted);
      at := PicksNext(files, NotBootstrap(files[..|files| - 1]), before, counted);
    }
  }

  /** The migrations without a row, or whose preflight failed, in order. */
  lemma {:induction false} UnrecordedPicked(ms: seq<Migration>, ledger: Ledger, open: Migration -> bool)
    returns (at: seq<nat>)
    requires forall m :: open(m) <==> (m.version in ledger ==> ledger[m.version].preflight == Failed)
    ensures Picks(ms, Unrecorded(ms, ledger), at, open)
  {
    if ms == [] {
      at := [];
    } else {
      var before := UnrecordedPicked(ms[..|ms| - 1], ledger, open);
      at := PicksNext(ms, Unrecorded(ms[..|ms| - 1], ledger), before, open);
    }
  }

  class MigrationRunner {
    var ledger: Ledger
    /** The versions whose SQL has committed, in order: what the schema actually is. */
    var executed: seq<Version>

    constructor ()
      ensures ledger == FRESH_LEDGER && executed == []
    {
      ledger := FRESH_LEDGER;
      executed := [];
    }

    function Now(): Store
      reads this
    {
      Store(ledger, executed)
    }

    method CurrentVersion() returns (v: Option<Version>)
      ensures v == None <==> Effective(ledger) == {}
      ensures v.Some? ==> v.value in Effective(ledger) && forall u :: u in Effective(ledger) ==> u <= v.value
    {
      var effective := Effective(ledger);
      if effective == {} {
        return None;
      }
      SortedElements(effective);
      var listed := Sorted(effective);
      assert listed[|listed| - 1] in listed;
      forall u | u in effective ensures u <= listed[|listed| - 1] {
        var i :| 0 <= i < |listed| && listed[i] == u;
      }
      v := Some(listed[|listed| - 1]);
    }

    method Pending(files: seq<Migration>) returns (pending: seq<Migration>, mismatch: Option<Version>)
      ensures mismatch == None <==> forall m :: m in NotBootstrap(files) ==> !Edited(ledger, m)
      ensures mismatch == None ==> pending == Unrecorded(NotBootstrap(files), ledger)
      ensures mismatch.Some? ==> FirstEdited(NotBootstrap(files), ledger, mismatch.value)
    {
      var migrations := NotBootstrap(files);
      pending := [];
      for i := 0 to |migrations|
        invariant pending == Unrecorded(migrations[..i], ledger)
        invariant forall j :: 0 <= j < i ==> !Edited(ledger, migrations[j])
      {
        var m := migrations[i];
        assert migrations[..i + 1][..i] == migrations[..i];
        assert m in migrations;
        if Recorded(ledger, m.version) {
          if ledger[m.version].checksum != m.checksum {
            assert Edited(ledger, m) && FirstEditedAt(migrations, ledger, i);
            return pending, Some(m.version);
          }
        } else {
          pending := pending + [m];
        }
      }
      assert migrations[..|migrations|] == migrations;
      mismatch := None;
    }

    /** The transaction that runs the SQL and records the version. */
    method Commit(m: Migration, postflightOk: bool)
      modifies this
      ensures Now() == Committed(old(Now()), m, postflightOk)
    {
      executed := executed + [m.version];
      ledger := ledger[m.version := LedgerRow(m.checksum, Passed, if postflightOk then Passed else Failed)];
    }

    /** One migration of the loop: `None` when it went through. */
    method ApplyOne(m: Migration, fate: Fate) returns (failure: Option<Outcome>)
      modifies this
      ensures Now() == AfterOne(old(Now()), m, fate)
      ensures failure == FailureOf(m, fate)
    {
      match fate {
        case PreflightThrows =>
          return Some(Interrupted(m.version));
        case PreflightRefuses =>
          ledger := ledger[m.version := LedgerRow(m.checksum, Failed, Skipped)];
          return Some(PreflightFailed(m.version));
        case SqlThrows =>
          return Some(Interrupted(m.version));
        case PostflightThrows =>
          return Some(Interrupted(m.version));
        case Runs(postflightOk) =>
          Commit(m, postflightOk);
          return if postflightOk then None else Some(PostflightFailed(m.version));
        case RunsThenStops(postflightOk) =>
          Commit(m, postflightOk);
          return Some(Interrupted(m.version));
      }
    }

    /** `fates` holds what happens to the k-th migration tried. */
    method ApplyAll(files: seq<Migration>, fates: nat -> Fate) returns (outcome: Outcome)
      modifies this
      ensures outcome.ChecksumMismatch? <==> exists m :: m in NotBootstrap(files) && Edited(old(ledger), m)
      ensures outcome.ChecksumMismatch? ==>
                Now() == old(Now()) && FirstEdited(NotBootstrap(files), old(ledger), outcome.version)
      ensures !outcome.ChecksumMismatch? ==>
                var tried := ApplyFrom(old(Now()), Unrecorded(NotBootstrap(files), old(ledger)), fates, 0, []);
                Now() == tried.0 && outcome == tried.1
    {
      var pending, mismatch := Pending(files);
      if mismatch.Some? {
        return ChecksumMismatch(mismatch.value);
      }
      var applied: seq<Version> := [];
      ghost var whole := ApplyFrom(Now(), pending, fates, 0, []);
      assert pending[0..] == pending;
      var i := 0;
      while i < |pending|
        invariant i <= |pending|
        invariant whole == ApplyFrom(Now(), pending[i..], fates, i, applied)
      {
        var m := pending[i];
        assert pending[i..][1..] == pending[i + 1..];
        var failure := ApplyOne(m, fates(i));
        if failure.Some? {
          return failure.value;
        }
        applied := applied + [m.version];
        i := i + 1;
      }
      outcome := Applied(applied);
    }
  }

  /** The database as the runner sees it. */
  datatype Store = Store(ledger: Ledger, executed: seq<Version>)

  function FailureOf(m: Migration, fate: Fate): Option<Outcome> {
    match fate
    case PreflightRefuses => Some(PreflightFailed(m.version))
    case Runs(ok) => if ok then None else Some(PostflightFailed(m.version))
    case _ => Some(Interrupted(m.version))
  }

  function Committed(s: Store, m: Migration, postflightOk: bool): Store {
    Store(s.ledger[m.version := LedgerRow(m.checksum, Passed, if postflightOk then Passed else Failed)],
          s.executed + [m.version])
  }

  function AfterOne(s: Store, m: Migration, fate: Fate): Store {
    if Commits(fate) then Committed(s, m, fate.postflightOk)
    else if fate.PreflightRefuses? then
      Store(s.ledger[m.version := LedgerRow(m.checksum, Failed, Skipped)], s.executed)
    else s
  }

  /** The loop over the pending migrations: stop at the first failure. */
  function ApplyFrom(s: Store, pending: seq<Migration>, fates: nat -> Fate, k: nat,
                     applied: seq<Version>): (Store, Outcome)
    decreases |pending|
  {
    if pending == [] then (s, Applied(applied))
    else
      var m := pending[0];
      var t := AfterOne(s, m, fates(k));
      if FailureOf(m, fates(k)).Some? then (t, FailureOf(m, fates(k)).value)
      else ApplyFrom(t, pending[1..], fates, k + 1, applied + [m.version])
  }

  /** One call of `apply_all`, as its postcondition states it for unedited files. */
  function Call(s: Store, files: seq<Migration>, fates: nat -> Fate): (Store, Outcome) {
    ApplyFrom(s, Unrecorded(NotBootstrap(files), s.ledger), fates, 0, [])
  }

  // ----- The committed migrations are a prefix -----

  /** Discovered in version order, the bootstrap's 0 aside. */
  ghost predicate VersionOrdered(ms: seq<Migration>) {
    && (forall i, j :: 0 <= i < j < |ms| ==> ms[i].version < ms[j].version)
    && (forall i :: 0 <= i < |ms| ==> ms[i].version != 0)
  }

  /** The first `n` of `ms` have been executed, once each and in order; the ledger says
      preflight passed for exactly these, with their checksums. */
  ghost predicate CommittedPrefix(s: Store, ms: seq<Migration>, n: nat) {
    && n <= |ms| && |s.executed| == n
    && (forall i :: 0 <= i < n ==> s.executed[i] == ms[i].version)
    && (forall v :: v in s.executed <==> v in s.ledger && s.ledger[v].preflight == Passed)
    && (forall i :: 0 <= i < n ==> ms[i].version in s.ledger && s.ledger[ms[i].version].checksum == ms[i].checksum)
    && (forall v :: v in s.ledger && s.ledger[v].preflight == Skipped ==> v == 0)
    && 0 in s.ledger && s.ledger[0] == BOOTSTRAP_ROW
  }

  lemma {:induction false} RecordedIffExecuted(s: Store, ms: seq<Migration>, n: nat, i: nat)
    requires VersionOrdered(ms) && CommittedPrefix(s, ms, n) && i < |ms|
    ensures Recorded(s.ledger, ms[i].version) <==> i < n
  {
    var v := ms[i].version;
    if v in s.executed {
      var j :| 0 <= j < n && s.executed[j] == v;
      assert ms[j].version == v;
    }
    if i < n { assert s.executed[i] == v; }
  }

  /** What is pending is what has not been committed. */
  lemma {:induction false} PendingIsTheRest(s: Store, ms: seq<Migration>, n: nat, k: nat)
    requires VersionOrdered(ms) && CommittedPrefix(s, ms, n) && k <= |ms|
    ensures Unrecorded(ms[..k], s.ledger) == if k <= n then [] else ms[n..k]
    decreases k
  {
    if k > 0 {
      PendingIsTheRest(s, ms, n, k - 1);
      RecordedIffExecuted(s, ms, n, k - 1);
      hide CommittedPrefix, VersionOrdered, Recorded;
      assert ms[..k][..k - 1] == ms[..k - 1];
      if k > n { assert ms[n..k] == ms[n..k - 1] + [ms[k - 1]]; }
    }
  }

  /** Files that were only appended to never count as edited. */
  lemma {:induction false} NothingEdited(s: Store, ms: seq<Migration>, n: nat, m: Migration)
    requires VersionOrdered(ms) && CommittedPrefix(s, ms, n) && m in ms
    ensures !Edited(s.ledger, m)
  {
    var i :| 0 <= i < |ms| && ms[i] == m;
    RecordedIffExecuted(s, ms, n, i);
  }

  lemma {:induction false} StepCommits(s: Store, ms: seq<Migration>, n: nat, fate: Fate)
    requires VersionOrdered(ms) && CommittedPrefix(s, ms, n) && n < |ms|
    ensures CommittedPrefix(AfterOne(s, ms[n], fate), ms, if Commits(fate) then n + 1 else n)
  {
    var v := ms[n].version;
    var t := AfterOne(s, ms[n], fate);
    RecordedIffExecuted(s, ms, n, n);
    assert v !in s.executed;
    if Commits(fate) {
      assert forall u :: u in t.executed <==> u in s.executed || u == v;
    }
    forall i | 0 <= i < n ensures ms[i].version != v {}
  }

  /** What the loop leaves behind, with `n` migrations committed before and `n'` after. */
  ghost predicate LoopOutcome(s: Store, outcome: Outcome, ms: seq<Migration>, n: nat, n': nat) {
    && n <= n' <= |ms| && CommittedPrefix(s, ms, n')
    && (outcome.Applied? ==> n' == |ms|)
    && (outcome.PostflightFailed? ==> n < n' && outcome.version == ms[n' - 1].version)
  }

  lemma {:induction false} LoopCommits(s: Store, ms: seq<Migration>, n: nat, fates: nat -> Fate, k: nat,
                                       applied: seq<Version>)
    returns (n': nat)
    requires VersionOrdered(ms) && CommittedPrefix(s, ms, n)
    ensures var r := ApplyFrom(s, ms[n..], fates, k, applied);
            LoopOutcome(r.0, r.1, ms, n, n') && (n < |ms| && Commits(fates(k)) ==> n < n')
    decreases |ms| - n
  {
    if n == |ms| {
      n' := n;
    } else {
      StepCommits(s, ms, n, fates(k));
      assert ms[n..][1..] == ms[n + 1..];
      if FailureOf(ms[n], fates(k)).Some? {
        n' := if Commits(fates(k)) then n + 1 else n;
      } else {
        n' := LoopCommits(AfterOne(s, ms[n], fates(k)), ms, n + 1, fates, k + 1, applied + [ms[n].version]);
      }
    }
  }

  lemma {:induction false} CallCommits(s: Store, files: seq<Migration>, n: nat, fates: nat -> Fate) returns (n': nat)
    requires VersionOrdered(NotBootstrap(files)) && CommittedPrefix(s, NotBootstrap(files), n)
    ensures var r := Call(s, files, fates);
            LoopOutcome(r.0, r.1, NotBootstrap(files), n, n')
    ensures n < |NotBootstrap(files)| && Commits(fates(0)) ==> n < n'
  {
    var ms := NotBootstrap(files);
    PendingIsTheRest(s, ms, n, |ms|);
    assert ms[..|ms|] == ms && ms[n..|ms|] == ms[n..];
    n' := LoopCommits(s, ms, n, fates, 0, []);
  }

  // ----- What one call reports and records -----

  function Versions(ms: seq<Migration>): (vs: seq<Version>)
    ensures |vs| == |ms| && forall i :: 0 <= i < |ms| ==> vs[i] == ms[i].version
  {
    seq(|ms|, i requires 0 <= i < |ms| => ms[i].version)
  }

  /** After `done` went through: executed in order, each with a row that passed both checks; all
      other rows are as they were. */
  ghost predicate WentThrough(s: Store, t: Store, done: seq<Migration>) {
    && t.executed == s.executed + Versions(done)
    && (forall m :: m in done ==> m.version in t.ledger && t.ledger[m.version] == LedgerRow(m.checksum, Passed, Passed))
    && (forall v :: v !in Versions(done) ==> (v in t.ledger <==> v in s.ledger))
    && (forall v :: v !in Versions(done) && v in s.ledger && v in t.ledger ==> t.ledger[v] == s.ledger[v])
  }

  lemma {:induction false} OneThrough(s: Store, t: Store, done: seq<Migration>, m: Migration)
    requires WentThrough(s, t, done) && m.version !in Versions(done)
    ensures WentThrough(s, AfterOne(t, m, Runs(true)), done + [m])
  {
    assert Versions(done + [m]) == Versions(done) + [m.version];
    forall d | d in done ensures d.version in Versions(done) {
      var i :| 0 <= i < |done| && done[i] == d;
      assert Versions(done)[i] == d.version;
    }
  }

  lemma {:induction false} ApplyNext(t: Store, pending: seq<Migration>, fates: nat -> Fate, k: nat,
                                     applied: seq<Version>)
    requires pending != [] && fates(k) == Runs(true)
    ensures ApplyFrom(t, pending, fates, k, applied) ==
            ApplyFrom(AfterOne(t, pending[0], Runs(true)), pending[1..], fates, k + 1, applied + [pending[0].version])
  {
  }

  lemma {:induction false} VersionsNext(ms: seq<Migration>, i: nat)
    requires VersionOrdered(ms) && i < |ms|
    ensures Versions(ms[..i + 1]) == Versions(ms[..i]) + [ms[i].version]
    ensures ms[i].version !in Versions(ms[..i])
    ensures ms[..i + 1] == ms[..i] + [ms[i]] && ms[i..][1..] == ms[i + 1..]
  {
  }

  /** The first `i` pending migrations go through. */
  lemma {:induction false} ThroughFirst(s: Store, pending: seq<Migration>, fates: nat -> Fate, i: nat)
    returns (t: Store)
    requires VersionOrdered(pending) && i <= |pending| && forall j: nat :: j < i ==> fates(j) == Runs(true)
    ensures WentThrough(s, t, pending[..i])
    ensures ApplyFrom(s, pending, fates, 0, []) == ApplyFrom(t, pending[i..], fates, i, Versions(pending[..i]))
  {
    hide ApplyFrom, AfterOne, WentThrough, Versions, VersionOrdered;
    if i == 0 {
      t := s;
      assert pending[0..] == pending && pending[..0] == [];
      NoneThrough(s);
    } else {
      var u := ThroughFirst(s, pending, fates, i - 1);
      t := AfterOne(u, pending[i - 1], Runs(true));
      VersionsNext(pending, i - 1);
      OneThrough(s, u, pending[..i - 1], pending[i - 1]);
      ApplyNext(u, pending[i - 1..], fates, i - 1, Versions(pending[..i - 1]));
    }
  }

  lemma {:induction false} NoneThrough(s: Store)
    ensures WentThrough(s, s, []) && Versions([]) == []
  {
  }

  /** What a call makes of the migration at which it stops. */
  ghost predicate StopsAt(t: Store, u: Store, m: Migration, fate: Fate, outcome: Outcome) {
    match fate
    case PreflightRefuses =>
      && outcome == PreflightFailed(m.version) && u.executed == t.executed
      && u.ledger == t.ledger[m.version := LedgerRow(m.checksum, Failed, Skipped)]
    case PreflightThrows => outcome == Interrupted(m.version) && u == t
    case SqlThrows => outcome == Interrupted(m.version) && u == t
    case PostflightThrows => outcome == Interrupted(m.version) && u == t
    case Runs(ok) =>
      && !ok && outcome == PostflightFailed(m.version) && u.executed == t.executed + [m.version]
      && u.ledger == t.ledger[m.version := LedgerRow(m.checksum, Passed, Failed)]
    case RunsThenStops(ok) =>
      && outcome == Interrupted(m.version) && u.executed == t.executed + [m.version]
      && u.ledger == t.ledger[m.version := LedgerRow(m.checksum, Passed, if ok then Passed else Failed)]
  }

  lemma {:induction false} ApplyStops(t: Store, pending: seq<Migration>, fates: nat -> Fate, k: nat,
                                      applied: seq<Version>)
    requires pending != [] && fates(k) != Runs(true)
    ensures var r := ApplyFrom(t, pending, fates, k, applied); StopsAt(t, r.0, pending[0], fates(k), r.1)
  {
  }

  lemma {:induction false} ApplyEnds(t: Store, fates: nat -> Fate, k: nat, applied: seq<Version>)
    ensures ApplyFrom(t, [], fates, k, applied) == (t, Applied(applied))
  {
  }

  /** A call with the first `n` migrations committed tries the ones after them. */
  lemma {:induction false} CallTries(s: Store, files: seq<Migration>, n: nat, fates: nat -> Fate)
    requires VersionOrdered(NotBootstrap(files)) && CommittedPrefix(s, NotBootstrap(files), n)
    ensures n <= |NotBootstrap(files)|
    ensures Call(s, files, fates) == ApplyFrom(s, NotBootstrap(files)[n..], fates, 0, [])
  {
    hide NotBootstrap, Unrecorded, ApplyFrom, VersionOrdered;
    var ms := NotBootstrap(files);
    PendingIsTheRest(s, ms, n, |ms|);
    assert ms[..|ms|] == ms && ms[n..|ms|] == ms[n..] && (n == |ms| ==> ms[n..] == []);
  }

  lemma {:induction false} OrderedRest(ms: seq<Migration>, n: nat)
    requires VersionOrdered(ms) && n <= |ms|
    ensures VersionOrdered(ms[n..])
  {
  }

  lemma {:induction false} TriedReports(s: Store, pending: seq<Migration>, fates: nat -> Fate, i: nat)
    returns (t: Store)
    requires VersionOrdered(pending) && i <= |pending| && forall j: nat :: j < i ==> fates(j) == Runs(true)
    ensures WentThrough(s, t, pending[..i])
    ensures var r := ApplyFrom(s, pending, fates, 0, []);
            if i == |pending| then r == (t, Applied(Versions(pending)))
            else fates(i) != Runs(true) ==> StopsAt(t, r.0, pending[i], fates(i), r.1)
  {
    hide WentThrough, ApplyFrom, StopsAt, Versions, VersionOrdered;
    t := ThroughFirst(s, pending, fates, i);
    if i == |pending| {
      assert pending[..i] == pending && pending[i..] == [];
      ApplyEnds(t, fates, i, Versions(pending));
    } else if fates(i) != Runs(true) {
      assert pending[i..][0] == pending[i];
      ApplyStops(t, pending[i..], fates, i, Versions(pending[..i]));
    }
  }

  /** A call puts the pending migrations through in order, up to the first whose hooks or SQL do
      not let it. It returns their versions when all go through; otherwise it names the one it
      stopped at, with the row that tells how far that one got. */
  lemma {:induction false} CallReports(s: Store, files: seq<Migration>, n: nat, fates: nat -> Fate, i: nat)
    returns (t: Store)
    requires VersionOrdered(NotBootstrap(files)) && CommittedPrefix(s, NotBootstrap(files), n)
    requires n + i <= |NotBootstrap(files)| && forall j: nat :: j < i ==> fates(j) == Runs(true)
    ensures WentThrough(s, t, NotBootstrap(files)[n..n + i])
    ensures var ms, r := NotBootstrap(files), Call(s, files, fates);
            if n + i == |ms| then r == (t, Applied(Versions(ms[n..])))
            else fates(i) != Runs(true) ==> StopsAt(t, r.0, ms[n + i], fates(i), r.1)
  {
    hide NotBootstrap, CommittedPrefix, WentThrough, ApplyFrom, StopsAt, Versions, VersionOrdered, Call;
    var ms := NotBootstrap(files);
    CallTries(s, files, n, fates);
    OrderedRest(ms, n);
    t := TriedReports(s, ms[n..], fates, i);
    assert ms[n..][..i] == ms[n..n + i];
  }

  // ----- Sequences of calls -----

  datatype CallIn = CallIn(files: seq<Migration>, fates: nat -> Fate)

  /** From call to call the file list is only appended to, in version order. */
  ghost predicate AppendedTo(calls: seq<CallIn>) {
    && (forall i :: 0 <= i < |calls| ==> VersionOrdered(NotBootstrap(calls[i].files)))
    && (forall i :: 0 < i < |calls| ==> calls[i - 1].files <= calls[i].files)
  }

  function RunCalls(calls: seq<CallIn>): Store {
    if calls == [] then Store(FRESH_LEDGER, [])
    else
      var c := calls[|calls| - 1];
      Call(RunCalls(calls[..|calls| - 1]), c.files, c.fates).0
  }

  function LastFiles(calls: seq<CallIn>): seq<Migration> {
    if calls == [] then [] else calls[|calls| - 1].files
  }

  lemma {:induction false} NotBootstrapPrefix(files: seq<Migration>, more: seq<Migration>)
    requires files <= more
    ensures NotBootstrap(files) <= NotBootstrap(more)
    decreases |more|
  {
    if files != more {
      assert files <= more[..|more| - 1];
      NotBootstrapPrefix(files, more[..|more| - 1]);
    }
  }

  /** After any calls, whatever the hooks and the SQL did: the executed migrations are a
      prefix of the discovered ones, each run once, and are exactly those the ledger
      records with preflight `passed`. */
  lemma {:induction false} ExecutedIsPrefix(calls: seq<CallIn>) returns (n: nat)
    requires AppendedTo(calls)
    ensures CommittedPrefix(RunCalls(calls), NotBootstrap(LastFiles(calls)), n)
    ensures VersionOrdered(NotBootstrap(LastFiles(calls)))
  {
    if calls == [] {
      n := 0;
    } else {
      var before := calls[..|calls| - 1];
      var c := calls[|calls| - 1];
      n := ExecutedIsPrefix(before);
      assert LastFiles(before) <= c.files;
      NotBootstrapPrefix(LastFiles(before), c.files);
      n := CallCommits(RunCalls(before), c.files, n, c.fates);
    }
  }

  /** Such calls never meet a checksum mismatch. */
  lemma {:induction false} NoMismatch(calls: seq<CallIn>, files: seq<Migration>, m: Migration)
    requires AppendedTo(calls) && LastFiles(calls) <= files && VersionOrdered(NotBootstrap(files))
    requires m in NotBootstrap(files)
    ensures !Edited(RunCalls(calls).ledger, m)
  {
    var n := ExecutedIsPrefix(calls);
    NotBootstrapPrefix(LastFiles(calls), files);
    NothingEdited(RunCalls(calls), NotBootstrap(files), n, m);
  }

  /** With everything committed, a call applies nothing. */
  lemma {:induction false} NothingLeft(s: Store, files: seq<Migration>, fates: nat -> Fate)
    requires VersionOrdered(NotBootstrap(files)) && CommittedPrefix(s, NotBootstrap(files), |NotBootstrap(files)|)
    ensures Call(s, files, fates) == (s, Applied([]))
  {
    hide CommittedPrefix, VersionOrdered, NotBootstrap, Unrecorded;
    var ms := NotBootstrap(files);
    PendingIsTheRest(s, ms, |ms|, |ms|);
    assert ms[..|ms|] == ms;
  }

  function LastOutcome(calls: seq<CallIn>): Outcome
    requires calls != []
  {
    Call(RunCalls(calls[..|calls| - 1]), LastFiles(calls), calls[|calls| - 1].fates).1
  }

  /** What the last of some calls did. */
  lemma {:induction false} LastCallCommits(calls: seq<CallIn>) returns (n: nat, n': nat)
    requires AppendedTo(calls) && calls != []
    ensures VersionOrdered(NotBootstrap(LastFiles(calls)))
    ensures LoopOutcome(RunCalls(calls), LastOutcome(calls), NotBootstrap(LastFiles(calls)), n, n')
  {
    var before := calls[..|calls| - 1];
    var files := LastFiles(calls);
    assert VersionOrdered(NotBootstrap(files)) && LastFiles(before) <= files && AppendedTo(before);
    hide CommittedPrefix, VersionOrdered, NotBootstrap, Call, AppendedTo;
    n := ExecutedIsPrefix(before);
    NotBootstrapPrefix(LastFiles(before), files);
    PrefixGrows(RunCalls(before), NotBootstrap(LastFiles(before)), NotBootstrap(files), n);
    n' := CallCommits(RunCalls(before), files, n, calls[|calls| - 1].fates);
  }

  /** After a call that returned normally, calling again with the same files applies nothing. */
  lemma {:induction false} SecondCallIsNoOp(calls: seq<CallIn>, again: nat -> Fate)
    requires AppendedTo(calls) && calls != [] && LastOutcome(calls).Applied?
    ensures Call(RunCalls(calls), LastFiles(calls), again) == (RunCalls(calls), Applied([]))
  {
    hide CommittedPrefix, VersionOrdered, NotBootstrap, Call, AppendedTo, RunCalls, LastOutcome, LastFiles;
    var n, n' := LastCallCommits(calls);
    NothingLeft(RunCalls(calls), LastFiles(calls), again);
  }

  lemma {:induction false} PrefixGrows(s: Store, ms: seq<Migration>, more: seq<Migration>, n: nat)
    requires CommittedPrefix(s, ms, n) && ms <= more
    ensures CommittedPrefix(s, more, n)
  {
  }

  // ----- What halts -----

  /** Whatever the hooks and the SQL do, a call commits nothing. */
  ghost predicate Halted(s: Store, files: seq<Migration>) {
    forall fates :: Call(s, files, fates).0.executed == s.executed
  }

  /** The runner is halted exactly when every discovered migration has been committed. */
  lemma {:induction false} HaltedIff(s: Store, files: seq<Migration>, n: nat)
    requires VersionOrdered(NotBootstrap(files)) && CommittedPrefix(s, NotBootstrap(files), n)
    ensures Halted(s, files) <==> n == |NotBootstrap(files)|
  {
    if n == |NotBootstrap(files)| {
      forall fates ensures Call(s, files, fates).0.executed == s.executed { NothingLeft(s, files, fates); }
    } else {
      var willing := (i: nat) => Runs(true);
      var n' := CallCommits(s, files, n, willing);
      assert |Call(s, files, willing).0.executed| == n';
    }
  }

  lemma {:induction false} LastVersion(ms: seq<Migration>, n: nat)
    requires VersionOrdered(ms) && 0 < n <= |ms|
    ensures ms[n - 1].version == ms[|ms| - 1].version <==> n == |ms|
  {
  }

  /** A failed postflight halts the runner exactly when the version it names is the last one:
      otherwise the next call, on the same files, can commit further migrations. */
  lemma {:induction false} PostflightFailureHaltsIff(calls: seq<CallIn>, v: Version)
    requires AppendedTo(calls) && calls != [] && LastOutcome(calls) == PostflightFailed(v)
    ensures var ms := NotBootstrap(LastFiles(calls));
            ms != [] && (Halted(RunCalls(calls), LastFiles(calls)) <==> v == ms[|ms| - 1].version)
  {
    hide CommittedPrefix, VersionOrdered, NotBootstrap, Call, AppendedTo, RunCalls, LastOutcome, LastFiles, Halted;
    var n, n' := LastCallCommits(calls);
    LastVersion(NotBootstrap(LastFiles(calls)), n');
    HaltedIff(RunCalls(calls), LastFiles(calls), n');
  }

  // ----- The current version -----

  ghost predicate IsCurrent(ledger: Ledger, v: Version) {
    v in Effective(ledger) && forall u :: u in Effective(ledger) ==> u <= v
  }

  /** `current_version` is the end of the committed prefix exactly when the last committed
      migration passed its postflight. */
  lemma {:induction false} CurrentIsEndIff(s: Store, ms: seq<Migration>, n: nat)
    requires VersionOrdered(ms) && CommittedPrefix(s, ms, n)
    ensures n == 0 ==> IsCurrent(s.ledger, 0)
    ensures n > 0 ==> (IsCurrent(s.ledger, ms[n - 1].version) <==> s.ledger[ms[n - 1].version].postflight != Failed)
  {
    forall u | u in Effective(s.ledger) ensures u == 0 || (n > 0 && u <= ms[n - 1].version) {
      if u != 0 {
        assert s.ledger[u].preflight == Passed;
        assert u in s.executed;
        var j :| 0 <= j < n && s.executed[j] == u;
        assert ms[j].version == u;
      }
    }
    if n > 0 { assert s.executed[n - 1] == ms[n - 1].version; }
  }

  predicate PostflightFails(fate: Fate) { Commits(fate) && !fate.postflightOk }

  ghost predicate PostflightsPass(s: Store) {
    forall v :: v in s.ledger ==> s.ledger[v].postflight != Failed
  }

  lemma {:induction false} LoopKeepsPostflights(s: Store, pending: seq<Migration>, fates: nat -> Fate, k: nat,
                                                applied: seq<Version>)
    requires PostflightsPass(s) && forall i: nat :: !PostflightFails(fates(i))
    ensures PostflightsPass(ApplyFrom(s, pending, fates, k, applied).0)
    decreases |pending|
  {
    if pending != [] && FailureOf(pending[0], fates(k)) == None {
      LoopKeepsPostflights(AfterOne(s, pending[0], fates(k)), pending[1..], fates, k + 1,
                           applied + [pending[0].version]);
    }
  }

  lemma {:induction false} RunKeepsPostflights(calls: seq<CallIn>)
    requires forall j, i: nat :: 0 <= j < |calls| ==> !PostflightFails(calls[j].fates(i))
    ensures PostflightsPass(RunCalls(calls))
  {
    if calls != [] {
      var before := calls[..|calls| - 1];
      var c := calls[|calls| - 1];
      RunKeepsPostflights(before);
      var pending := Unrecorded(NotBootstrap(c.files), RunCalls(before).ledger);
      LoopKeepsPostflights(RunCalls(before), pending, c.fates, 0, []);
    }
  }

  /** If no postflight ever fails, `current_version` is the end of the executed prefix. */
  lemma {:induction false} CurrentIsLastExecuted(calls: seq<CallIn>)
    requires AppendedTo(calls)
    requires forall j, i: nat :: 0 <= j < |calls| ==> !PostflightFails(calls[j].fates(i))
    ensures var s := RunCalls(calls);
            IsCurrent(s.ledger, if s.executed == [] then 0 else s.executed[|s.executed| - 1])
  {
    hide NotBootstrap, RunCalls, AppendedTo;
    var n := ExecutedIsPrefix(calls);
    RunKeepsPostflights(calls);
    CurrentIsEndIff(RunCalls(calls), NotBootstrap(LastFiles(calls)), n);
  }

  const TWO_FILES: seq<Migration> := [Migration(1, 10), Migration(2, 20)]

  lemma {:induction false} TwoOrdered()
    ensures VersionOrdered(TWO_FILES)
  {
  }

  lemma {:induction false} NoBootstrapInTwo()
    ensures NotBootstrap(TWO_FILES) == TWO_FILES && VersionOrdered(TWO_FILES)
  {
    hide VersionOrdered;
    TwoOrdered();
    var one := TWO_FILES[..1];
    assert one == [TWO_FILES[0]] && one[..0] == [];
    assert NotBootstrap(one) == one;
  }

  lemma {:induction false} FailingCall(s: Store, fates: nat -> Fate)
    requires CommittedPrefix(s, TWO_FILES, 0) && fates(0) == Runs(false)
    ensures Call(s, TWO_FILES, fates) == (AfterOne(s, TWO_FILES[0], Runs(false)), PostflightFailed(1))
    ensures CommittedPrefix(AfterOne(s, TWO_FILES[0], Runs(false)), TWO_FILES, 1)
  {
    hide CommittedPrefix, VersionOrdered, NotBootstrap, Unrecorded, Call, Committed;
    NoBootstrapInTwo();
    CallTries(s, TWO_FILES, 0, fates);
    StepCommits(s, TWO_FILES, 0, Runs(false));
  }

  lemma {:induction false} NextCallMovesOn(s: Store, fates: nat -> Fate)
    requires CommittedPrefix(s, TWO_FILES, 1) && fates(0) == Runs(true)
    ensures Call(s, TWO_FILES, fates) == (AfterOne(s, TWO_FILES[1], Runs(true)), Applied([2]))
    ensures CommittedPrefix(AfterOne(s, TWO_FILES[1], Runs(true)), TWO_FILES, 2)
  {
    hide CommittedPrefix, VersionOrdered, NotBootstrap, Unrecorded, Call, Committed;
    NoBootstrapInTwo();
    CallTries(s, TWO_FILES, 1, fates);
    StepCommits(s, TWO_FILES, 1, Runs(true));
    var s2 := AfterOne(s, TWO_FILES[1], Runs(true));
    assert TWO_FILES[1..][1..] == [] && [] + [TWO_FILES[1].version] == [2];
    assert ApplyFrom(s2, [], fates, 1, [2]) == (s2, Applied([2]));
  }

  /** The module's documentation says a failed postflight halts further migrations; the next
      call moves past it: it applies the following version, which becomes current. */
  lemma {:induction false} PostflightFailureDoesNotHalt(first: nat -> Fate, second: nat -> Fate)
    requires first(0) == Runs(false) && second(0) == Runs(true)
    ensures var s := Call(Store(FRESH_LEDGER, []), TWO_FILES, first);
            var t := Call(s.0, TWO_FILES, second);
            && s.1 == PostflightFailed(1)
            && t.1 == Applied([2]) && t.0.executed == [1, 2] && IsCurrent(t.0.ledger, 2)
  {
    hide Unrecorded, Call, ApplyFrom, NotBootstrap;
    var s0 := Store(FRESH_LEDGER, []);
    FailingCall(s0, first);
    var s1 := AfterOne(s0, TWO_FILES[0], Runs(false));
    NextCallMovesOn(s1, second);
    var s2 := AfterOne(s1, TWO_FILES[1], Runs(true));
    CurrentIsEndIff(s2, TWO_FILES, 2);
  }
}
