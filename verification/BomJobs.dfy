/**
  Several jobs importing the same bill at once. A page transaction reads the ledger row without
  a lock and later overwrites it with what it computed from that read
  (packages/tender/boq_completeness.py:103-147), so an overlapping one can undo an update.
*/
module BomJobs {
  import opened Common
  import opened BomImport

  /** A page transaction that has read the ledger: `counted` lists, by their position, the
      accepted versions that ledger counts. */
  datatype Begun = Begun(response: Response, ledger: Ledger, counted: seq<nat>)

  datatype Turn =
    | Begin(job: nat, response: Response)
    | Finish(job: nat)
    | Abort(job: nat)

  /** The shared rows, which accepted versions the ledger counts, the cursor of every job that
      has got anywhere, and the page transactions under way. */
  datatype Fleet = Fleet(row: Import, counted: seq<nat>, cursors: map<nat, Cursor>, begun: map<nat, Begun>)

  function CursorOf(f: Fleet, job: nat): Cursor {
    if job in f.cursors then f.cursors[job] else FRESH_CURSOR
  }

  /** Anything but a page of lines touches neither ledger nor lines. */
  function BeginTurn(f: Fleet, job: nat, r: Response): Fleet {
    var c := CursorOf(f, job);
    if c.done || job in f.begun then f
    else if r.Page? then f.(begun := f.begun[job := Begun(r, f.row.ledger, f.counted)])
    else
      var row := Advance(f.row.(cursor := c), r);
      f.(row := row, cursors := f.cursors[job := row.cursor])
  }

  /** The commit: the ledger is overwritten with what follows from the one that was read. */
  function FinishTurn(f: Fleet, job: nat): Fleet {
    if job !in f.begun then f
    else
      var b := f.begun[job];
      if !Commits(f.row, b.response) then f.(begun := f.begun - {job})
      else
        var row := Advance(f.row.(ledger := b.ledger, cursor := CursorOf(f, job)), b.response);
        Fleet(row, b.counted + [|f.row.versions|], f.cursors[job := row.cursor], f.begun - {job})
  }

  function TakeTurn(f: Fleet, t: Turn): Fleet {
    match t
    case Begin(job, r) => BeginTurn(f, job, r)
    case Finish(job) => FinishTurn(f, job)
    case Abort(job) => f.(begun := f.begun - {job})
  }

  /** The ledger row is there with nothing recorded, as a job leaves it that stalled before its
      first page. */
  const NO_TURNS: Fleet := Fleet(FRESH, [], map[], map[])

  /** Any number of jobs, one after the other, interleaved or overlapping. */
  function RunTurns(turns: seq<Turn>): Fleet {
    if turns == [] then NO_TURNS else TakeTurn(RunTurns(turns[..|turns| - 1]), turns[|turns| - 1])
  }

  ghost predicate TurnsReport(turns: seq<Turn>, T: int, N: int) {
    forall t :: t in turns && t.Begin? ==> Reports(t.response, T, N)
  }

  // ----- What every run keeps -----

  ghost predicate Positions(counted: seq<nat>, n: nat) {
    Increasing(counted) && forall i :: 0 <= i < |counted| ==> counted[i] < n
  }

  /** The counted versions. */
  function Picked(vs: seq<PageVersion>, counted: seq<nat>): (r: seq<PageVersion>)
    requires forall i :: 0 <= i < |counted| ==> counted[i] < |vs|
    ensures |r| == |counted| && forall i :: 0 <= i < |r| ==> r[i] == vs[counted[i]]
  {
    seq(|counted|, i requires 0 <= i < |counted| => vs[counted[i]])
  }

  function PageSet(vs: seq<PageVersion>): set<nat> {
    set v | v in vs :: v.page
  }

  ghost predicate PagesFit(vs: seq<PageVersion>, T: int) {
    forall v :: v in vs ==> 1 <= v.page && (v.page <= T || v.page == 1)
  }

  /** The ledger is what recording the versions `cs` would have made it. */
  ghost predicate Tells(l: Ledger, cs: seq<PageVersion>, T: int, N: int) {
    && l.fetchedPages == |cs| && l.storedLines == ClaimedLines(cs)
    && l.pageChecksums.Keys == PageSet(cs)
    && (if cs == [] then l.status == InProgress && l.expectedPages == None
        else
          && l.expectedPages == Some(T)
          && l.status == (if l.fetchedPages == T && l.storedLines == N then Complete else InProgress))
  }

  ghost predicate LedgerKept(l: Ledger, counted: seq<nat>, vs: seq<PageVersion>, T: int, N: int) {
    Positions(counted, |vs|) && Tells(l, Picked(vs, counted), T, N)
  }

  /** The stored lines are those of the accepted pages, each once. */
  ghost predicate LinesOnce(s: Import) {
    && |s.lines| == StoredRows(s.versions)
    && (forall v, k :: v in s.versions && k in v.lineIds ==> k in s.lines)
    && (forall i, j {:trigger NoneShared(s.versions, i, j)} :: 0 <= i < j < |s.versions| ==>
        NoneShared(s.versions, i, j))
  }

  ghost predicate NoneShared(vs: seq<PageVersion>, i: int, j: int)
    requires 0 <= i < j < |vs|
  {
    forall k :: k in vs[i].lineIds ==> k !in vs[j].lineIds
  }

  ghost predicate BegunKept(f: Fleet, job: nat, T: int, N: int) {
    job in f.begun ==>
      var b := f.begun[job];
      && b.response.Page? && Reports(b.response, T, N) && !CursorOf(f, job).done
      && LedgerKept(b.ledger, b.counted, f.row.versions, T, N)
  }

  ghost predicate FleetKept(f: Fleet, T: int, N: int) {
    && LedgerKept(f.row.ledger, f.counted, f.row.versions, T, N)
    && PagesFit(f.row.versions, T) && LinesOnce(f.row)
    && (forall j: nat {:trigger CursorOf(f, j)} :: CursorFits(CursorOf(f, j), T))
    && (forall j: nat {:trigger BegunKept(f, j, T, N)} :: BegunKept(f, j, T, N))
  }

  lemma {:induction false} StoredAppend(vs: seq<PageVersion>, v: PageVersion)
    ensures StoredRows(vs + [v]) == StoredRows(vs) + |v.lineIds|
  {
    assert (vs + [v])[..|vs|] == vs;
  }

  lemma {:induction false} IdsSize(ids: seq<LineId>)
    requires forall i, j :: 0 <= i < j < |ids| ==> ids[i] != ids[j]
    ensures |Ids(ids)| == |ids|
  {
    if ids != [] {
      var init, last := ids[..|ids| - 1], ids[|ids| - 1];
      IdsSize(init);
      assert Ids(ids) == Ids(init) + {last};
    }
  }

  lemma {:induction false} StoreOnce(s: Import, r: Response)
    requires LinesOnce(s) && Commits(s, r)
    ensures LinesOnce(Advance(s, r))
  {
    var v := PageVersion(s.cursor.nextPage, r.itemsInPage, r.lineIds);
    var t := Advance(s, r);
    assert t.versions == s.versions + [v] && t.lines == s.lines + Ids(v.lineIds);
    StoredAppend(s.versions, v);
    IdsSize(v.lineIds);
    assert s.lines !! Ids(v.lineIds);
    forall i, j | 0 <= i < j < |t.versions| ensures NoneShared(t.versions, i, j) {
      if j < |s.versions| {
        assert NoneShared(s.versions, i, j);
      } else {
        assert t.versions[i] in s.versions;
      }
    }
  }

  lemma {:induction false} PickedGrows(vs: seq<PageVersion>, v: PageVersion, counted: seq<nat>)
    requires Positions(counted, |vs|)
    ensures Positions(counted, |vs| + 1) && Picked(vs + [v], counted) == Picked(vs, counted)
    ensures Positions(counted + [|vs|], |vs| + 1) && Picked(vs + [v], counted + [|vs|]) == Picked(vs, counted) + [v]
  {
  }

  lemma {:induction false} TellsNext(l: Ledger, cs: seq<PageVersion>, v: PageVersion, checksum: Checksum,
                                     T: int, N: int)
    requires Tells(l, cs, T, N)
    ensures Tells(Recorded(l, v.page, v.itemsInPage, Some(N), Some(T), checksum), cs + [v], T, N)
  {
    AppendLines(cs, v);
    assert PageSet(cs + [v]) == PageSet(cs) + {v.page} by {
      assert forall u :: u in cs + [v] <==> u in cs || u == v;
    }
    hide PageSet, ClaimedLines;
  }

  /** Another version accepted: whatever a ledger counted, it still counts. */
  lemma {:induction false} LedgerStays(l: Ledger, counted: seq<nat>, vs: seq<PageVersion>, v: PageVersion,
                                       T: int, N: int)
    requires LedgerKept(l, counted, vs, T, N)
    ensures LedgerKept(l, counted, vs + [v], T, N)
  {
    PickedGrows(vs, v, counted);
  }

  lemma {:induction false} LedgerNext(l: Ledger, counted: seq<nat>, vs: seq<PageVersion>, v: PageVersion,
                                      checksum: Checksum, T: int, N: int)
    requires LedgerKept(l, counted, vs, T, N)
    ensures LedgerKept(Recorded(l, v.page, v.itemsInPage, Some(N), Some(T), checksum), counted + [|vs|], vs + [v], T, N)
  {
    PickedGrows(vs, v, counted);
    TellsNext(l, Picked(vs, counted), v, checksum, T, N);
  }

  lemma {:induction false} BeginKept(f: Fleet, job: nat, r: Response, T: int, N: int)
    requires FleetKept(f, T, N) && Reports(r, T, N)
    ensures FleetKept(BeginTurn(f, job, r), T, N)
  {
    var e := BeginTurn(f, job, r);
    assert CursorFits(CursorOf(f, job), T);
    assert e.row.versions == f.row.versions && e.row.lines == f.row.lines && e.row.ledger == f.row.ledger;
    assert LinesOnce(e.row);
    hide LedgerKept, LinesOnce, PagesFit;
    forall j: nat ensures CursorFits(CursorOf(e, j), T) { assert CursorFits(CursorOf(f, j), T); }
    forall j: nat ensures BegunKept(e, j, T, N) { assert BegunKept(f, j, T, N); }
  }

  lemma {:induction false} DropKept(f: Fleet, job: nat, T: int, N: int)
    requires FleetKept(f, T, N)
    ensures FleetKept(f.(begun := f.begun - {job}), T, N)
  {
    var e := f.(begun := f.begun - {job});
    hide LedgerKept, LinesOnce, PagesFit, CursorFits;
    forall j: nat ensures CursorFits(CursorOf(e, j), T) { assert CursorOf(e, j) == CursorOf(f, j); }
    forall j: nat ensures BegunKept(e, j, T, N) {
      assert BegunKept(f, j, T, N) && CursorOf(e, j) == CursorOf(f, j);
    }
  }

  function VersionOf(s: Import, r: Response): PageVersion
    requires r.Page?
  {
    PageVersion(s.cursor.nextPage, r.itemsInPage, r.lineIds)
  }

  lemma {:induction false} CommitRow(s: Import, r: Response, T: int, N: int)
    requires Commits(s, r) && Reports(r, T, N) && CursorFits(s.cursor, T) && !s.cursor.done
    ensures var e := Advance(s, r);
            var v := VersionOf(s, r);
            && e.versions == s.versions + [v] && CursorFits(e.cursor, T)
            && e.ledger == Recorded(s.ledger, v.page, v.itemsInPage, Some(N), Some(T), r.checksum)
            && 1 <= v.page && (v.page <= T || v.page == 1)
  {
    hide Recorded, Clashes;
  }

  lemma {:induction false} FitsMore(vs: seq<PageVersion>, v: PageVersion, T: int)
    requires PagesFit(vs, T) && 1 <= v.page && (v.page <= T || v.page == 1)
    ensures PagesFit(vs + [v], T)
  {
  }

  lemma {:induction false} FinishRow(f: Fleet, job: nat, T: int, N: int) returns (v: PageVersion)
    requires FleetKept(f, T, N) && job in f.begun && Commits(f.row, f.begun[job].response)
    ensures var e := FinishTurn(f, job);
            && e.row.versions == f.row.versions + [v]
            && LedgerKept(e.row.ledger, e.counted, e.row.versions, T, N)
            && PagesFit(e.row.versions, T) && LinesOnce(e.row)
            && CursorFits(CursorOf(e, job), T)
  {
    hide LinesOnce, Clashes, LedgerKept, PagesFit, CursorFits, Recorded, Advance, Reports;
    var b, c := f.begun[job], CursorOf(f, job);
    var row := f.row.(ledger := b.ledger, cursor := c);
    v := VersionOf(row, b.response);
    assert BegunKept(f, job, T, N) && CursorFits(c, T);
    assert LinesOnce(row) by { SameLines(f.row, row); }
    StoreOnce(row, b.response);
    CommitRow(row, b.response, T, N);
    FitsMore(f.row.versions, v, T);
    LedgerNext(b.ledger, b.counted, f.row.versions, v, b.response.checksum, T, N);
  }

  lemma {:induction false} SameLines(s: Import, t: Import)
    requires LinesOnce(s) && s.versions == t.versions && s.lines == t.lines
    ensures LinesOnce(t)
  {
  }

  lemma {:induction false} FinishKept(f: Fleet, job: nat, T: int, N: int)
    requires FleetKept(f, T, N) && job in f.begun && Commits(f.row, f.begun[job].response)
    ensures FleetKept(FinishTurn(f, job), T, N)
  {
    var e := FinishTurn(f, job);
    var v := FinishRow(f, job, T, N);
    hide LinesOnce, LedgerKept, PagesFit, Clashes, CursorFits, Reports, Advance, Recorded;
    forall j: nat ensures CursorFits(CursorOf(e, j), T) {
      assert j != job ==> CursorOf(e, j) == CursorOf(f, j);
    }
    forall j: nat ensures BegunKept(e, j, T, N) {
      assert BegunKept(f, j, T, N);
      if j in e.begun { LedgerStays(f.begun[j].ledger, f.begun[j].counted, f.row.versions, v, T, N); }
    }
  }

  lemma {:induction false} FreshKept(T: int, N: int)
    ensures FleetKept(NO_TURNS, T, N)
  {
    assert Picked([], []) == [];
  }

  lemma {:induction false} TurnsKept(turns: seq<Turn>, T: int, N: int)
    requires TurnsReport(turns, T, N)
    ensures FleetKept(RunTurns(turns), T, N)
  {
    hide FleetKept;
    if turns == [] {
      FreshKept(T, N);
    } else {
      var f, t := RunTurns(turns[..|turns| - 1]), turns[|turns| - 1];
      assert t in turns && forall u :: u in turns[..|turns| - 1] ==> u in turns;
      TurnsKept(turns[..|turns| - 1], T, N);
      match t
      case Begin(job, r) => BeginKept(f, job, r, T, N);
      case Abort(job) => DropKept(f, job, T, N);
      case Finish(job) =>
        if job in f.begun {
          if Commits(f.row, f.begun[job].response) { FinishKept(f, job, T, N); } else { DropKept(f, job, T, N); }
        }
    }
  }

  // ----- Complete, with several jobs -----

  lemma {:induction false} PickedIn(vs: seq<PageVersion>, counted: seq<nat>, v: PageVersion)
    requires Positions(counted, |vs|) && v in Picked(vs, counted)
    ensures v in vs
  {
  }

  /** Several jobs may leave the row `complete` with a page missing; when it is complete, every
      page 1..T has its checksum exactly when as many pages were counted as have one. */
  lemma {:induction false} CompleteAcrossJobsIff(turns: seq<Turn>, T: int, N: int)
    requires TurnsReport(turns, T, N) && RunTurns(turns).row.ledger.status == Complete
    ensures var l := RunTurns(turns).row.ledger;
            PageRange(T) <= l.pageChecksums.Keys <==> l.fetchedPages == |l.pageChecksums.Keys|
  {
    var f := RunTurns(turns);
    TurnsKept(turns, T, N);
    var cs := Picked(f.row.versions, f.counted);
    var keys := f.row.ledger.pageChecksums.Keys;
    assert f.row.ledger.fetchedPages == T >= 1;
    assert keys <= PageRange(T) by {
      forall p: nat | p in keys ensures p in PageRange(T) {
        var v :| v in cs && v.page == p;
        PickedIn(f.row.versions, f.counted, v);
      }
    }
    SubsetCard(keys, PageRange(T));
    if PageRange(T) <= keys {
      assert PageRange(T) == keys;
    }
  }

  ghost predicate PagesDiffer(vs: seq<PageVersion>) {
    forall i, j :: 0 <= i < j < |vs| ==> vs[i].page != vs[j].page
  }

  lemma {:induction false} PageSetSize(vs: seq<PageVersion>)
    ensures |PageSet(vs)| <= |vs| && (|PageSet(vs)| == |vs| <==> PagesDiffer(vs))
  {
    if vs != [] {
      var init, last := vs[..|vs| - 1], vs[|vs| - 1];
      PageSetSize(init);
      assert PageSet(vs) == PageSet(init) + {last.page};
      if last.page in PageSet(init) {
        var i :| 0 <= i < |init| && init[i].page == last.page;
        assert vs[i].page == vs[|vs| - 1].page;
      } else {
        forall i | 0 <= i < |init| ensures vs[i].page != last.page { assert init[i] in init; }
      }
    }
  }

  /** The versions whose updates have survived in the ledger. */
  ghost function Survivors(f: Fleet): seq<PageVersion>
    requires Positions(f.counted, |f.row.versions|)
  {
    Picked(f.row.versions, f.counted)
  }

  /** The two counts agree exactly when no two surviving updates are of the same page. */
  lemma {:induction false} CountsAgreeIff(turns: seq<Turn>, T: int, N: int)
    requires TurnsReport(turns, T, N)
    ensures var f := RunTurns(turns);
            && Positions(f.counted, |f.row.versions|)
            && (f.row.ledger.fetchedPages == |f.row.ledger.pageChecksums.Keys| <==> PagesDiffer(Survivors(f)))
  {
    TurnsKept(turns, T, N);
    PageSetSize(Survivors(RunTurns(turns)));
  }

  // ----- Lost updates -----

  function UpTo(n: nat): seq<nat> {
    if n == 0 then [] else UpTo(n - 1) + [n - 1]
  }

  /** The ledger counts every accepted version. */
  ghost predicate AllCounted(f: Fleet) { f.counted == UpTo(|f.row.versions|) }

  /** The turn, if it commits a page, overwrites the ledger it has read. */
  ghost predicate Current(f: Fleet, t: Turn) {
    t.Finish? && t.job in f.begun && Commits(f.row, f.begun[t.job].response) ==> f.begun[t.job].counted == f.counted
  }

  lemma {:induction false} CountedStep(f: Fleet, t: Turn)
    requires AllCounted(f)
    ensures AllCounted(TakeTurn(f, t)) <==> Current(f, t)
  {
    hide Clashes, Recorded, CursorOf;
    if t.Finish? && t.job in f.begun && Commits(f.row, f.begun[t.job].response) {
      var row := f.row.(ledger := f.begun[t.job].ledger, cursor := CursorOf(f, t.job));
      CommitAppends(row, f.begun[t.job].response);
      var b := f.begun[t.job].counted;
      if b + [|f.row.versions|] == f.counted + [|f.row.versions|] {
        assert b == (b + [|f.row.versions|])[..|b|];
      }
    } else {
      OthersAppendNothing(f, t);
    }
  }

  lemma {:induction false} CommitAppends(s: Import, r: Response)
    requires Commits(s, r)
    ensures |Advance(s, r).versions| == |s.versions| + 1
  {
  }

  lemma {:induction false} OthersAppendNothing(f: Fleet, t: Turn)
    requires !(t.Finish? && t.job in f.begun && Commits(f.row, f.begun[t.job].response))
    ensures TakeTurn(f, t).row.versions == f.row.versions && TakeTurn(f, t).counted == f.counted
  {
  }

  lemma {:induction false} CountedUpTo(turns: seq<Turn>, k: nat)
    requires k <= |turns| && forall i: nat :: i < k ==> Current(RunTurns(turns[..i]), turns[i])
    ensures AllCounted(RunTurns(turns[..k]))
  {
    if k == 0 {
      assert turns[..0] == [];
    } else {
      CountedUpTo(turns, k - 1);
      assert turns[..k][..k - 1] == turns[..k - 1];
      CountedStep(RunTurns(turns[..k - 1]), turns[k - 1]);
    }
  }

  /** All along a run the ledger counts every accepted version exactly when each commit still
      finds the ledger it has read: overlapping page transactions lose updates. */
  lemma {:induction false} NothingLostIff(turns: seq<Turn>)
    ensures (forall k: nat :: k <= |turns| ==> AllCounted(RunTurns(turns[..k]))) <==>
            forall i: nat :: i < |turns| ==> Current(RunTurns(turns[..i]), turns[i])
  {
    hide AllCounted, Current, TakeTurn;
    if forall i: nat :: i < |turns| ==> Current(RunTurns(turns[..i]), turns[i]) {
      forall k: nat | k <= |turns| ensures AllCounted(RunTurns(turns[..k])) { CountedUpTo(turns, k); }
    }
    if forall k: nat :: k <= |turns| ==> AllCounted(RunTurns(turns[..k])) {
      forall i: nat | i < |turns| ensures Current(RunTurns(turns[..i]), turns[i]) {
        assert turns[..i + 1][..i] == turns[..i];
        assert AllCounted(RunTurns(turns[..i])) && AllCounted(RunTurns(turns[..i + 1]));
        CountedStep(RunTurns(turns[..i]), turns[i]);
      }
    }
  }

  lemma {:induction false} UpToIs(n: nat)
    ensures |UpTo(n)| == n && forall i :: 0 <= i < n ==> UpTo(n)[i] == i
  {
    if n > 0 { UpToIs(n - 1); }
  }

  /** Where no update was lost, the counts agree exactly when no page was accepted twice. */
  lemma {:induction false} CountsAgreeWhenNothingLost(turns: seq<Turn>, T: int, N: int)
    requires TurnsReport(turns, T, N) && AllCounted(RunTurns(turns))
    ensures var f := RunTurns(turns);
            f.row.ledger.fetchedPages == |f.row.ledger.pageChecksums.Keys| <==> PagesDiffer(f.row.versions)
  {
    var f := RunTurns(turns);
    CountsAgreeIff(turns, T, N);
    UpToIs(|f.row.versions|);
    assert Survivors(f) == f.row.versions;
  }

  /** Whenever a page is fetched again, it still carries one of its lines. */
  ghost predicate LinesPersist(vs: seq<PageVersion>) {
    forall i, j :: 0 <= i < j < |vs| && vs[i].page == vs[j].page ==>
      exists k :: k in vs[i].lineIds && k in vs[j].lineIds
  }

  /** The unique index on the lines keeps several jobs honest, even overlapping ones: no line is
      stored twice, so as long as pages keep some of their lines, `complete` means complete. */
  lemma {:induction false} LinesKeepJobsHonest(turns: seq<Turn>, T: int, N: int)
    requires TurnsReport(turns, T, N)
    ensures var s := RunTurns(turns).row;
            && |s.lines| == StoredRows(s.versions)
            && (LinesPersist(s.versions) ==> PagesDiffer(s.versions))
            && (LinesPersist(s.versions) && s.ledger.status == Complete ==>
                  PageRange(T) <= s.ledger.pageChecksums.Keys)
  {
    var f := RunTurns(turns);
    var vs := f.row.versions;
    TurnsKept(turns, T, N);
    if LinesPersist(vs) {
      forall i, j | 0 <= i < j < |vs| ensures vs[i].page != vs[j].page {
        assert NoneShared(vs, i, j);
      }
      CountsAgreeIff(turns, T, N);
      assert PagesDiffer(Survivors(f)) by {
        forall i, j | 0 <= i < j < |f.counted| ensures Survivors(f)[i].page != Survivors(f)[j].page {
          assert f.counted[i] < f.counted[j];
        }
      }
      if f.row.ledger.status == Complete { CompleteAcrossJobsIff(turns, T, N); }
    }
  }

  // ----- Runs that go wrong -----

  function FirstPage(ids: seq<LineId>, checksum: Checksum, T: int): Response {
    Page(3, ids, Some(6), Some(T), checksum)
  }

  lemma {:induction false} NextTurn(turns: seq<Turn>, t: Turn)
    ensures RunTurns(turns + [t]) == TakeTurn(RunTurns(turns), t)
    ensures (turns + [t])[..|turns|] == turns
  {
    assert (turns + [t])[..|turns|] == turns;
  }

  lemma {:induction false} BeginOne(f: Fleet, job: nat, r: Response)
    requires job !in f.cursors && job !in f.begun && r.Page?
    ensures TakeTurn(f, Begin(job, r)) == f.(begun := f.begun[job := Begun(r, f.row.ledger, f.counted)])
  {
  }

  /** Page 1 with three lines, committed over the ledger that was read. */
  lemma {:induction false} PageOne(f: Fleet, job: nat, ids: seq<LineId>, checksum: Checksum, T: int)
    requires job in f.begun && f.begun[job].response == FirstPage(ids, checksum, T)
    requires job !in f.cursors && NewLines(f.row.lines, ids)
    ensures var e := TakeTurn(f, Finish(job));
            && e.row.ledger == Recorded(f.begun[job].ledger, 1, 3, Some(6), Some(T), checksum)
            && e.row.versions == f.row.versions + [PageVersion(1, 3, ids)]
            && e.row.lines == f.row.lines + Ids(ids)
            && e.begun == f.begun - {job} && e.cursors == f.cursors[job := Cursor(2, 1 >= T)]
  {
  }

  /** Three lines that the index accepts. */
  ghost predicate NewLines(stored: set<LineId>, ids: seq<LineId>) {
    |ids| == 3 && ids[0] < ids[1] < ids[2] && ids[0] !in stored && ids[1] !in stored && ids[2] !in stored
  }

  lemma {:induction false} ReportsTwo()
    ensures Reports(FirstPage([1, 2, 3], 0, 2), 2, 6) && Reports(FirstPage([4, 5, 6], 1, 2), 2, 6)
  {
  }

  /** A second job that starts over after the source replaced the lines of page 1 counts that
      page again: the row turns complete with page 2 missing. */
  lemma {:induction false} SecondJobCountsAgain() returns (turns: seq<Turn>)
    ensures TurnsReport(turns, 2, 6)
    ensures var l := RunTurns(turns).row.ledger;
            l.status == Complete && 2 !in l.pageChecksums
  {
    var p, q := FirstPage([1, 2, 3], 0, 2), FirstPage([4, 5, 6], 1, 2);
    var a := [] + [Begin(0, p)];
    var b := a + [Finish(0)];
    var c := b + [Begin(1, q)];
    turns := c + [Finish(1)];
    hide FirstPage, Recorded, Ids, Clashes, TakeTurn, Reports;
    ReportsTwo();
    assert TurnsReport(turns, 2, 6);
    NextTurn([], Begin(0, p));
    NextTurn(a, Finish(0));
    NextTurn(b, Begin(1, q));
    NextTurn(c, Finish(1));
    assert RunTurns([]) == NO_TURNS;
    hide RunTurns, TurnsReport;
    TheseArePages();
    BeginOne(NO_TURNS, 0, p);
    PageOne(RunTurns(a), 0, [1, 2, 3], 0, 2);
    assert Ids([1, 2, 3]) == {1, 2, 3} by { TheseLines(); }
    BeginOne(RunTurns(b), 1, q);
    PageOne(RunTurns(c), 1, [4, 5, 6], 1, 2);
    CountedTwice();
  }

  lemma {:induction false} TheseArePages()
    ensures FirstPage([1, 2, 3], 0, 2).Page? && FirstPage([4, 5, 6], 1, 2).Page?
  {
  }

  lemma {:induction false} TheseLines()
    ensures Ids([1, 2, 3]) == {1, 2, 3} && Ids([4, 5, 6]) == {4, 5, 6}
  {
  }

  lemma {:induction false} CountedTwice()
    ensures var l := Recorded(Recorded(FRESH_LEDGER, 1, 3, Some(6), Some(2), 0), 1, 3, Some(6), Some(2), 1);
            l.status == Complete && 2 !in l.pageChecksums
    ensures var l := Recorded(FRESH_LEDGER, 1, 3, Some(6), Some(2), 1);
            l.fetchedPages == 1 && l.storedLines == 3 && l.pageChecksums == map[1 := 1]
  {
  }

  /** Two jobs have read the fresh ledger, each with its own lines of page 1. */
  lemma {:induction false} BothBegin() returns (turns: seq<Turn>)
    ensures TurnsReport(turns, 2, 6)
    ensures var f := RunTurns(turns);
            && f.row == FRESH && f.cursors == map[]
            && f.begun == map[0 := Begun(FirstPage([1, 2, 3], 0, 2), FRESH_LEDGER, []),
                              1 := Begun(FirstPage([4, 5, 6], 1, 2), FRESH_LEDGER, [])]
  {
    var p, q := FirstPage([1, 2, 3], 0, 2), FirstPage([4, 5, 6], 1, 2);
    var a := [] + [Begin(0, p)];
    turns := a + [Begin(1, q)];
    hide FirstPage, TakeTurn, Reports;
    ReportsTwo();
    NextTurn([], Begin(0, p));
    NextTurn(a, Begin(1, q));
    assert RunTurns([]) == NO_TURNS;
    hide RunTurns;
    TheseArePages();
    BeginOne(NO_TURNS, 0, p);
    BeginOne(RunTurns(a), 1, q);
  }

  lemma {:induction false} FinishReports(turns: seq<Turn>, job: nat)
    requires TurnsReport(turns, 2, 6)
    ensures TurnsReport(turns + [Finish(job)], 2, 6)
  {
  }

  /** Two overlapping page transactions of page 1 with different lines: six lines are stored,
      the ledger counts three, and the counts agree although the page was accepted twice. */
  lemma {:induction false} OverlapLosesAnUpdate() returns (turns: seq<Turn>)
    ensures TurnsReport(turns, 2, 6)
    ensures var f := RunTurns(turns);
            && f.row.ledger.fetchedPages == |f.row.ledger.pageChecksums.Keys| == 1 && f.row.ledger.storedLines == 3
            && !PagesDiffer(f.row.versions) && f.row.lines == {1, 2, 3, 4, 5, 6}
  {
    var b := BothBegin();
    var c := b + [Finish(0)];
    turns := c + [Finish(1)];
    FinishReports(b, 0);
    FinishReports(c, 1);
    hide FirstPage, Recorded, Ids, Clashes, TakeTurn, RunTurns, TurnsReport, PagesDiffer;
    NextTurn(b, Finish(0));
    NextTurn(c, Finish(1));
    TheseLines();
    PageOne(RunTurns(b), 0, [1, 2, 3], 0, 2);
    assert RunTurns(c).row.lines == {1, 2, 3};
    PageOne(RunTurns(c), 1, [4, 5, 6], 1, 2);
    CountedTwice();
    TwiceTheSamePage(RunTurns(turns).row.versions);
    assert map[1 := 1].Keys == {1};
  }

  lemma {:induction false} TwiceTheSamePage(vs: seq<PageVersion>)
    requires vs == [] + [PageVersion(1, 3, [1, 2, 3])] + [PageVersion(1, 3, [4, 5, 6])]
    ensures !PagesDiffer(vs)
  {
    assert vs[0].page == vs[1].page;
  }

  // ----- Claimed and stored lines -----

  lemma {:induction false} ClaimsBoundRows(vs: seq<PageVersion>)
    requires forall v :: v in vs ==> |v.lineIds| <= v.itemsInPage
    ensures StoredRows(vs) <= ClaimedLines(vs)
    ensures StoredRows(vs) == ClaimedLines(vs) <==> forall v :: v in vs ==> |v.lineIds| == v.itemsInPage
  {
    if vs != [] {
      var init, last := vs[..|vs| - 1], vs[|vs| - 1];
      assert last in vs && forall v :: v in vs <==> v in init || v == last;
      ClaimsBoundRows(init);
    }
  }

  /** The ledger sums the counts the pages claim. When no accepted page carries more lines than
      it claims, a complete import holds its N lines exactly when each page carries all of them. */
  lemma {:induction false} CompleteRows(turns: seq<Turn>, T: int, N: int)
    requires TurnsReport(turns, T, N) && RunTurns(turns).row.ledger.status == Complete
    requires AllCounted(RunTurns(turns))
    requires forall v :: v in RunTurns(turns).row.versions ==> |v.lineIds| <= v.itemsInPage
    ensures var s := RunTurns(turns).row;
            |s.lines| == N <==> forall v :: v in s.versions ==> |v.lineIds| == v.itemsInPage
  {
    var f := RunTurns(turns);
    TurnsKept(turns, T, N);
    UpToIs(|f.row.versions|);
    assert Survivors(f) == f.row.versions;
    ClaimsBoundRows(f.row.versions);
  }
}
