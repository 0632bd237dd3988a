/**
  Resumable import of a bill of quantities: the page cursor of
  packages/tender/bom_lines_job.py, the stored lines of packages/tender/boq_lines_store.py
  and the completeness ledger of packages/tender/boq_completeness.py.
*/
module BomImport {
  import opened Common

  type Checksum = nat
  type LineId = nat

  datatype ImportStatus = InProgress | Complete | Incomplete | SourceExhaustedUnverified

  /** One row of `boq_import`. */
  datatype Ledger = Ledger(
    expectedTotal: Option<int>,
    expectedPages: Option<int>,
    fetchedPages: nat,
    storedLines: int,
    status: ImportStatus,
    missingPages: seq<nat>,
    pageChecksums: map<nat, Checksum>
  )

  const FRESH_LEDGER: Ledger := Ledger(None, None, 0, 0, InProgress, [], map[])

  /** What fetching one page yields: an exception, a drifted response, or a page of lines. */
  datatype Response =
    | FetchFailed
    | Drifted(driftPages: Option<int>)
    | Page(itemsInPage: int, lineIds: seq<LineId>, totalItems: Option<int>, totalPages: Option<int>,
           checksum: Checksum)

  /** `next_page` and `done` of the job's checkpoint. */
  datatype Cursor = Cursor(nextPage: nat, done: bool)

  /** The normalized version of an accepted page: the line count it claims and its lines. */
  datatype PageVersion = PageVersion(page: nat, itemsInPage: int, lineIds: seq<LineId>)

  const FRESH_CURSOR: Cursor := Cursor(1, false)

  function Recorded(l: Ledger, page: nat, lines: int, total: Option<int>, pages: Option<int>,
                    checksum: Checksum): Ledger {
    var fetched := l.fetchedPages + 1;
    var stored := l.storedLines + lines;
    var status :=
      if total == None || pages == None then SourceExhaustedUnverified
      else if fetched == pages.value && stored == total.value then Complete
      else InProgress;
    Ledger(total, pages, fetched, stored, status, l.missingPages, l.pageChecksums[page := checksum])
  }

  /** Nothing is verified of a source that leaves out a total; otherwise the import is complete
      exactly when pages and lines meet both totals. */
  ghost predicate StatusTells(l: Ledger, total: Option<int>, pages: Option<int>, fetched: nat, lines: int) {
    && (l.status == SourceExhaustedUnverified <==> total == None || pages == None)
    && (l.status == Complete <==> total == Some(lines) && pages == Some(fetched))
    && l.status != Incomplete
  }

  function PastEnd(pages: Option<int>, page: nat): bool {
    pages.Some? && page >= pages.value
  }

  /** The pages 1..n. */
  function PageRange(n: int): (s: set<nat>)
    ensures forall p: nat :: p in s <==> 1 <= p <= n
    ensures |s| == if n > 0 then n else 0
    decreases n
  {
    if n <= 0 then {} else PageRange(n - 1) + {n}
  }

  /** The unique index on the stored lines refuses an id that is stored already or repeated. */
  predicate Clashes(stored: set<LineId>, ids: seq<LineId>) {
    || (exists i :: 0 <= i < |ids| && ids[i] in stored)
    || (exists i, j :: 0 <= i < j < |ids| && ids[i] == ids[j])
  }

  function Ids(ids: seq<LineId>): set<LineId> {
    set k | k in ids
  }

  /** An import in the database: its ledger row, the accepted page versions, the ids of the
      stored lines, and the exception queue its drifted pages go to. */
  class BoqImport {
    var ledger: Ledger
    var versions: seq<PageVersion>
    var lines: set<LineId>
    var quarantined: seq<nat>

    constructor ()
      ensures ledger == FRESH_LEDGER && versions == [] && lines == {} && quarantined == []
    {
      ledger := FRESH_LEDGER;
      versions, lines, quarantined := [], {}, [];
    }

    function Now(cursor: Cursor): Import
      reads this
    {
      Import(ledger, versions, lines, quarantined, cursor)
    }

    /** One insert per line; the first refused one raises, with the earlier ones written. */
    method StoreBoqLines(ids: seq<LineId>) returns (raised: bool)
      modifies this`lines
      ensures raised <==> Clashes(old(lines), ids)
      ensures !raised ==> lines == old(lines) + Ids(ids)
    {
      for i := 0 to |ids|
        invariant lines == old(lines) + Ids(ids[..i]) && !Clashes(old(lines), ids[..i])
      {
        assert ids[..i + 1] == ids[..i] + [ids[i]];
        if ids[i] in lines {
          if ids[i] !in old(lines) { var j :| 0 <= j < i && ids[j] == ids[i]; }
          return true;
        }
        lines := lines + {ids[i]};
      }
      assert ids[..|ids|] == ids;
      raised := false;
    }

    method RecordPageFetched(page: nat, lines: int, total: Option<int>, pages: Option<int>, checksum: Checksum)
      modifies this`ledger
      ensures ledger == Recorded(old(ledger), page, lines, total, pages, checksum)
      ensures ledger.fetchedPages == old(ledger.fetchedPages) + 1
      ensures ledger.storedLines == old(ledger.storedLines) + lines
      ensures ledger.pageChecksums == old(ledger.pageChecksums)[page := checksum]
      ensures ledger.expectedTotal == total && ledger.expectedPages == pages
      ensures ledger.missingPages == old(ledger.missingPages)
      ensures StatusTells(ledger, total, pages, ledger.fetchedPages, ledger.storedLines)
    {
      var current := ledger;
      var fetchedPages := current.fetchedPages + 1;
      var storedLines := current.storedLines + lines;
      var status := InProgress;
      if total == None || pages == None {
        status := SourceExhaustedUnverified;
      } else if fetchedPages == pages.value && storedLines == total.value {
        status := Complete;
      }
      ledger := current.(expectedTotal := total, expectedPages := pages, fetchedPages := fetchedPages,
        storedLines := storedLines, status := status, pageChecksums := current.pageChecksums[page := checksum]);
    }

    /** One page of the job. A failed fetch raises before anything is written; a refused line
        raises after, and the transaction is rolled back. */
    method ProcessBomLinesPage(cursor: Cursor, r: Response) returns (raised: bool, next: Cursor)
      modifies this
      ensures raised <==> r.FetchFailed? || (r.Page? && Clashes(old(lines), r.lineIds))
      ensures raised ==> next == cursor && ledger == old(ledger) && versions == old(versions) && lines == old(lines)
      ensures !raised ==>
                var reported := if r.Page? then r.totalPages else r.driftPages;
                && next.nextPage == cursor.nextPage + 1
                && (next.done <==> reported.Some? && reported.value <= cursor.nextPage)
      ensures !raised && r.Drifted? ==> quarantined == old(quarantined) + [cursor.nextPage]
      ensures Now(next) == Advance(old(Now(cursor)), r)
    {
      var page := cursor.nextPage;
      match r {
        case FetchFailed =>
          return true, cursor;
        case Drifted(driftPages) =>
          quarantined := quarantined + [page];
          return false, Cursor(page + 1, PastEnd(driftPages, page));
        case Page(itemsInPage, lineIds, totalItems, totalPages, checksum) =>
          var before := Now(cursor);
          versions := versions + [PageVersion(page, itemsInPage, lineIds)];
          RecordPageFetched(page, itemsInPage, totalItems, totalPages, checksum);
          raised := StoreBoqLines(lineIds);
          if raised {
            ledger, versions, lines := before.ledger, before.versions, before.lines;
            return true, cursor;
          }
          return false, Cursor(page + 1, PastEnd(totalPages, page));
      }
    }

    /** Called when the job stops trying. */
    method MarkImportStalled()
      modifies this`ledger
      ensures ledger == Stalled(old(ledger))
      ensures old(ledger.status) == Complete || old(ledger.status) == SourceExhaustedUnverified ==>
                ledger == old(ledger)
      ensures ledger != old(ledger) ==>
                && ledger.status == Incomplete && ledger.expectedPages.Some?
                && forall p: nat :: p in ledger.missingPages <==>
                     1 <= p <= ledger.expectedPages.value && p !in ledger.pageChecksums
    {
      var current := ledger;
      if current.status == Complete || current.status == SourceExhaustedUnverified {
        return;
      }
      if current.expectedPages == None {
        return;
      }
      var missing := Sorted(PageRange(current.expectedPages.value) - current.pageChecksums.Keys);
      SortedElements(PageRange(current.expectedPages.value) - current.pageChecksums.Keys);
      ledger := current.(status := Incomplete, missingPages := missing);
    }
  }

  function Stalled(l: Ledger): Ledger {
    if l.status == Complete || l.status == SourceExhaustedUnverified || l.expectedPages == None then l
    else l.(status := Incomplete, missingPages := Sorted(PageRange(l.expectedPages.value) - l.pageChecksums.Keys))
  }

  // ----- One job's run -----

  datatype Import = Import(
    ledger: Ledger, versions: seq<PageVersion>, lines: set<LineId>, quarantined: seq<nat>, cursor: Cursor
  )

  /** The effect of one page transaction; a failed fetch or a refused line leaves everything
      as it was. */
  function Advance(s: Import, r: Response): Import {
    var page := s.cursor.nextPage;
    match r
    case FetchFailed => s
    case Drifted(driftPages) =>
      s.(quarantined := s.quarantined + [page], cursor := Cursor(page + 1, PastEnd(driftPages, page)))
    case Page(itemsInPage, lineIds, totalItems, totalPages, checksum) =>
      if Clashes(s.lines, lineIds) then s
      else
        s.(ledger := Recorded(s.ledger, page, itemsInPage, totalItems, totalPages, checksum),
           versions := s.versions + [PageVersion(page, itemsInPage, lineIds)],
           lines := s.lines + Ids(lineIds),
           cursor := Cursor(page + 1, PastEnd(totalPages, page)))
  }

  /** The job loop: responses are consumed until the cursor is done. */
  function Process(s: Import, rs: seq<Response>): Import
    decreases |rs|
  {
    if rs == [] || s.cursor.done then s else Process(Advance(s, rs[0]), rs[1..])
  }

  const FRESH: Import := Import(FRESH_LEDGER, [], {}, [], FRESH_CURSOR)

  /** Every response reports the same pages `T` and items `N`. */
  ghost predicate Reports(r: Response, T: int, N: int) {
    match r
    case FetchFailed => true
    case Drifted(p) => p == Some(T)
    case Page(_, _, t, p, _) => t == Some(N) && p == Some(T)
  }

  ghost predicate AllReport(rs: seq<Response>, T: int, N: int) {
    forall r :: r in rs ==> Reports(r, T, N)
  }

  function ClaimedLines(vs: seq<PageVersion>): int {
    if vs == [] then 0 else ClaimedLines(vs[..|vs| - 1]) + vs[|vs| - 1].itemsInPage
  }

  function StoredRows(vs: seq<PageVersion>): nat {
    if vs == [] then 0 else StoredRows(vs[..|vs| - 1]) + |vs[|vs| - 1].lineIds|
  }

  ghost predicate Accepted(s: Import, p: nat) {
    exists v :: v in s.versions && v.page == p
  }

  /** Every page before the cursor was accepted or quarantined, none of them twice. */
  ghost predicate EachPageOnce(s: Import) {
    && (forall p: nat {:trigger Accepted(s, p)} :: (Accepted(s, p) || p in s.quarantined) <==>
        1 <= p < s.cursor.nextPage)
    && (forall p: nat {:trigger Accepted(s, p)} :: !(Accepted(s, p) && p in s.quarantined))
    && (forall i, j :: 0 <= i < j < |s.versions| ==> s.versions[i].page < s.versions[j].page)
    && Increasing(s.quarantined)
  }

  /** The ledger row counts the accepted pages, and holds a checksum for each of them. */
  ghost predicate Tallied(s: Import) {
    && (forall p: nat {:trigger Accepted(s, p)} :: p in s.ledger.pageChecksums <==> Accepted(s, p))
    && s.ledger.fetchedPages == |s.versions|
    && s.ledger.storedLines == ClaimedLines(s.versions)
  }

  /** ... and no page twice. */
  ghost predicate Counted(s: Import) {
    Tallied(s) && |s.versions| == |s.ledger.pageChecksums.Keys|
  }

  ghost predicate Judged(s: Import, T: int, N: int) {
    if s.versions == [] then
      s.ledger.status == InProgress && s.ledger.expectedPages == None
    else
      && s.ledger.expectedPages == Some(T)
      && s.ledger.status == (if s.ledger.fetchedPages == T && s.ledger.storedLines == N then Complete else InProgress)
  }

  /** The cursor stands at most one past the last page, and is done exactly there. */
  ghost predicate CursorFits(c: Cursor, T: int) {
    && 1 <= c.nextPage
    && (c.done ==> c.nextPage >= T + 1)
    && (!c.done ==> c.nextPage == 1 || c.nextPage <= T)
    && (c.nextPage <= T + 1 || c.nextPage <= 2)
  }

  ghost predicate Reconciled(s: Import, T: int, N: int) {
    EachPageOnce(s) && Counted(s) && Judged(s, T, N) && CursorFits(s.cursor, T)
  }

  predicate Commits(s: Import, r: Response) { r.Page? && !Clashes(s.lines, r.lineIds) }

  lemma {:induction false} AcceptedAfter(s: Import, r: Response, p: nat)
    requires Commits(s, r)
    ensures Accepted(Advance(s, r), p) <==> Accepted(s, p) || p == s.cursor.nextPage
  {
    var t := Advance(s, r);
    var v := PageVersion(s.cursor.nextPage, r.itemsInPage, r.lineIds);
    assert forall u :: u in t.versions <==> u in s.versions || u == v;
    if p == v.page { assert v in t.versions; }
    if Accepted(s, p) {
      var u :| u in s.versions && u.page == p;
      assert u in t.versions;
    }
  }

  lemma {:induction false} AcceptOnce(s: Import, r: Response)
    requires EachPageOnce(s) && 1 <= s.cursor.nextPage && Commits(s, r)
    ensures EachPageOnce(Advance(s, r))
  {
    var t := Advance(s, r);
    forall p: nat
      ensures Accepted(t, p) || p in t.quarantined <==> 1 <= p < t.cursor.nextPage
      ensures !(Accepted(t, p) && p in t.quarantined)
    {
      AcceptedAfter(s, r, p);
      assert t.quarantined == s.quarantined;
      assert !(Accepted(s, p) && p in s.quarantined) && (p in s.quarantined ==> p < s.cursor.nextPage);
    }
    forall i | 0 <= i < |s.versions| ensures s.versions[i].page < s.cursor.nextPage {
      assert s.versions[i] in s.versions && Accepted(s, s.versions[i].page);
    }
  }

  lemma {:induction false} AppendLines(vs: seq<PageVersion>, v: PageVersion)
    ensures ClaimedLines(vs + [v]) == ClaimedLines(vs) + v.itemsInPage
  {
    assert (vs + [v])[..|vs|] == vs;
  }

  lemma {:induction false} AcceptTallied(s: Import, r: Response)
    requires Tallied(s) && Commits(s, r)
    ensures Tallied(Advance(s, r))
  {
    hide ClaimedLines;
    AppendLines(s.versions, PageVersion(s.cursor.nextPage, r.itemsInPage, r.lineIds));
    var t := Advance(s, r);
    forall p: nat ensures p in t.ledger.pageChecksums <==> Accepted(t, p) {
      AcceptedAfter(s, r, p);
    }
  }

  lemma {:induction false} AcceptCounted(s: Import, r: Response)
    requires Counted(s) && !Accepted(s, s.cursor.nextPage) && Commits(s, r)
    ensures Counted(Advance(s, r))
  {
    var t := Advance(s, r);
    AcceptTallied(s, r);
    var page := s.cursor.nextPage;
    assert page !in s.ledger.pageChecksums;
    hide Accepted, Tallied, Clashes;
    assert t.ledger.pageChecksums.Keys == s.ledger.pageChecksums.Keys + {page};
  }

  lemma {:induction false} QuarantineStep(s: Import, r: Response)
    requires EachPageOnce(s) && Counted(s) && 1 <= s.cursor.nextPage && r.Drifted?
    ensures EachPageOnce(Advance(s, r)) && Counted(Advance(s, r))
  {
    var t := Advance(s, r);
    var page := s.cursor.nextPage;
    assert forall p: nat :: Accepted(t, p) <==> Accepted(s, p);
    assert forall p: nat :: p in t.quarantined <==> p in s.quarantined || p == page;
    forall i | 0 <= i < |s.quarantined| ensures s.quarantined[i] < page {
      assert s.quarantined[i] in s.quarantined && !Accepted(s, s.quarantined[i]);
    }
  }

  lemma {:induction false} AdvanceReconciles(s: Import, r: Response, T: int, N: int)
    requires Reconciled(s, T, N) && !s.cursor.done && Reports(r, T, N)
    ensures Reconciled(Advance(s, r), T, N)
  {
    assert !Accepted(s, s.cursor.nextPage);
    hide EachPageOnce, Counted, ClaimedLines, Clashes;
    match r
    case FetchFailed =>
    case Drifted(_) => QuarantineStep(s, r);
    case Page(_, _, _, _, _) =>
      if Commits(s, r) {
        AcceptOnce(s, r);
        AcceptCounted(s, r);
      }
  }

  lemma {:induction false} ProcessReconciles(s: Import, rs: seq<Response>, T: int, N: int)
    requires Reconciled(s, T, N) && AllReport(rs, T, N)
    ensures Reconciled(Process(s, rs), T, N)
    decreases |rs|
  {
    if rs != [] && !s.cursor.done {
      assert rs[0] in rs;
      AdvanceReconciles(s, rs[0], T, N);
      ProcessReconciles(Advance(s, rs[0]), rs[1..], T, N);
    }
  }

  /** A job on a fresh row, with failures and drift in between: at any point the pages before
      the cursor are each accepted or quarantined exactly once, and the ledger counts them. */
  lemma {:induction false} RunReconciles(rs: seq<Response>, T: int, N: int)
    requires AllReport(rs, T, N)
    ensures Reconciled(Process(FRESH, rs), T, N)
  {
    ProcessReconciles(FRESH, rs, T, N);
  }

  lemma {:induction false} ChecksumsInRange(s: Import, T: int, N: int)
    requires Reconciled(s, T, N) && T >= 1
    ensures s.ledger.pageChecksums.Keys <= PageRange(T)
  {
    forall p: nat | p in s.ledger.pageChecksums ensures p in PageRange(T) {
      assert Accepted(s, p);
    }
  }

  /** `complete` means complete: every page 1..T has its checksum and the claimed lines sum
      to N. (With T < 1 nothing is ever complete, though no page is missing.) */
  lemma {:induction false} CompleteMeansComplete(rs: seq<Response>, T: int, N: int)
    requires AllReport(rs, T, N)
    ensures var s := Process(FRESH, rs);
            s.ledger.status == Complete <==>
              T >= 1 && PageRange(T) <= s.ledger.pageChecksums.Keys && ClaimedLines(s.versions) == N
  {
    var s := Process(FRESH, rs);
    RunReconciles(rs, T, N);
    if T >= 1 {
      ChecksumsInRange(s, T, N);
      SubsetCard(s.ledger.pageChecksums.Keys, PageRange(T));
      if PageRange(T) <= s.ledger.pageChecksums.Keys {
        assert PageRange(T) == s.ledger.pageChecksums.Keys;
      }
      if s.versions == [] {
        var first: nat := 1;
        assert !Accepted(s, first);
        assert first in PageRange(T) && first !in s.ledger.pageChecksums.Keys;
      }
    }
  }

  /** Stopping short of `complete` with a page recorded: exactly the pages of 1..T that
      drifted or were never reached are listed, and with the fetched ones they make T. */
  lemma {:induction false} StallListsTheMissing(rs: seq<Response>, T: int, N: int)
    requires AllReport(rs, T, N) && T >= 1
    requires Process(FRESH, rs).versions != [] && Process(FRESH, rs).ledger.status != Complete
    ensures var s := Process(FRESH, rs);
            var l := Stalled(s.ledger);
            && l.status == Incomplete && Increasing(l.missingPages)
            && (forall p: nat :: p in l.missingPages <==> 1 <= p <= T && (p in s.quarantined || p >= s.cursor.nextPage))
            && |l.missingPages| + l.fetchedPages == T
  {
    var s := Process(FRESH, rs);
    RunReconciles(rs, T, N);
    ChecksumsInRange(s, T, N);
    var missing := PageRange(T) - s.ledger.pageChecksums.Keys;
    SortedElements(missing);
    assert |missing| == T - |s.ledger.pageChecksums.Keys| by {
      DifferenceSize(PageRange(T), s.ledger.pageChecksums.Keys);
    }
    forall p: nat ensures p in missing <==> 1 <= p <= T && (p in s.quarantined || p >= s.cursor.nextPage) {
      assert p in s.ledger.pageChecksums <==> Accepted(s, p);
    }
  }

  lemma {:induction false} DifferenceSize(a: set<nat>, b: set<nat>)
    requires b <= a
    ensures |a - b| == |a| - |b|
  {
    assert a == (a - b) + b;
  }

  /** Without any expected page the accounting identity fails: one page was fetched, none is
      missing, and their sum is not T. */
  lemma {:induction false} StallNeedsAPage(rs: seq<Response>, T: int, N: int)
    requires AllReport(rs, T, N) && T < 1
    requires Process(FRESH, rs).versions != []
    ensures var l := Stalled(Process(FRESH, rs).ledger);
            l.status == Incomplete && l.missingPages == [] && |l.missingPages| + l.fetchedPages != T
  {
    var s := Process(FRESH, rs);
    RunReconciles(rs, T, N);
    assert PageRange(T) - s.ledger.pageChecksums.Keys == {};
  }

  // ----- Whatever the source reports -----

  /** The import after the first `i` responses. */
  function AfterResponses(rs: seq<Response>, i: nat): Import
    requires i <= |rs|
  {
    Process(FRESH, rs[..i])
  }

  lemma {:induction false} ProcessNext(s: Import, rs: seq<Response>, r: Response)
    ensures Process(s, rs + [r]) == if Process(s, rs).cursor.done then Process(s, rs) else Advance(Process(s, rs), r)
    decreases |rs|
  {
    hide Advance;
    if rs == [] {
      assert [r][1..] == [];
    } else if !s.cursor.done {
      assert (rs + [r])[1..] == rs[1..] + [r];
      ProcessNext(Advance(s, rs[0]), rs[1..], r);
    }
  }

  /** The `i`-th response is an accepted page. */
  ghost predicate AcceptedAt(rs: seq<Response>, i: nat) {
    i < |rs| && !AfterResponses(rs, i).cursor.done && Commits(AfterResponses(rs, i), rs[i])
  }

  ghost predicate LastAcceptedAt(rs: seq<Response>, i: nat) {
    AcceptedAt(rs, i) && forall j: nat :: AcceptedAt(rs, j) ==> j <= i
  }

  /** The ledger counts the accepted pages and the lines they claim. */
  ghost predicate Sums(s: Import) {
    s.ledger.fetchedPages == |s.versions| && s.ledger.storedLines == ClaimedLines(s.versions)
  }

  lemma {:induction false} AdvanceTells(s: Import, r: Response)
    requires Sums(s)
    ensures var t := Advance(s, r);
            && Sums(t)
            && (Commits(s, r) ==>
                  && StatusTells(t.ledger, r.totalItems, r.totalPages, |t.versions|, ClaimedLines(t.versions))
                  && |t.versions| == |s.versions| + 1 && t.versions[|s.versions|].page == s.cursor.nextPage
                  && t.ledger.pageChecksums == s.ledger.pageChecksums[s.cursor.nextPage := r.checksum])
            && (!Commits(s, r) ==> t.ledger == s.ledger && t.versions == s.versions)
  {
    hide ClaimedLines, Clashes;
    if Commits(s, r) { AppendLines(s.versions, PageVersion(s.cursor.nextPage, r.itemsInPage, r.lineIds)); }
  }

  lemma {:induction false} NextResponse(rs: seq<Response>, i: nat)
    requires i < |rs|
    ensures AfterResponses(rs, i + 1) ==
            if AfterResponses(rs, i).cursor.done then AfterResponses(rs, i) else Advance(AfterResponses(rs, i), rs[i])
  {
    assert rs[..i + 1] == rs[..i] + [rs[i]];
    ProcessNext(FRESH, rs[..i], rs[i]);
  }

  lemma {:induction false} SumsAlways(rs: seq<Response>, i: nat)
    requires i <= |rs|
    ensures Sums(AfterResponses(rs, i))
  {
    if i > 0 {
      SumsAlways(rs, i - 1);
      NextResponse(rs, i - 1);
      AdvanceTells(AfterResponses(rs, i - 1), rs[i - 1]);
    } else {
      assert rs[..0] == [];
    }
  }

  lemma {:induction false} LedgerStays(rs: seq<Response>, i: nat, k: nat)
    requires i <= k <= |rs| && forall j: nat :: i <= j < k ==> !AcceptedAt(rs, j)
    ensures AfterResponses(rs, k).ledger == AfterResponses(rs, i).ledger
    ensures AfterResponses(rs, k).versions == AfterResponses(rs, i).versions
    decreases k - i
  {
    hide Advance, AfterResponses, Commits;
    if i < k {
      LedgerStays(rs, i, k - 1);
      SumsAlways(rs, k - 1);
      NextResponse(rs, k - 1);
      AdvanceTells(AfterResponses(rs, k - 1), rs[k - 1]);
      assert !AcceptedAt(rs, k - 1);
    }
  }

  /** Whatever a source reports, page by page: the status at the end is what the last accepted
      page makes of it. It is never `complete` while that page leaves out a total. */
  lemma {:induction false} LastPageDecides(rs: seq<Response>, i: nat)
    requires LastAcceptedAt(rs, i)
    ensures var s := Process(FRESH, rs);
            StatusTells(s.ledger, rs[i].totalItems, rs[i].totalPages, |s.versions|, ClaimedLines(s.versions))
  {
    assert rs[..|rs|] == rs;
    SumsAlways(rs, i);
    NextResponse(rs, i);
    AdvanceTells(AfterResponses(rs, i), rs[i]);
    LedgerStays(rs, i + 1, |rs|);
  }

  /** Without an accepted page the row is as it was created. */
  lemma {:induction false} NothingAccepted(rs: seq<Response>)
    requires forall i: nat :: !AcceptedAt(rs, i)
    ensures Process(FRESH, rs).ledger == FRESH_LEDGER && Process(FRESH, rs).versions == []
  {
    assert rs[..|rs|] == rs && rs[..0] == [];
    LedgerStays(rs, 0, |rs|);
  }

  /** Giving up changes the status only of an import whose last page reported both totals. */
  lemma {:induction false} StallNeedsTotals(rs: seq<Response>)
    ensures var l := Process(FRESH, rs).ledger;
            Stalled(l).status == Incomplete <==>
              exists i: nat ::
                && LastAcceptedAt(rs, i) && rs[i].totalItems.Some? && rs[i].totalPages.Some?
                && l.status != Complete
  {
    if i: nat :| AcceptedAt(rs, i) {
      var l := LastAcceptedExists(rs, i);
      LastPageDecides(rs, l);
      ExpectedOf(rs, l);
      forall j: nat | LastAcceptedAt(rs, j) ensures j == l {}
    } else {
      NothingAccepted(rs);
    }
  }

  lemma {:induction false} LastAcceptedExists(rs: seq<Response>, i: nat) returns (l: nat)
    requires AcceptedAt(rs, i)
    ensures LastAcceptedAt(rs, l)
    decreases |rs| - i
  {
    if j: nat :| AcceptedAt(rs, j) && j > i {
      l := LastAcceptedExists(rs, j);
    } else {
      l := i;
    }
  }

  lemma {:induction false} ExpectedOf(rs: seq<Response>, i: nat)
    requires LastAcceptedAt(rs, i)
    ensures Process(FRESH, rs).ledger.expectedPages == rs[i].totalPages
  {
    assert rs[..|rs|] == rs;
    NextResponse(rs, i);
    LedgerStays(rs, i + 1, |rs|);
  }

  // ----- Claimed and stored lines -----

  /** A page claiming two lines but carrying one: complete, with a line short. */
  lemma {:induction false} CompleteWithARowShort() returns (rs: seq<Response>)
    ensures AllReport(rs, 1, 2)
    ensures Process(FRESH, rs).ledger.status == Complete && |Process(FRESH, rs).lines| == 1
  {
    rs := [Page(2, [7], Some(2), Some(1), 0)];
    assert rs[1..] == [];
    var t := Advance(FRESH, rs[0]);
    assert Process(t, []) == t;
    assert Ids([7]) == {7};
  }
}
