/**
  The shadow comparison of two record snapshots (packages/tender/shadow_comparison.py):
  every difference is classified into a bucket, or left unresolved where evidence is missing.
*/
module ShadowComparison {
  import opened Common

  type RecordId = nat
  type RecordKind = nat
  type Field = nat

  /** The field names the comparison itself uses; a key detail may carry the same text. */
  const STATUS_FIELD: Field := 0
  const COMPLETENESS_FIELD: Field := 1

  datatype BoqStatus = CompleteStatus | IncompleteStatus | OtherStatus(code: nat)

  datatype Boq = Boq(present: bool, completeness: Option<BoqStatus>)

  /** A parsed timestamp, without or with a time zone. */
  datatype Stamp = Naive(at: int) | Zoned(at: int)

  /** `capturedAt` is `None` where there is no timestamp to parse. */
  datatype Record = Record(
    id: RecordId, kind: Option<RecordKind>, status: Option<nat>, details: map<Field, nat>,
    capturedAt: Option<Stamp>, boq: Option<Boq>
  )

  datatype Bucket = V1Loss | V2Defect | SourceDrift | ExpectedSemanticDifference

  datatype DiscrepancyKind =
    | MissingFromV1 | MissingFromV2 | FieldMismatch | BoqPresenceMismatch | BoqCompletenessMismatch

  datatype Shown =
    | Nothing | Flag(b: bool) | Number(n: nat) | StatusValue(s: Option<nat>) | CompletenessValue(c: Option<BoqStatus>)

  datatype Discrepancy = Discrepancy(
    id: RecordId, kind: DiscrepancyKind, field: Option<Field>, v1: Shown, v2: Shown, bucket: Option<Bucket>
  )

  /** The optional scope evidence of the caller. */
  datatype Evidence = Evidence(
    v1Covers: Option<set<RecordKind>>, v2Covers: Option<set<RecordKind>>, expectedFields: Option<set<Field>>
  )

  type Index = map<RecordId, Record>

  // ----- Indexing -----

  /** The first record of each id. */
  function FirstRecords(records: seq<Record>): Index {
    if records == [] then map[]
    else
      var r := records[|records| - 1];
      var before := FirstRecords(records[..|records| - 1]);
      if r.id in before then before else before[r.id := r]
  }

  /** The ids of all further records, in order. */
  function Duplicates(records: seq<Record>): seq<RecordId> {
    if records == [] then []
    else
      var r := records[|records| - 1];
      var before := records[..|records| - 1];
      Duplicates(before) + (if r.id in FirstRecords(before) then [r.id] else [])
  }

  method IndexById(records: seq<Record>) returns (index: Index, duplicates: seq<RecordId>)
    ensures index == FirstRecords(records) && duplicates == Duplicates(records)
  {
    index, duplicates := map[], [];
    for i := 0 to |records|
      invariant index == FirstRecords(records[..i]) && duplicates == Duplicates(records[..i])
    {
      var record := records[i];
      assert records[..i + 1][..i] == records[..i];
      if record.id in index {
        duplicates := duplicates + [record.id];
      } else {
        index := index[record.id := record];
      }
    }
    assert records[..|records|] == records;
  }

  /** Record `i` is the first one with id `k`. */
  ghost predicate IsFirst(records: seq<Record>, i: nat, k: RecordId) {
    i < |records| && records[i].id == k && forall j :: 0 <= j < i ==> records[j].id != k
  }

  /** Each record is either indexed or a duplicate. */
  lemma {:induction false} IndexConserves(records: seq<Record>)
    ensures |records| == |FirstRecords(records).Keys| + |Duplicates(records)|
  {
    if records != [] {
      var before, r := records[..|records| - 1], records[|records| - 1];
      IndexConserves(before);
      if r.id !in FirstRecords(before) {
        assert FirstRecords(records).Keys == FirstRecords(before).Keys + {r.id};
      }
    }
  }

  /** The index holds exactly the first record of each id that occurs. */
  lemma {:induction false} IndexHoldsFirst(records: seq<Record>, i: nat, k: RecordId)
    requires IsFirst(records, i, k)
    ensures k in FirstRecords(records) && FirstRecords(records)[k] == records[i]
  {
    var n := |records| - 1;
    if i < n {
      assert IsFirst(records[..n], i, k);
      IndexHoldsFirst(records[..n], i, k);
    } else {
      IndexedOccurs(records[..n], k);
    }
  }

  lemma {:induction false} IndexedOccurs(records: seq<Record>, k: RecordId)
    ensures k in FirstRecords(records) ==> exists i :: 0 <= i < |records| && records[i].id == k
  {
    if records != [] && k in FirstRecords(records) {
      var n := |records| - 1;
      if records[n].id != k {
        IndexedOccurs(records[..n], k);
        var i :| 0 <= i < n && records[..n][i].id == k;
        assert records[i].id == k;
      }
    }
  }

  // ----- Classification -----

  predicate Stamped(r1: Record, r2: Record) {
    r1.capturedAt.Some? && r2.capturedAt.Some?
  }

  /** Comparing a naive with a zoned timestamp raises. */
  predicate Incomparable(r1: Record, r2: Record) {
    Stamped(r1, r2) && (r1.capturedAt.value.Naive? <==> r2.capturedAt.value.Zoned?)
  }

  predicate DriftPlausible(r1: Record, r2: Record) {
    Stamped(r1, r2) && !Incomparable(r1, r2) && r2.capturedAt.value.at > r1.capturedAt.value.at
  }

  predicate Expected(f: Field, expected: Option<set<Field>>) {
    expected.Some? && f in expected.value
  }

  /** Classifying a difference in `f` raises: the timestamps are consulted unless `f` is expected. */
  predicate ClassifyRaises(f: Field, r1: Record, r2: Record, expected: Option<set<Field>>) {
    !Expected(f, expected) && Incomparable(r1, r2)
  }

  function ScopedAbsence(id: RecordId, kind: DiscrepancyKind, recordKind: Option<RecordKind>,
                         covers: Option<set<RecordKind>>, defect: Bucket, v1: Shown, v2: Shown): Discrepancy {
    var bucket :=
      if covers.Some? && recordKind.Some? then
        Some(if recordKind.value in covers.value then defect else ExpectedSemanticDifference)
      else None;
    Discrepancy(id, kind, None, v1, v2, bucket)
  }

  function ClassifyField(id: RecordId, f: Field, v1: Shown, v2: Shown, r1: Record, r2: Record,
                         expected: Option<set<Field>>): Discrepancy {
    var bucket :=
      if Expected(f, expected) then Some(ExpectedSemanticDifference)
      else if DriftPlausible(r1, r2) then Some(SourceDrift)
      else None;
    Discrepancy(id, FieldMismatch, Some(f), v1, v2, bucket)
  }

  function ClassifyCompleteness(id: RecordId, s1: Option<BoqStatus>, s2: Option<BoqStatus>): Discrepancy {
    var bucket :=
      if s1 == None || s2 == None then Some(ExpectedSemanticDifference)
      else if s1.value == CompleteStatus && s2.value == IncompleteStatus then Some(V2Defect)
      else if s2.value == CompleteStatus && s1.value != CompleteStatus then Some(V1Loss)
      else None;
    Discrepancy(id, BoqCompletenessMismatch, Some(COMPLETENESS_FIELD),
                CompletenessValue(s1), CompletenessValue(s2), bucket)
  }

  // ----- The discrepancies of one shared record -----

  function StatusPart(r1: Record, r2: Record, ev: Evidence): seq<Discrepancy> {
    if r1.status == r2.status then []
    else [ClassifyField(r1.id, STATUS_FIELD, StatusValue(r1.status), StatusValue(r2.status), r1, r2, ev.expectedFields)]
  }

  function DetailPart(r1: Record, r2: Record, f: Field, ev: Evidence): seq<Discrepancy> {
    if f in r1.details && f in r2.details then
      if r1.details[f] == r2.details[f] then []
      else [ClassifyField(r1.id, f, Number(r1.details[f]), Number(r2.details[f]), r1, r2, ev.expectedFields)]
    else if f in r1.details then
      [Discrepancy(r1.id, FieldMismatch, Some(f), Number(r1.details[f]), Nothing, Some(ExpectedSemanticDifference))]
    else if f in r2.details then
      [Discrepancy(r1.id, FieldMismatch, Some(f), Nothing, Number(r2.details[f]), Some(ExpectedSemanticDifference))]
    else []
  }

  function DetailParts(r1: Record, r2: Record, fields: seq<Field>, ev: Evidence): seq<Discrepancy> {
    if fields == [] then []
    else DetailParts(r1, r2, fields[..|fields| - 1], ev) + DetailPart(r1, r2, fields[|fields| - 1], ev)
  }

  predicate HasBoq(r: Record) { r.boq.Some? && r.boq.value.present }

  function BoqPart(r1: Record, r2: Record, ev: Evidence): seq<Discrepancy> {
    if HasBoq(r1) && !HasBoq(r2) then
      [ScopedAbsence(r1.id, BoqPresenceMismatch, r1.kind, ev.v2Covers, V2Defect, Flag(true), Flag(false))]
    else if HasBoq(r2) && !HasBoq(r1) then
      [ScopedAbsence(r1.id, BoqPresenceMismatch, r2.kind, ev.v1Covers, V1Loss, Flag(false), Flag(true))]
    else if HasBoq(r1) && HasBoq(r2) && r1.boq.value.completeness != r2.boq.value.completeness then
      [ClassifyCompleteness(r1.id, r1.boq.value.completeness, r2.boq.value.completeness)]
    else []
  }

  /** Shared keys first, then the keys of one side only, each in order. */
  function DetailOrder(r1: Record, r2: Record): seq<Field> {
    Sorted(r1.details.Keys * r2.details.Keys) + Sorted(r1.details.Keys - r2.details.Keys)
      + Sorted(r2.details.Keys - r1.details.Keys)
  }

  function SharedPart(r1: Record, r2: Record, ev: Evidence): seq<Discrepancy> {
    StatusPart(r1, r2, ev) + DetailParts(r1, r2, DetailOrder(r1, r2), ev) + BoqPart(r1, r2, ev)
  }

  // ----- The whole comparison -----

  function PartOf(x1: Index, x2: Index, id: RecordId, ev: Evidence): seq<Discrepancy> {
    if id in x1 && id in x2 then SharedPart(x1[id], x2[id], ev)
    else if id in x1 then
      [ScopedAbsence(id, MissingFromV2, x1[id].kind, ev.v2Covers, V2Defect, Flag(true), Flag(false))]
    else if id in x2 then
      [ScopedAbsence(id, MissingFromV1, x2[id].kind, ev.v1Covers, V1Loss, Flag(false), Flag(true))]
    else []
  }

  function Parts(x1: Index, x2: Index, ids: seq<RecordId>, ev: Evidence): seq<Discrepancy> {
    if ids == [] then []
    else Parts(x1, x2, ids[..|ids| - 1], ev) + PartOf(x1, x2, ids[|ids| - 1], ev)
  }

  function IdOrder(x1: Index, x2: Index): seq<RecordId> {
    Sorted(x1.Keys - x2.Keys) + Sorted(x2.Keys - x1.Keys) + Sorted(x1.Keys * x2.Keys)
  }

  function Discrepancies(v1: seq<Record>, v2: seq<Record>, ev: Evidence): seq<Discrepancy> {
    var x1, x2 := FirstRecords(v1), FirstRecords(v2);
    Parts(x1, x2, IdOrder(x1, x2), ev)
  }

  function CountBucket(ds: seq<Discrepancy>, b: Option<Bucket>): nat {
    if ds == [] then 0
    else CountBucket(ds[..|ds| - 1], b) + (if ds[|ds| - 1].bucket == b then 1 else 0)
  }

  /** How many of the listed discrepancies are in a bucket. */
  ghost function InBucket(ds: seq<Discrepancy>, b: Option<Bucket>): nat {
    |set i: nat | i < |ds| && ds[i].bucket == b|
  }

  lemma {:induction false} CountBucketIs(ds: seq<Discrepancy>, b: Option<Bucket>)
    ensures CountBucket(ds, b) == InBucket(ds, b)
  {
    var inBucket := (d: Discrepancy) => d.bucket == b;
    CountPlaces(ds, b, inBucket);
    assert Places(ds, inBucket) == set i: nat | i < |ds| && ds[i].bucket == b;
  }

  lemma {:induction false} CountPlaces(ds: seq<Discrepancy>, b: Option<Bucket>, inBucket: Discrepancy -> bool)
    requires forall d :: inBucket(d) <==> d.bucket == b
    ensures CountBucket(ds, b) == |Places(ds, inBucket)|
  {
    if ds == [] {
      assert Places(ds, inBucket) == {};
    } else {
      CountPlaces(ds[..|ds| - 1], b, inBucket);
      PlacesNext(ds, inBucket);
    }
  }

  datatype Report = Report(
    v1Count: nat, v2Count: nat, matchedCount: nat,
    duplicatesV1: seq<RecordId>, duplicatesV2: seq<RecordId>,
    discrepancies: seq<Discrepancy>, bucketCounts: map<Option<Bucket>, nat>
  )

  /** The four buckets and `None` for the unresolved. */
  const COUNTED: set<Option<Bucket>> :=
    {Some(V1Loss), Some(V2Defect), Some(SourceDrift), Some(ExpectedSemanticDifference), None}

  /** The details of both records tell different things of `f`. */
  predicate DetailDiffers(r1: Record, r2: Record, f: Field) {
    f in r1.details && f in r2.details && r1.details[f] != r2.details[f]
  }

  /** One difference of the two records needs their timestamps, and these cannot be compared. */
  ghost predicate SharedRaises(r1: Record, r2: Record, ev: Evidence) {
    && Incomparable(r1, r2)
    && (|| (r1.status != r2.status && !Expected(STATUS_FIELD, ev.expectedFields))
        || exists f :: DetailDiffers(r1, r2, f) && !Expected(f, ev.expectedFields))
  }

  /** `None` is the TypeError of a comparison of timestamps. */
  method SharedDiscrepancies(r1: Record, r2: Record, ev: Evidence) returns (r: Option<seq<Discrepancy>>)
    ensures r == if SharedRaises(r1, r2, ev) then None else Some(SharedPart(r1, r2, ev))
  {
    hide StatusPart, DetailPart, BoqPart, DetailOrder, Incomparable;
    if r1.status != r2.status && ClassifyRaises(STATUS_FIELD, r1, r2, ev.expectedFields) { return None; }
    var ds := StatusPart(r1, r2, ev);
    var fields := DetailOrder(r1, r2);
    for i := 0 to |fields|
      invariant ds == StatusPart(r1, r2, ev) + DetailParts(r1, r2, fields[..i], ev)
      invariant forall f :: f in fields[..i] && DetailDiffers(r1, r2, f) ==>
                              !ClassifyRaises(f, r1, r2, ev.expectedFields)
    {
      var f := fields[i];
      assert fields[..i + 1][..i] == fields[..i] && fields[..i + 1] == fields[..i] + [f];
      if DetailDiffers(r1, r2, f) && ClassifyRaises(f, r1, r2, ev.expectedFields) { return None; }
      assert StatusPart(r1, r2, ev) + (DetailParts(r1, r2, fields[..i], ev) + DetailPart(r1, r2, f, ev))
          == ds + DetailPart(r1, r2, f, ev);
      ds := ds + DetailPart(r1, r2, f, ev);
    }
    assert fields[..|fields|] == fields;
    forall f | DetailDiffers(r1, r2, f) ensures !ClassifyRaises(f, r1, r2, ev.expectedFields) {
      DetailOrderCovers(r1, r2, f);
    }
    r := Some(ds + BoqPart(r1, r2, ev));
  }

  method CountBuckets(ds: seq<Discrepancy>) returns (counts: map<Option<Bucket>, nat>)
    ensures counts.Keys == COUNTED
    ensures forall b :: b in counts ==> counts[b] == InBucket(ds, b)
  {
    counts := map b | b in COUNTED :: 0;
    for i := 0 to |ds|
      invariant counts.Keys == COUNTED && forall b :: b in counts ==> counts[b] == CountBucket(ds[..i], b)
    {
      assert ds[..i + 1][..i] == ds[..i];
      assert ds[i].bucket in COUNTED by {
        match ds[i].bucket
        case None =>
        case Some(b) =>
          match b { case V1Loss => case V2Defect => case SourceDrift => case ExpectedSemanticDifference => }
      }
      counts := counts[ds[i].bucket := counts[ds[i].bucket] + 1];
    }
    assert ds[..|ds|] == ds;
    forall b | b in counts ensures counts[b] == InBucket(ds, b) { CountBucketIs(ds, b); }
  }

  ghost predicate RaisesOn(x1: Index, x2: Index, id: RecordId, ev: Evidence) {
    id in x1 && id in x2 && SharedRaises(x1[id], x2[id], ev)
  }

  /** Some id has a difference to explain by the timestamps, one of them naive and one zoned. */
  ghost predicate Raises(v1: seq<Record>, v2: seq<Record>, ev: Evidence) {
    exists id: RecordId :: RaisesOn(FirstRecords(v1), FirstRecords(v2), id, ev)
  }

  method CompareSnapshots(v1: seq<Record>, v2: seq<Record>, ev: Evidence) returns (r: Option<Report>)
    ensures r.None? <==> Raises(v1, v2, ev)
    ensures r.Some? ==>
              var report := r.value;
              && report.v1Count == |v1| && report.v2Count == |v2|
              && report.matchedCount == |FirstRecords(v1).Keys * FirstRecords(v2).Keys|
              && report.duplicatesV1 == Duplicates(v1) && report.duplicatesV2 == Duplicates(v2)
              && report.discrepancies == Discrepancies(v1, v2, ev)
              && report.bucketCounts.Keys == COUNTED
              && forall b :: b in report.bucketCounts ==> report.bucketCounts[b] == InBucket(report.discrepancies, b)
  {
    hide SharedPart, SharedRaises, ScopedAbsence, IdOrder, FirstRecords, Duplicates, CountBucket;
    var x1, duplicates1 := IndexById(v1);
    var x2, duplicates2 := IndexById(v2);
    var ids := IdOrder(x1, x2);
    var ds: seq<Discrepancy> := [];
    for i := 0 to |ids|
      invariant ds == Parts(x1, x2, ids[..i], ev)
      invariant forall id :: id in ids[..i] ==> !RaisesOn(x1, x2, id, ev)
    {
      var id := ids[i];
      assert ids[..i + 1][..i] == ids[..i] && ids[..i + 1] == ids[..i] + [id];
      if id in x1 && id in x2 {
        var shared := SharedDiscrepancies(x1[id], x2[id], ev);
        if shared.None? {
          assert RaisesOn(x1, x2, id, ev);
          return None;
        }
        ds := ds + shared.value;
      } else {
        ds := ds + PartOf(x1, x2, id, ev);
      }
    }
    assert ids[..|ids|] == ids;
    forall id: RecordId ensures !RaisesOn(x1, x2, id, ev) { IdOrderCovers(x1, x2, id); }
    var counts := CountBuckets(ds);
    r := Some(Report(|v1|, |v2|, |x1.Keys * x2.Keys|, duplicates1, duplicates2, ds, counts));
  }

  // ----- The report is complete -----

  /** Two first records tell the same story. */
  ghost predicate Agree(r1: Record, r2: Record) {
    && r1.status == r2.status
    && r1.details == r2.details
    && (HasBoq(r1) <==> HasBoq(r2))
    && (HasBoq(r1) && HasBoq(r2) ==> r1.boq.value.completeness == r2.boq.value.completeness)
  }

  lemma {:induction false} DetailPartsEmpty(r1: Record, r2: Record, fields: seq<Field>, ev: Evidence)
    ensures DetailParts(r1, r2, fields, ev) == [] <==> forall f :: f in fields ==> DetailPart(r1, r2, f, ev) == []
  {
    hide DetailPart;
    if fields != [] {
      var init, last := fields[..|fields| - 1], fields[|fields| - 1];
      DetailPartsEmpty(r1, r2, init, ev);
      assert forall f :: f in fields <==> f in init || f == last;
    }
  }

  lemma {:induction false} DetailOrderCovers(r1: Record, r2: Record, f: Field)
    ensures f in DetailOrder(r1, r2) <==> f in r1.details || f in r2.details
  {
    SortedElements(r1.details.Keys * r2.details.Keys);
    SortedElements(r1.details.Keys - r2.details.Keys);
    SortedElements(r2.details.Keys - r1.details.Keys);
  }

  lemma {:induction false} SharedEmptyIffAgree(r1: Record, r2: Record, ev: Evidence)
    ensures SharedPart(r1, r2, ev) == [] <==> Agree(r1, r2)
  {
    var fields := DetailOrder(r1, r2);
    DetailPartsEmpty(r1, r2, fields, ev);
    assert DetailParts(r1, r2, fields, ev) == [] <==> r1.details == r2.details by {
      forall f ensures f in fields <==> f in r1.details || f in r2.details { DetailOrderCovers(r1, r2, f); }
      if DetailParts(r1, r2, fields, ev) == [] {
        forall f: Field
          ensures (f in r1.details <==> f in r2.details) && (f in r1.details ==> r1.details[f] == r2.details[f])
        {
          if f in fields { assert DetailPart(r1, r2, f, ev) == []; }
        }
      }
    }
  }

  lemma {:induction false} PartsEmpty(x1: Index, x2: Index, ids: seq<RecordId>, ev: Evidence)
    ensures Parts(x1, x2, ids, ev) == [] <==> forall id :: id in ids ==> PartOf(x1, x2, id, ev) == []
  {
    hide PartOf;
    if ids != [] {
      var init, last := ids[..|ids| - 1], ids[|ids| - 1];
      PartsEmpty(x1, x2, init, ev);
      assert forall id :: id in ids <==> id in init || id == last;
    }
  }

  lemma {:induction false} IdOrderCovers(x1: Index, x2: Index, id: RecordId)
    ensures id in IdOrder(x1, x2) <==> id in x1 || id in x2
  {
    SortedElements(x1.Keys - x2.Keys);
    SortedElements(x2.Keys - x1.Keys);
    SortedElements(x1.Keys * x2.Keys);
  }

  /** Nothing to report on `id`: it is on both sides with agreeing records, or on neither. */
  ghost predicate NothingOn(x1: Index, x2: Index, id: RecordId) {
    (id in x1 <==> id in x2) && (id in x1 && id in x2 ==> Agree(x1[id], x2[id]))
  }

  lemma {:induction false} PartEmpty(x1: Index, x2: Index, id: RecordId, ev: Evidence)
    ensures PartOf(x1, x2, id, ev) == [] <==> NothingOn(x1, x2, id)
  {
    if id in x1 && id in x2 {
      SharedEmptyIffAgree(x1[id], x2[id], ev);
      hide SharedPart, Agree;
    }
  }

  lemma {:induction false} NothingOnAny(x1: Index, x2: Index)
    ensures (forall id: RecordId :: NothingOn(x1, x2, id)) <==>
            x1.Keys == x2.Keys && forall id :: id in x1 && id in x2 ==> Agree(x1[id], x2[id])
  {
    hide Agree;
    if forall id: RecordId :: NothingOn(x1, x2, id) {
      forall id: RecordId ensures id in x1.Keys <==> id in x2.Keys { assert NothingOn(x1, x2, id); }
      forall id | id in x1 && id in x2 ensures Agree(x1[id], x2[id]) { assert NothingOn(x1, x2, id); }
    }
  }

  /** No discrepancy exactly when the ids match and the first records of each id agree. */
  lemma {:induction false} ReportIsComplete(v1: seq<Record>, v2: seq<Record>, ev: Evidence)
    ensures var x1, x2 := FirstRecords(v1), FirstRecords(v2);
            Discrepancies(v1, v2, ev) == [] <==>
              x1.Keys == x2.Keys && forall id :: id in x1 && id in x2 ==> Agree(x1[id], x2[id])
  {
    var x1, x2 := FirstRecords(v1), FirstRecords(v2);
    var ids := IdOrder(x1, x2);
    NothingOnAny(x1, x2);
    PartsEmpty(x1, x2, ids, ev);
    forall id: RecordId ensures id in ids ==> (PartOf(x1, x2, id, ev) == [] <==> NothingOn(x1, x2, id))
                        ensures id !in ids ==> NothingOn(x1, x2, id) {
      IdOrderCovers(x1, x2, id);
      PartEmpty(x1, x2, id, ev);
    }
    hide Parts, PartOf, IdOrder, Agree, NothingOn, FirstRecords;
  }

  // ----- Conservation -----

  function CountKind(ds: seq<Discrepancy>, k: DiscrepancyKind): nat {
    if ds == [] then 0
    else CountKind(ds[..|ds| - 1], k) + (if ds[|ds| - 1].kind == k then 1 else 0)
  }

  lemma {:induction false} CountKindConcat(a: seq<Discrepancy>, b: seq<Discrepancy>, k: DiscrepancyKind)
    ensures CountKind(a + b, k) == CountKind(a, k) + CountKind(b, k)
  {
    if b == [] {
      assert a + b == a;
    } else {
      assert (a + b)[..|a + b| - 1] == a + b[..|b| - 1];
      CountKindConcat(a, b[..|b| - 1], k);
    }
  }

  lemma {:induction false} NoMissingIn(ds: seq<Discrepancy>)
    requires forall d :: d in ds ==> d.kind != MissingFromV1 && d.kind != MissingFromV2
    ensures CountKind(ds, MissingFromV1) == CountKind(ds, MissingFromV2) == 0
  {
    if ds != [] {
      assert ds[|ds| - 1] in ds;
      NoMissingIn(ds[..|ds| - 1]);
    }
  }

  lemma {:induction false} DetailKinds(r1: Record, r2: Record, fields: seq<Field>, ev: Evidence)
    ensures forall d :: d in DetailParts(r1, r2, fields, ev) ==> d.kind == FieldMismatch
  {
    if fields != [] { DetailKinds(r1, r2, fields[..|fields| - 1], ev); }
  }

  lemma {:induction false} PartKinds(x1: Index, x2: Index, id: RecordId, ev: Evidence)
    ensures CountKind(PartOf(x1, x2, id, ev), MissingFromV2) == if id in x1 && id !in x2 then 1 else 0
    ensures CountKind(PartOf(x1, x2, id, ev), MissingFromV1) == if id in x2 && id !in x1 then 1 else 0
  {
    var part := PartOf(x1, x2, id, ev);
    if id in x1 && id in x2 {
      var r1, r2 := x1[id], x2[id];
      DetailKinds(r1, r2, DetailOrder(r1, r2), ev);
      hide DetailOrder, DetailParts;
      NoMissingIn(part);
    } else if id in x1 || id in x2 {
      assert part[..0] == [];
    }
  }

  /** How many of `ids` are on the first side only. */
  function CountOnly(x1: Index, x2: Index, ids: seq<RecordId>): nat {
    if ids == [] then 0
    else CountOnly(x1, x2, ids[..|ids| - 1]) + (if ids[|ids| - 1] in x1 && ids[|ids| - 1] !in x2 then 1 else 0)
  }

  lemma {:induction false} PartsKinds(x1: Index, x2: Index, ids: seq<RecordId>, ev: Evidence)
    ensures CountKind(Parts(x1, x2, ids, ev), MissingFromV2) == CountOnly(x1, x2, ids)
    ensures CountKind(Parts(x1, x2, ids, ev), MissingFromV1) == CountOnly(x2, x1, ids)
  {
    hide PartOf;
    if ids != [] {
      var init, last := ids[..|ids| - 1], ids[|ids| - 1];
      PartsKinds(x1, x2, init, ev);
      PartKinds(x1, x2, last, ev);
      CountKindConcat(Parts(x1, x2, init, ev), PartOf(x1, x2, last, ev), MissingFromV2);
      CountKindConcat(Parts(x1, x2, init, ev), PartOf(x1, x2, last, ev), MissingFromV1);
    }
  }

  lemma {:induction false} CountOnlyConcat(x1: Index, x2: Index, a: seq<RecordId>, b: seq<RecordId>)
    ensures CountOnly(x1, x2, a + b) == CountOnly(x1, x2, a) + CountOnly(x1, x2, b)
  {
    if b == [] {
      assert a + b == a;
    } else {
      assert (a + b)[..|a + b| - 1] == a + b[..|b| - 1];
      CountOnlyConcat(x1, x2, a, b[..|b| - 1]);
    }
  }

  lemma {:induction false} CountOnlyUniform(x1: Index, x2: Index, ids: seq<RecordId>, only: bool)
    requires forall id :: id in ids ==> (only <==> id in x1 && id !in x2)
    ensures CountOnly(x1, x2, ids) == if only then |ids| else 0
  {
    if ids != [] {
      assert ids[|ids| - 1] in ids;
      CountOnlyUniform(x1, x2, ids[..|ids| - 1], only);
    }
  }

  lemma {:induction false} MissingCounted(x1: Index, x2: Index)
    ensures CountOnly(x1, x2, IdOrder(x1, x2)) == |x1.Keys - x2.Keys|
    ensures CountOnly(x2, x1, IdOrder(x1, x2)) == |x2.Keys - x1.Keys|
  {
    var a, b, c := Sorted(x1.Keys - x2.Keys), Sorted(x2.Keys - x1.Keys), Sorted(x1.Keys * x2.Keys);
    SortedElements(x1.Keys - x2.Keys);
    SortedElements(x2.Keys - x1.Keys);
    SortedElements(x1.Keys * x2.Keys);
    CountOnlyConcat(x1, x2, a + b, c);
    CountOnlyConcat(x1, x2, a, b);
    CountOnlyUniform(x1, x2, a, true);
    CountOnlyUniform(x1, x2, b, false);
    CountOnlyUniform(x1, x2, c, false);
    CountOnlyConcat(x2, x1, a + b, c);
    CountOnlyConcat(x2, x1, a, b);
    CountOnlyUniform(x2, x1, a, false);
    CountOnlyUniform(x2, x1, b, true);
    CountOnlyUniform(x2, x1, c, false);
  }

  /** Each side's records are matched, reported missing on the other side, or duplicates. */
  lemma {:induction false} RecordsAreConserved(v1: seq<Record>, v2: seq<Record>, ev: Evidence)
    ensures var ds := Discrepancies(v1, v2, ev);
            var matched := |FirstRecords(v1).Keys * FirstRecords(v2).Keys|;
            && |v1| == matched + CountKind(ds, MissingFromV2) + |Duplicates(v1)|
            && |v2| == matched + CountKind(ds, MissingFromV1) + |Duplicates(v2)|
  {
    var x1, x2 := FirstRecords(v1), FirstRecords(v2);
    IndexConserves(v1);
    IndexConserves(v2);
    PartsKinds(x1, x2, IdOrder(x1, x2), ev);
    MissingCounted(x1, x2);
    assert x1.Keys == (x1.Keys - x2.Keys) + (x1.Keys * x2.Keys);
    assert x2.Keys == (x2.Keys - x1.Keys) + (x1.Keys * x2.Keys);
  }

  /** The five counts add up to the number of discrepancies. */
  lemma {:induction false} BucketsAddUp(ds: seq<Discrepancy>)
    ensures CountBucket(ds, Some(V1Loss)) + CountBucket(ds, Some(V2Defect)) + CountBucket(ds, Some(SourceDrift))
            + CountBucket(ds, Some(ExpectedSemanticDifference)) + CountBucket(ds, None) == |ds|
  {
    if ds != [] {
      BucketsAddUp(ds[..|ds| - 1]);
      match ds[|ds| - 1].bucket {
        case None =>
        case Some(b) =>
          match b { case V1Loss => case V2Defect => case SourceDrift => case ExpectedSemanticDifference => }
      }
    }
  }

  // ----- More evidence never confuses -----

  ghost predicate Supplied<T(!new)>(before: Option<set<T>>, after: Option<set<T>>) {
    before == None || after == before
  }

  /** `after` adds evidence where `before` had none. */
  ghost predicate MoreEvidence(before: Evidence, after: Evidence) {
    && Supplied(before.v1Covers, after.v1Covers)
    && Supplied(before.v2Covers, after.v2Covers)
    && Supplied(before.expectedFields, after.expectedFields)
  }

  /** The same difference, its bucket aside; a resolved one stays resolved, and with only
      scope sets added it keeps its bucket. */
  ghost predicate Refined(d: Discrepancy, e: Discrepancy, scopeOnly: bool) {
    && e == d.(bucket := e.bucket)
    && (d.bucket.Some? ==> e.bucket.Some?)
    && (scopeOnly && d.bucket.Some? ==> e.bucket == d.bucket)
  }

  ghost predicate AllRefined(ds: seq<Discrepancy>, es: seq<Discrepancy>, scopeOnly: bool) {
    |ds| == |es| && forall i :: 0 <= i < |ds| ==> Refined(ds[i], es[i], scopeOnly)
  }

  lemma {:induction false} RefinedConcat(a: seq<Discrepancy>, b: seq<Discrepancy>, c: seq<Discrepancy>,
                                         d: seq<Discrepancy>, scopeOnly: bool)
    requires AllRefined(a, b, scopeOnly) && AllRefined(c, d, scopeOnly)
    ensures AllRefined(a + c, b + d, scopeOnly)
  {
  }

  lemma {:induction false} DetailsRefined(r1: Record, r2: Record, fields: seq<Field>, ev: Evidence, more: Evidence)
    requires MoreEvidence(ev, more)
    ensures AllRefined(DetailParts(r1, r2, fields, ev), DetailParts(r1, r2, fields, more),
                       ev.expectedFields == more.expectedFields)
  {
    var scopeOnly := ev.expectedFields == more.expectedFields;
    if fields != [] {
      var init, f := fields[..|fields| - 1], fields[|fields| - 1];
      DetailsRefined(r1, r2, init, ev, more);
      assert AllRefined(DetailPart(r1, r2, f, ev), DetailPart(r1, r2, f, more), scopeOnly);
      RefinedConcat(DetailParts(r1, r2, init, ev), DetailParts(r1, r2, init, more),
                    DetailPart(r1, r2, f, ev), DetailPart(r1, r2, f, more), scopeOnly);
    }
  }

  lemma {:induction false} SharedRefined(r1: Record, r2: Record, ev: Evidence, more: Evidence)
    requires MoreEvidence(ev, more)
    ensures AllRefined(SharedPart(r1, r2, ev), SharedPart(r1, r2, more), ev.expectedFields == more.expectedFields)
  {
    var scopeOnly := ev.expectedFields == more.expectedFields;
    var fields := DetailOrder(r1, r2);
    assert AllRefined(StatusPart(r1, r2, ev), StatusPart(r1, r2, more), scopeOnly);
    assert AllRefined(BoqPart(r1, r2, ev), BoqPart(r1, r2, more), scopeOnly);
    DetailsRefined(r1, r2, fields, ev, more);
    hide StatusPart, BoqPart, DetailParts, DetailOrder, AllRefined;
    var status0, status1 := StatusPart(r1, r2, ev), StatusPart(r1, r2, more);
    var details0, details1 := DetailParts(r1, r2, fields, ev), DetailParts(r1, r2, fields, more);
    RefinedConcat(status0, status1, details0, details1, scopeOnly);
    RefinedConcat(status0 + details0, status1 + details1, BoqPart(r1, r2, ev), BoqPart(r1, r2, more), scopeOnly);
  }

  lemma {:induction false} PartsRefined(x1: Index, x2: Index, ids: seq<RecordId>, ev: Evidence, more: Evidence)
    requires MoreEvidence(ev, more)
    ensures AllRefined(Parts(x1, x2, ids, ev), Parts(x1, x2, ids, more), ev.expectedFields == more.expectedFields)
  {
    var scopeOnly := ev.expectedFields == more.expectedFields;
    if ids != [] {
      var init, id := ids[..|ids| - 1], ids[|ids| - 1];
      PartsRefined(x1, x2, init, ev, more);
      if id in x1 && id in x2 { SharedRefined(x1[id], x2[id], ev, more); }
      hide SharedPart;
      assert AllRefined(PartOf(x1, x2, id, ev), PartOf(x1, x2, id, more), scopeOnly);
      hide PartOf, AllRefined;
      RefinedConcat(Parts(x1, x2, init, ev), Parts(x1, x2, init, more),
                    PartOf(x1, x2, id, ev), PartOf(x1, x2, id, more), scopeOnly);
    }
  }

  lemma {:induction false} UnresolvedShrinks(ds: seq<Discrepancy>, es: seq<Discrepancy>, scopeOnly: bool)
    requires AllRefined(ds, es, scopeOnly)
    ensures CountBucket(es, None) <= CountBucket(ds, None)
    decreases |ds|
  {
    if ds != [] {
      UnresolvedShrinks(ds[..|ds| - 1], es[..|es| - 1], scopeOnly);
      assert Refined(ds[|ds| - 1], es[|es| - 1], scopeOnly);
    }
  }

  /** Supplying evidence where there was none leaves the sequence of differences alone, keeps
      the resolved ones resolved and never raises the unresolved count; scope sets alone
      change nothing that was resolved. */
  lemma {:induction false} MoreEvidenceNeverConfuses(v1: seq<Record>, v2: seq<Record>, ev: Evidence, more: Evidence)
    requires MoreEvidence(ev, more)
    ensures var ds, es := Discrepancies(v1, v2, ev), Discrepancies(v1, v2, more);
            && AllRefined(ds, es, ev.expectedFields == more.expectedFields)
            && CountBucket(es, None) <= CountBucket(ds, None)
  {
    var x1, x2 := FirstRecords(v1), FirstRecords(v2);
    PartsRefined(x1, x2, IdOrder(x1, x2), ev, more);
    UnresolvedShrinks(Discrepancies(v1, v2, ev), Discrepancies(v1, v2, more), ev.expectedFields == more.expectedFields);
  }

  /** Nor does more evidence make the comparison raise; and where there is nothing to report,
      it never does. */
  lemma {:induction false} MoreEvidenceNeverRaises(v1: seq<Record>, v2: seq<Record>, ev: Evidence, more: Evidence)
    requires MoreEvidence(ev, more)
    ensures Raises(v1, v2, more) ==> Raises(v1, v2, ev)
    ensures Raises(v1, v2, ev) ==> Discrepancies(v1, v2, ev) != []
  {
    var x1, x2 := FirstRecords(v1), FirstRecords(v2);
    hide FirstRecords, Discrepancies, Incomparable;
    if id: RecordId :| RaisesOn(x1, x2, id, more) { assert RaisesOn(x1, x2, id, ev); }
    if id: RecordId :| RaisesOn(x1, x2, id, ev) {
      assert !Agree(x1[id], x2[id]);
      ReportIsComplete(v1, v2, ev);
    }
  }
}
