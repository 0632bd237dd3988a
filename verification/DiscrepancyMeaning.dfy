/**
  What each discrepancy of a shadow comparison says and which bucket it is in, in terms of the
  first records of its id and the evidence alone (packages/tender/shadow_comparison.py).
*/
module DiscrepancyMeaning {
  import opened Common
  import opened ShadowComparison

  /** `r` is the first of the records with id `k`, if there is one. */
  ghost predicate FirstWith(records: seq<Record>, k: RecordId, r: Option<Record>) {
    match r
    case None => forall i :: 0 <= i < |records| ==> records[i].id != k
    case Some(first) => exists i: nat :: IsFirst(records, i, k) && records[i] == first
  }

  // ----- What a discrepancy says -----

  function Listed(r: Record, f: Field): Shown {
    if f in r.details then Number(r.details[f]) else Nothing
  }

  ghost predicate TellsStatus(a: Record, b: Record, d: Discrepancy) {
    && d.field == Some(STATUS_FIELD) && a.status != b.status
    && d.v1 == StatusValue(a.status) && d.v2 == StatusValue(b.status)
  }

  ghost predicate TellsDetail(a: Record, b: Record, d: Discrepancy) {
    && d.field.Some? && d.v1 == Listed(a, d.field.value) && d.v2 == Listed(b, d.field.value) && d.v1 != d.v2
  }

  /** The difference is there, and is shown as it is. */
  ghost predicate Told(a: Option<Record>, b: Option<Record>, d: Discrepancy) {
    match d.kind
    case MissingFromV2 => a.Some? && b.None? && d.field == None && d.v1 == Flag(true) && d.v2 == Flag(false)
    case MissingFromV1 => a.None? && b.Some? && d.field == None && d.v1 == Flag(false) && d.v2 == Flag(true)
    case FieldMismatch => a.Some? && b.Some? && (TellsStatus(a.value, b.value, d) || TellsDetail(a.value, b.value, d))
    case BoqPresenceMismatch =>
      && a.Some? && b.Some? && d.field == None
      && d.v1 == Flag(HasBoq(a.value)) && d.v2 == Flag(HasBoq(b.value)) && d.v1 != d.v2
    case BoqCompletenessMismatch =>
      && a.Some? && b.Some? && HasBoq(a.value) && HasBoq(b.value) && d.field == Some(COMPLETENESS_FIELD)
      && d.v1 == CompletenessValue(a.value.boq.value.completeness)
      && d.v2 == CompletenessValue(b.value.boq.value.completeness) && d.v1 != d.v2
  }

  // ----- Which bucket it is in -----

  /** What v1 has, record or bill, v2 lacks. */
  ghost predicate LackedByV2(d: Discrepancy) {
    d.kind == MissingFromV2 || (d.kind == BoqPresenceMismatch && d.v1 == Flag(true))
  }

  ghost predicate LackedByV1(d: Discrepancy) {
    d.kind == MissingFromV1 || (d.kind == BoqPresenceMismatch && d.v1 == Flag(false))
  }

  ghost predicate KindIn(r: Option<Record>, covers: Option<set<RecordKind>>) {
    r.Some? && r.value.kind.Some? && covers.Some? && r.value.kind.value in covers.value
  }

  ghost predicate KindOutside(r: Option<Record>, covers: Option<set<RecordKind>>) {
    r.Some? && r.value.kind.Some? && covers.Some? && r.value.kind.value !in covers.value
  }

  /** A field both sides have, and which nobody declared to differ. */
  ghost predicate Unexplained(d: Discrepancy, ev: Evidence) {
    && d.kind == FieldMismatch && d.v1 != Nothing && d.v2 != Nothing
    && d.field.Some? && (ev.expectedFields == None || d.field.value !in ev.expectedFields.value)
  }

  /** v2 saw the record later than v1, by timestamps of one sort. */
  ghost predicate SeenLater(a: Option<Record>, b: Option<Record>) {
    && a.Some? && b.Some? && a.value.capturedAt.Some? && b.value.capturedAt.Some?
    && match (a.value.capturedAt.value, b.value.capturedAt.value)
       case (Naive(s), Naive(t)) => s < t
       case (Zoned(s), Zoned(t)) => s < t
       case _ => false
  }

  const NO_STATUS: Shown := CompletenessValue(None)
  const COMPLETE: Shown := CompletenessValue(Some(CompleteStatus))
  const INCOMPLETE: Shown := CompletenessValue(Some(IncompleteStatus))

  /** Both bills have a completeness status. */
  ghost predicate BothJudged(d: Discrepancy) {
    d.kind == BoqCompletenessMismatch && d.v1 != NO_STATUS && d.v2 != NO_STATUS
  }

  ghost predicate IsV2Defect(a: Option<Record>, ev: Evidence, d: Discrepancy) {
    || (LackedByV2(d) && KindIn(a, ev.v2Covers))
    || (BothJudged(d) && d.v1 == COMPLETE && d.v2 == INCOMPLETE)
  }

  ghost predicate IsV1Loss(b: Option<Record>, ev: Evidence, d: Discrepancy) {
    || (LackedByV1(d) && KindIn(b, ev.v1Covers))
    || (BothJudged(d) && d.v1 != COMPLETE && d.v2 == COMPLETE)
  }

  ghost predicate IsDrift(a: Option<Record>, b: Option<Record>, ev: Evidence, d: Discrepancy) {
    Unexplained(d, ev) && SeenLater(a, b)
  }

  ghost predicate IsExpected(a: Option<Record>, b: Option<Record>, ev: Evidence, d: Discrepancy) {
    || (LackedByV2(d) && KindOutside(a, ev.v2Covers))
    || (LackedByV1(d) && KindOutside(b, ev.v1Covers))
    || (d.kind == FieldMismatch && !Unexplained(d, ev))
    || (d.kind == BoqCompletenessMismatch && !BothJudged(d))
  }

  /** No evidence decides: no kind or no scope, no order of the sightings, or two statuses that
      blame neither side. */
  ghost predicate IsOpen(a: Option<Record>, b: Option<Record>, ev: Evidence, d: Discrepancy) {
    || (LackedByV2(d) && !KindIn(a, ev.v2Covers) && !KindOutside(a, ev.v2Covers))
    || (LackedByV1(d) && !KindIn(b, ev.v1Covers) && !KindOutside(b, ev.v1Covers))
    || (Unexplained(d, ev) && !SeenLater(a, b))
    || (BothJudged(d) && d.v2 != COMPLETE && !(d.v1 == COMPLETE && d.v2 == INCOMPLETE))
  }

  ghost predicate Bucketed(a: Option<Record>, b: Option<Record>, ev: Evidence, d: Discrepancy) {
    && (d.bucket == Some(V2Defect) <==> IsV2Defect(a, ev, d))
    && (d.bucket == Some(V1Loss) <==> IsV1Loss(b, ev, d))
    && (d.bucket == Some(SourceDrift) <==> IsDrift(a, b, ev, d))
    && (d.bucket == Some(ExpectedSemanticDifference) <==> IsExpected(a, b, ev, d))
    && (d.bucket == None <==> IsOpen(a, b, ev, d))
  }

  ghost predicate Due(a: Option<Record>, b: Option<Record>, ev: Evidence, d: Discrepancy) {
    Told(a, b, d) && Bucketed(a, b, ev, d)
  }

  // ----- The parts of the report -----

  lemma {:induction false} MissingFromV2Due(id: RecordId, r: Record, ev: Evidence, d: Discrepancy)
    ensures d == ScopedAbsence(id, MissingFromV2, r.kind, ev.v2Covers, V2Defect, Flag(true), Flag(false)) <==>
            d.id == id && Due(Some(r), None, ev, d)
  {
  }

  lemma {:induction false} MissingFromV1Due(id: RecordId, r: Record, ev: Evidence, d: Discrepancy)
    ensures d == ScopedAbsence(id, MissingFromV1, r.kind, ev.v1Covers, V1Loss, Flag(false), Flag(true)) <==>
            d.id == id && Due(None, Some(r), ev, d)
  {
  }

  lemma {:induction false} StatusDue(r1: Record, r2: Record, ev: Evidence, d: Discrepancy)
    ensures d in StatusPart(r1, r2, ev) <==>
            d.id == r1.id && d.kind == FieldMismatch && TellsStatus(r1, r2, d) && Bucketed(Some(r1), Some(r2), ev, d)
  {
    if r1.status != r2.status {
      FieldDue(r1, r2, STATUS_FIELD, StatusValue(r1.status), StatusValue(r2.status), ev, d);
      hide Bucketed, ClassifyField;
    }
  }

  lemma {:induction false} FieldDue(r1: Record, r2: Record, f: Field, v1: Shown, v2: Shown, ev: Evidence,
                                    d: Discrepancy)
    requires v1 != Nothing && v2 != Nothing
    ensures d == ClassifyField(r1.id, f, v1, v2, r1, r2, ev.expectedFields) <==>
            && d.id == r1.id && d.kind == FieldMismatch && d.field == Some(f) && d.v1 == v1 && d.v2 == v2
            && Bucketed(Some(r1), Some(r2), ev, d)
  {
  }

  lemma {:induction false} DetailDue(r1: Record, r2: Record, f: Field, ev: Evidence, d: Discrepancy)
    ensures d in DetailPart(r1, r2, f, ev) <==>
            && d.id == r1.id && d.kind == FieldMismatch && d.field == Some(f) && TellsDetail(r1, r2, d)
            && Bucketed(Some(r1), Some(r2), ev, d)
  {
    if f in r1.details && f in r2.details {
      FieldDue(r1, r2, f, Number(r1.details[f]), Number(r2.details[f]), ev, d);
      hide Bucketed, ClassifyField;
    }
  }

  lemma {:induction false} BoqDue(r1: Record, r2: Record, ev: Evidence, d: Discrepancy)
    ensures d in BoqPart(r1, r2, ev) <==>
            && d.id == r1.id && (d.kind == BoqPresenceMismatch || d.kind == BoqCompletenessMismatch)
            && Due(Some(r1), Some(r2), ev, d)
  {
    if HasBoq(r1) && HasBoq(r2) && r1.boq.value.completeness != r2.boq.value.completeness {
      CompletenessDue(r1, r2, ev, d);
    }
  }

  lemma {:induction false} CompletenessDue(r1: Record, r2: Record, ev: Evidence, d: Discrepancy)
    requires HasBoq(r1) && HasBoq(r2) && r1.boq.value.completeness != r2.boq.value.completeness
    ensures d == ClassifyCompleteness(r1.id, r1.boq.value.completeness, r2.boq.value.completeness) <==>
            d.id == r1.id && d.kind == BoqCompletenessMismatch && Due(Some(r1), Some(r2), ev, d)
  {
  }

  lemma {:induction false} DetailPartsIn(r1: Record, r2: Record, fields: seq<Field>, ev: Evidence, d: Discrepancy)
    ensures d in DetailParts(r1, r2, fields, ev) <==> exists f :: f in fields && d in DetailPart(r1, r2, f, ev)
  {
    hide DetailPart;
    if fields != [] {
      var init, last := fields[..|fields| - 1], fields[|fields| - 1];
      DetailPartsIn(r1, r2, init, ev, d);
      assert forall f :: f in fields <==> f in init || f == last;
    }
  }

  lemma {:induction false} DetailsDue(r1: Record, r2: Record, ev: Evidence, d: Discrepancy)
    ensures d in DetailParts(r1, r2, DetailOrder(r1, r2), ev) <==>
            d.id == r1.id && d.kind == FieldMismatch && TellsDetail(r1, r2, d) && Bucketed(Some(r1), Some(r2), ev, d)
  {
    hide DetailPart, DetailOrder, DetailParts, Bucketed;
    DetailPartsIn(r1, r2, DetailOrder(r1, r2), ev, d);
    if d in DetailParts(r1, r2, DetailOrder(r1, r2), ev) {
      var f :| f in DetailOrder(r1, r2) && d in DetailPart(r1, r2, f, ev);
      DetailDue(r1, r2, f, ev, d);
    }
    if d.field.Some? && TellsDetail(r1, r2, d) {
      DetailDue(r1, r2, d.field.value, ev, d);
      DetailOrderCovers(r1, r2, d.field.value);
    }
  }

  lemma {:induction false} SharedDue(r1: Record, r2: Record, ev: Evidence, d: Discrepancy)
    ensures d in SharedPart(r1, r2, ev) <==> d.id == r1.id && Due(Some(r1), Some(r2), ev, d)
  {
    hide StatusPart, DetailParts, DetailOrder, BoqPart, Bucketed, TellsStatus, TellsDetail;
    StatusDue(r1, r2, ev, d);
    DetailsDue(r1, r2, ev, d);
    BoqDue(r1, r2, ev, d);
  }

  function At(x: Index, id: RecordId): Option<Record> {
    if id in x then Some(x[id]) else None
  }

  lemma {:induction false} IndexedById(records: seq<Record>, id: RecordId)
    ensures id in FirstRecords(records) ==> FirstRecords(records)[id].id == id
  {
    if records != [] { IndexedById(records[..|records| - 1], id); }
  }

  lemma {:induction false} PartDue(x1: Index, x2: Index, id: RecordId, ev: Evidence, d: Discrepancy)
    requires id in x1 ==> x1[id].id == id
    ensures d in PartOf(x1, x2, id, ev) <==> d.id == id && Due(At(x1, id), At(x2, id), ev, d)
  {
    hide SharedPart, ScopedAbsence, Bucketed;
    if id in x1 && id in x2 {
      SharedDue(x1[id], x2[id], ev, d);
    } else if id in x1 {
      MissingFromV2Due(id, x1[id], ev, d);
    } else if id in x2 {
      MissingFromV1Due(id, x2[id], ev, d);
    }
  }

  lemma {:induction false} PartsIn(x1: Index, x2: Index, ids: seq<RecordId>, ev: Evidence, d: Discrepancy)
    ensures d in Parts(x1, x2, ids, ev) <==> exists id :: id in ids && d in PartOf(x1, x2, id, ev)
  {
    hide PartOf;
    if ids != [] {
      var init, last := ids[..|ids| - 1], ids[|ids| - 1];
      PartsIn(x1, x2, init, ev, d);
      assert forall id :: id in ids <==> id in init || id == last;
    }
  }

  lemma {:induction false} FirstIs(records: seq<Record>, k: RecordId, r: Option<Record>)
    requires FirstWith(records, k, r)
    ensures At(FirstRecords(records), k) == r
  {
    hide FirstRecords;
    IndexedOccurs(records, k);
    if r.Some? {
      var i: nat :| IsFirst(records, i, k) && records[i] == r.value;
      IndexHoldsFirst(records, i, k);
    }
  }

  /** A discrepancy is reported exactly when the first records of its id differ as it tells, in
      the bucket, or the open state, that records and evidence put it in. */
  lemma {:induction false} ReportedIff(v1: seq<Record>, v2: seq<Record>, ev: Evidence, d: Discrepancy,
                                       a: Option<Record>, b: Option<Record>)
    requires FirstWith(v1, d.id, a) && FirstWith(v2, d.id, b)
    ensures d in Discrepancies(v1, v2, ev) <==> Told(a, b, d) && Bucketed(a, b, ev, d)
  {
    hide PartOf, IdOrder, FirstRecords, Bucketed, Told, FirstWith;
    var x1, x2 := FirstRecords(v1), FirstRecords(v2);
    FirstIs(v1, d.id, a);
    FirstIs(v2, d.id, b);
    PartsIn(x1, x2, IdOrder(x1, x2), ev, d);
    forall id ensures d in PartOf(x1, x2, id, ev) <==> d.id == id && Due(At(x1, id), At(x2, id), ev, d) {
      IndexedById(v1, id);
      PartDue(x1, x2, id, ev, d);
    }
    IdOrderCovers(x1, x2, d.id);
    if a == None && b == None { assert !Told(a, b, d) by { NothingToTell(d); } }
  }

  lemma {:induction false} NothingToTell(d: Discrepancy)
    ensures !Told(None, None, d)
  {
  }

  // ----- The order of the report -----

  /** First what v2 misses, then what v1 misses, then the ids of both sides. */
  function Group(d: Discrepancy): nat {
    match d.kind
    case MissingFromV2 => 0
    case MissingFromV1 => 1
    case _ => 2
  }

  /** Of one record: its status, the fields of both sides, those of v1 alone, those of v2 alone,
      and its bill. */
  function Stage(d: Discrepancy): nat {
    if d.kind != FieldMismatch then 4
    else if d.v1.StatusValue? then 0
    else if d.v1 != Nothing && d.v2 != Nothing then 1
    else if d.v1 != Nothing then 2
    else 3
  }

  function FieldOf(d: Discrepancy): nat {
    if d.field.Some? then d.field.value else 0
  }

  /** `d` comes strictly before `e`. */
  predicate ComesBefore(d: Discrepancy, e: Discrepancy) {
    || Group(d) < Group(e)
    || (Group(d) == Group(e)
        && (d.id < e.id
            || (d.id == e.id && (Stage(d) < Stage(e) || (Stage(d) == Stage(e) && FieldOf(d) < FieldOf(e))))))
  }

  ghost predicate Ordered(ds: seq<Discrepancy>) {
    forall i, j :: 0 <= i < j < |ds| ==> ComesBefore(ds[i], ds[j])
  }

  lemma {:induction false} OrderedConcat(a: seq<Discrepancy>, b: seq<Discrepancy>)
    requires Ordered(a) && Ordered(b) && forall d, e :: d in a && e in b ==> ComesBefore(d, e)
    ensures Ordered(a + b)
  {
    hide ComesBefore;
    forall i, j | 0 <= i < j < |a + b| ensures ComesBefore((a + b)[i], (a + b)[j]) {
      if i < |a| && j >= |a| { assert a[i] in a && b[j - |a|] in b; }
    }
  }

  lemma {:induction false} AtMostOneOrdered(ds: seq<Discrepancy>)
    requires |ds| <= 1
    ensures Ordered(ds)
  {
  }

  /** By group, and increasing within each. */
  ghost predicate Grouped(keys: seq<nat>, group: nat -> nat) {
    forall i, j :: 0 <= i < j < |keys| ==>
      group(keys[i]) < group(keys[j]) || (group(keys[i]) == group(keys[j]) && keys[i] < keys[j])
  }

  lemma {:induction false} GroupedConcat(a: seq<nat>, b: seq<nat>, group: nat -> nat)
    requires Grouped(a, group) && Grouped(b, group) && forall x, y :: x in a && y in b ==> group(x) < group(y)
    ensures Grouped(a + b, group)
  {
    forall i, j | 0 <= i < j < |a + b|
      ensures group((a + b)[i]) < group((a + b)[j])
              || (group((a + b)[i]) == group((a + b)[j]) && (a + b)[i] < (a + b)[j])
    {
      if i < |a| && j >= |a| { assert a[i] in a && b[j - |a|] in b; }
    }
  }

  lemma {:induction false} OneGroup(keys: set<nat>, group: nat -> nat, g: nat)
    requires forall x :: x in keys ==> group(x) == g
    ensures Grouped(Sorted(keys), group) && forall x :: x in Sorted(keys) ==> group(x) == g
  {
    SortedElements(keys);
    hide Sorted;
    forall i | 0 <= i < |Sorted(keys)| ensures group(Sorted(keys)[i]) == g { assert Sorted(keys)[i] in Sorted(keys); }
  }

  /** Three sorted sets, one after the other. */
  lemma {:induction false} ThreeGroups(a: set<nat>, b: set<nat>, c: set<nat>, group: nat -> nat, g: nat)
    requires forall x :: x in a ==> group(x) == g
    requires forall x :: x in b ==> group(x) == g + 1
    requires forall x :: x in c ==> group(x) == g + 2
    ensures Grouped(Sorted(a) + Sorted(b) + Sorted(c), group)
  {
    OneGroup(a, group, g);
    OneGroup(b, group, g + 1);
    OneGroup(c, group, g + 2);
    hide Sorted, Grouped;
    GroupedConcat(Sorted(a), Sorted(b), group);
    GroupedConcat(Sorted(a) + Sorted(b), Sorted(c), group);
  }

  /** Where a detail stands among the fields of a record. */
  function FieldStage(r1: Record, r2: Record, f: Field): nat {
    if f in r1.details && f in r2.details then 1 else if f in r1.details then 2 else 3
  }

  ghost predicate FieldsOrdered(r1: Record, r2: Record, fields: seq<Field>) {
    forall i, j :: 0 <= i < j < |fields| ==>
      || FieldStage(r1, r2, fields[i]) < FieldStage(r1, r2, fields[j])
      || (FieldStage(r1, r2, fields[i]) == FieldStage(r1, r2, fields[j]) && fields[i] < fields[j])
  }

  lemma {:induction false} DetailPlace(r1: Record, r2: Record, f: Field, ev: Evidence, d: Discrepancy)
    requires d in DetailPart(r1, r2, f, ev)
    ensures Group(d) == 2 && d.id == r1.id && Stage(d) == FieldStage(r1, r2, f) && FieldOf(d) == f
  {
  }

  lemma {:induction false} DetailPartsOrdered(r1: Record, r2: Record, fields: seq<Field>, ev: Evidence)
    requires FieldsOrdered(r1, r2, fields)
    ensures Ordered(DetailParts(r1, r2, fields, ev))
  {
    if fields != [] {
      hide DetailPart, FieldStage, Stage, FieldOf;
      var n := |fields| - 1;
      var init, f := fields[..n], fields[n];
      assert FieldsOrdered(r1, r2, init);
      DetailPartsOrdered(r1, r2, init, ev);
      forall d, e | d in DetailParts(r1, r2, init, ev) && e in DetailPart(r1, r2, f, ev) ensures ComesBefore(d, e) {
        DetailPartsIn(r1, r2, init, ev, d);
        var g :| g in init && d in DetailPart(r1, r2, g, ev);
        var i :| 0 <= i < n && fields[i] == g;
        DetailPlace(r1, r2, g, ev, d);
        DetailPlace(r1, r2, f, ev, e);
      }
      DetailPartOne(r1, r2, f, ev);
      AtMostOneOrdered(DetailPart(r1, r2, f, ev));
      OrderedConcat(DetailParts(r1, r2, init, ev), DetailPart(r1, r2, f, ev));
    }
  }

  lemma {:induction false} DetailPartOne(r1: Record, r2: Record, f: Field, ev: Evidence)
    ensures |DetailPart(r1, r2, f, ev)| <= 1
  {
  }

  lemma {:induction false} DetailOrderOrdered(r1: Record, r2: Record)
    ensures FieldsOrdered(r1, r2, DetailOrder(r1, r2))
  {
    var group := (f: nat) => FieldStage(r1, r2, f);
    ThreeGroups(r1.details.Keys * r2.details.Keys, r1.details.Keys - r2.details.Keys,
                r2.details.Keys - r1.details.Keys, group, 1);
    hide Sorted, FieldStage;
    var fields := DetailOrder(r1, r2);
    assert Grouped(fields, group);
    forall i | 0 <= i < |fields| ensures group(fields[i]) == FieldStage(r1, r2, fields[i]) {}
  }

  lemma {:induction false} StatusPlace(r1: Record, r2: Record, ev: Evidence)
    ensures |StatusPart(r1, r2, ev)| <= 1
    ensures forall d :: d in StatusPart(r1, r2, ev) ==> Group(d) == 2 && d.id == r1.id && Stage(d) == 0
  {
  }

  lemma {:induction false} BoqPlace(r1: Record, r2: Record, ev: Evidence)
    ensures |BoqPart(r1, r2, ev)| <= 1
    ensures forall d :: d in BoqPart(r1, r2, ev) ==> Group(d) == 2 && d.id == r1.id && Stage(d) == 4
  {
  }

  lemma {:induction false} SharedOrdered(r1: Record, r2: Record, ev: Evidence)
    ensures Ordered(SharedPart(r1, r2, ev))
    ensures forall d :: d in SharedPart(r1, r2, ev) ==> Group(d) == 2 && d.id == r1.id
  {
    hide StatusPart, BoqPart, DetailPart, DetailParts, DetailOrder, Bucketed, Stage, Group, Ordered, FieldsOrdered;
    var status, boq := StatusPart(r1, r2, ev), BoqPart(r1, r2, ev);
    var details := DetailParts(r1, r2, DetailOrder(r1, r2), ev);
    StatusPlace(r1, r2, ev);
    BoqPlace(r1, r2, ev);
    AtMostOneOrdered(status);
    AtMostOneOrdered(boq);
    DetailOrderOrdered(r1, r2);
    DetailPartsOrdered(r1, r2, DetailOrder(r1, r2), ev);
    forall d | d in details ensures Group(d) == 2 && d.id == r1.id && 1 <= Stage(d) <= 3 {
      DetailPartsIn(r1, r2, DetailOrder(r1, r2), ev, d);
      var f :| f in DetailOrder(r1, r2) && d in DetailPart(r1, r2, f, ev);
      DetailPlace(r1, r2, f, ev, d);
    }
    OrderedConcat(status, details);
    OrderedConcat(status + details, boq);
  }

  /** Where an id stands among the ids. */
  function IdGroup(x1: Index, x2: Index, id: RecordId): nat {
    if id in x1 && id !in x2 then 0 else if id !in x1 then 1 else 2
  }

  ghost predicate IdsOrdered(x1: Index, x2: Index, ids: seq<RecordId>) {
    forall i, j :: 0 <= i < j < |ids| ==>
      || IdGroup(x1, x2, ids[i]) < IdGroup(x1, x2, ids[j])
      || (IdGroup(x1, x2, ids[i]) == IdGroup(x1, x2, ids[j]) && ids[i] < ids[j])
  }

  lemma {:induction false} PartOrdered(x1: Index, x2: Index, id: RecordId, ev: Evidence)
    requires id in x1 ==> x1[id].id == id
    ensures Ordered(PartOf(x1, x2, id, ev))
    ensures forall d :: d in PartOf(x1, x2, id, ev) ==> Group(d) == IdGroup(x1, x2, id) && d.id == id
  {
    hide SharedPart;
    if id in x1 && id in x2 { SharedOrdered(x1[id], x2[id], ev); }
  }

  lemma {:induction false} PartsOrdered(x1: Index, x2: Index, ids: seq<RecordId>, ev: Evidence)
    requires IdsOrdered(x1, x2, ids) && forall id :: id in x1 ==> x1[id].id == id
    ensures Ordered(Parts(x1, x2, ids, ev))
  {
    if ids != [] {
      hide PartOf, IdGroup, Stage, FieldOf, Group;
      var n := |ids| - 1;
      var init, id := ids[..n], ids[n];
      assert IdsOrdered(x1, x2, init);
      PartsOrdered(x1, x2, init, ev);
      PartOrdered(x1, x2, id, ev);
      forall d, e | d in Parts(x1, x2, init, ev) && e in PartOf(x1, x2, id, ev) ensures ComesBefore(d, e) {
        PartsIn(x1, x2, init, ev, d);
        var other :| other in init && d in PartOf(x1, x2, other, ev);
        var i :| 0 <= i < n && ids[i] == other;
        PartOrdered(x1, x2, other, ev);
      }
      OrderedConcat(Parts(x1, x2, init, ev), PartOf(x1, x2, id, ev));
    }
  }

  lemma {:induction false} IdOrderOrdered(x1: Index, x2: Index)
    ensures IdsOrdered(x1, x2, IdOrder(x1, x2))
  {
    var group := (id: nat) => IdGroup(x1, x2, id);
    ThreeGroups(x1.Keys - x2.Keys, x2.Keys - x1.Keys, x1.Keys * x2.Keys, group, 0);
    hide Sorted, IdGroup;
    var ids := IdOrder(x1, x2);
    assert Grouped(ids, group);
    forall i | 0 <= i < |ids| ensures group(ids[i]) == IdGroup(x1, x2, ids[i]) {}
  }

  /** The report is strictly ordered: no difference is reported twice. */
  lemma {:induction false} ReportedInOrder(v1: seq<Record>, v2: seq<Record>, ev: Evidence)
    ensures Ordered(Discrepancies(v1, v2, ev)) && Distinct(Discrepancies(v1, v2, ev))
  {
    var x1, x2 := FirstRecords(v1), FirstRecords(v2);
    forall id | id in x1 ensures x1[id].id == id { IndexedById(v1, id); }
    IdOrderOrdered(x1, x2);
    PartsOrdered(x1, x2, IdOrder(x1, x2), ev);
    OrderedDistinct(Discrepancies(v1, v2, ev));
  }

  lemma {:induction false} OrderedDistinct(ds: seq<Discrepancy>)
    requires Ordered(ds)
    ensures Distinct(ds)
  {
  }
}
