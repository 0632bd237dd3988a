/**
  Money by light (packages/decision/boq_summary.py) and bid readiness
  (packages/decision/bid_readiness.py), over exact arithmetic.
*/
module BidReadiness {
  import opened Common
  import opened Matching

  datatype Summary = Summary(
    green: real, yellow: real, red: real,
    unpricedLines: nat, nonMatchableLines: nat, nonMatchableAmount: real,
    total: real, greenPct: real, yellowPct: real, redPct: real
  )

  type Matches = map<nat, BoqLineMatch>

  /** Money and counts accumulated over the lines so far. */
  datatype Sums = Sums(green: real, yellow: real, red: real, unpriced: nat, nonMatchable: nat, nonMatchableAmount: real)

  const NO_SUMS: Sums := Sums(0.0, 0.0, 0.0, 0, 0, 0.0)

  /** A normal line without an entry in `matches` raises `KeyError`. */
  predicate Looked(lines: seq<BoqLine>, matches: Matches) {
    forall l :: l in lines && l.lineType == Normal ==> l.sourceLineId in matches
  }

  predicate Priced(l: BoqLine) { l.lineType == Normal && l.amount.Some? }

  predicate LitBy(l: BoqLine, matches: Matches, light: Light) {
    Priced(l) && l.sourceLineId in matches && matches[l.sourceLineId].light == light
  }

  /** The money of the lines with a given light. */
  function AmountLit(lines: seq<BoqLine>, matches: Matches, light: Light): real {
    if lines == [] then 0.0
    else
      var l := lines[|lines| - 1];
      AmountLit(lines[..|lines| - 1], matches, light) + (if LitBy(l, matches, light) then l.amount.value else 0.0)
  }

  /** The money of all priced normal lines, whatever their light. */
  function PricedAmount(lines: seq<BoqLine>): real {
    if lines == [] then 0.0
    else
      var l := lines[|lines| - 1];
      PricedAmount(lines[..|lines| - 1]) + (if Priced(l) then l.amount.value else 0.0)
  }

  function OtherAmount(lines: seq<BoqLine>): real {
    if lines == [] then 0.0
    else
      var l := lines[|lines| - 1];
      OtherAmount(lines[..|lines| - 1]) + (if l.lineType != Normal && l.amount.Some? then l.amount.value else 0.0)
  }

  function CountUnpriced(lines: seq<BoqLine>): nat {
    if lines == [] then 0
    else
      var l := lines[|lines| - 1];
      CountUnpriced(lines[..|lines| - 1]) + (if l.lineType == Normal && l.amount == None then 1 else 0)
  }

  function CountOther(lines: seq<BoqLine>): nat {
    if lines == [] then 0
    else CountOther(lines[..|lines| - 1]) + (if lines[|lines| - 1].lineType != Normal then 1 else 0)
  }

  function SumsOf(lines: seq<BoqLine>, matches: Matches): Sums {
    Sums(AmountLit(lines, matches, Green), AmountLit(lines, matches, Yellow), AmountLit(lines, matches, Red),
         CountUnpriced(lines), CountOther(lines), OtherAmount(lines))
  }

  function Pct(amount: real, total: real): real {
    if total == 0.0 then 0.0 else amount / total * 100.0
  }

  function SummaryOf(s: Sums): Summary {
    var total := s.green + s.yellow + s.red;
    Summary(s.green, s.yellow, s.red, s.unpriced, s.nonMatchable, s.nonMatchableAmount,
            total, Pct(s.green, total), Pct(s.yellow, total), Pct(s.red, total))
  }

  lemma {:induction false} SumsNext(lines: seq<BoqLine>, matches: Matches, i: nat)
    requires i < |lines|
    ensures lines[..i + 1][..i] == lines[..i] && lines[..i + 1][i] == lines[i] && |lines[..i + 1]| == i + 1
  {
  }

  /** `None` is the `KeyError` of a normal line without a match. */
  method SummarizeBoqMatches(lines: seq<BoqLine>, matches: Matches) returns (r: Option<Summary>)
    ensures r == None <==> !Looked(lines, matches)
    ensures r.Some? ==> r.value == SummaryOf(SumsOf(lines, matches))
  {
    var s := NO_SUMS;
    for i := 0 to |lines|
      invariant s == SumsOf(lines[..i], matches)
      invariant forall j :: 0 <= j < i && lines[j].lineType == Normal ==> lines[j].sourceLineId in matches
    {
      var line := lines[i];
      SumsNext(lines, matches, i);
      if line.lineType != Normal {
        s := s.(nonMatchable := s.nonMatchable + 1,
                nonMatchableAmount := s.nonMatchableAmount + (if line.amount.Some? then line.amount.value else 0.0));
      } else if line.sourceLineId !in matches {
        assert line in lines;
        return None;
      } else if line.amount == None {
        s := s.(unpriced := s.unpriced + 1);
      } else {
        match matches[line.sourceLineId].light {
          case Green => s := s.(green := s.green + line.amount.value);
          case Yellow => s := s.(yellow := s.yellow + line.amount.value);
          case Red => s := s.(red := s.red + line.amount.value);
        }
      }
    }
    assert lines[..|lines|] == lines;
    r := Some(SummaryOf(s));
  }

  /** Every priced line is counted under exactly one light: the money is conserved. */
  lemma {:induction false} MoneyIsConserved(lines: seq<BoqLine>, matches: Matches)
    requires Looked(lines, matches)
    ensures AmountLit(lines, matches, Green) + AmountLit(lines, matches, Yellow) + AmountLit(lines, matches, Red) ==
            PricedAmount(lines)
  {
    if lines != [] {
      assert lines[|lines| - 1] in lines;
      assert forall l :: l in lines[..|lines| - 1] ==> l in lines;
      MoneyIsConserved(lines[..|lines| - 1], matches);
    }
  }

  // ----- Bid readiness -----

  const LOTTERY_THRESHOLD_PCT: real := 85.0

  datatype CriticalLine = CriticalLine(lineId: nat, vendor: Vendor, vendorName: string)

  datatype BidReadinessCandidate = BidReadinessCandidate(
    summary: Summary, isLottery: bool, criticalLines: seq<CriticalLine>
  )

  /** `{line.source_line_id: match ...}` over the normal lines: the last of equal ids wins. */
  function MatchMap(lines: seq<BoqLine>, offers: seq<Offer>, asOf: int): Matches {
    if lines == [] then map[]
    else
      var l := lines[|lines| - 1];
      var before := MatchMap(lines[..|lines| - 1], offers, asOf);
      if l.lineType == Normal then before[l.sourceLineId := MatchBoqLine(l, offers, asOf)] else before
  }

  /** The keys of that dictionary in insertion order. */
  function MatchOrder(lines: seq<BoqLine>): seq<nat> {
    if lines == [] then []
    else
      var l := lines[|lines| - 1];
      var before := MatchOrder(lines[..|lines| - 1]);
      if l.lineType == Normal && l.sourceLineId !in before then before + [l.sourceLineId] else before
  }

  lemma {:induction false} MatchKeys(lines: seq<BoqLine>, offers: seq<Offer>, asOf: int)
    ensures forall k :: k in MatchMap(lines, offers, asOf) <==> k in MatchOrder(lines)
    ensures Looked(lines, MatchMap(lines, offers, asOf))
  {
    hide MatchBoqLine;
    if lines != [] {
      var init, last := lines[..|lines| - 1], lines[|lines| - 1];
      MatchKeys(init, offers, asOf);
      assert forall l :: l in lines <==> l in init || l == last;
    }
  }

  /** Each entry is the match of one of the normal lines. */
  lemma {:induction false} MatchEntry(lines: seq<BoqLine>, offers: seq<Offer>, asOf: int, k: nat) returns (l: BoqLine)
    requires k in MatchMap(lines, offers, asOf)
    ensures l in lines && l.lineType == Normal && l.sourceLineId == k
    ensures MatchMap(lines, offers, asOf)[k] == MatchBoqLine(l, offers, asOf)
  {
    hide MatchBoqLine;
    l := lines[|lines| - 1];
    if l.lineType != Normal || l.sourceLineId != k {
      l := MatchEntry(lines[..|lines| - 1], offers, asOf, k);
    }
  }

  /** Exactly one vendor is a strong source. */
  ghost predicate SoleVendor(cs: seq<Candidate>, v: Vendor) {
    StrongVendor(cs, v) && forall u: Vendor :: StrongVendor(cs, u) ==> u == v
  }

  function CriticalOf(m: BoqLineMatch): seq<CriticalLine> {
    var strong := Strong(m.candidates);
    if |set c | c in strong :: c.vendor| == 1 then [CriticalLine(m.lineId, strong[0].vendor, strong[0].vendorName)]
    else []
  }

  function CriticalFrom(order: seq<nat>, matches: Matches): seq<CriticalLine>
    requires forall k :: k in order ==> k in matches
  {
    if order == [] then []
    else CriticalFrom(order[..|order| - 1], matches) + CriticalOf(matches[order[|order| - 1]])
  }

  method CriticalLines(order: seq<nat>, matches: Matches) returns (critical: seq<CriticalLine>)
    requires forall k :: k in order ==> k in matches
    ensures critical == CriticalFrom(order, matches)
  {
    critical := [];
    for i := 0 to |order|
      invariant critical == CriticalFrom(order[..i], matches)
    {
      assert order[i] in order && order[..i + 1][..i] == order[..i];
      var m := matches[order[i]];
      var strong := Strong(m.candidates);
      var distinctVendors := set c | c in strong :: c.vendor;
      if |distinctVendors| == 1 {
        var sole := strong[0];
        critical := critical + [CriticalLine(m.lineId, sole.vendor, sole.vendorName)];
      }
    }
    assert order[..|order|] == order;
  }

  function CoveragePct(s: Summary): real { s.greenPct + s.yellowPct }

  method BuildBidReadiness(lines: seq<BoqLine>, offers: seq<Offer>, asOf: int) returns (r: BidReadinessCandidate)
    ensures var matches := MatchMap(lines, offers, asOf);
            && r.summary == SummaryOf(SumsOf(lines, matches))
            && (r.isLottery <==> CoveragePct(r.summary) < LOTTERY_THRESHOLD_PCT)
            && (forall k :: k in MatchOrder(lines) ==> k in matches)
            && r.criticalLines == CriticalFrom(MatchOrder(lines), matches)
  {
    var matches := MatchMap(lines, offers, asOf);
    MatchKeys(lines, offers, asOf);
    var summary := SummarizeBoqMatches(lines, matches);
    var critical := CriticalLines(MatchOrder(lines), matches);
    r := BidReadinessCandidate(summary.value, CoveragePct(summary.value) < LOTTERY_THRESHOLD_PCT, critical);
  }

  // ----- Critical lines -----

  lemma {:induction false} StrongVendorsAre(cs: seq<Candidate>, v: Vendor)
    ensures v in (set c | c in Strong(cs) :: c.vendor) <==> StrongVendor(cs, v)
  {
    if c :| c in Strong(cs) && c.vendor == v { StrongIn(cs, c); }
    if StrongVendor(cs, v) {
      var c :| c in cs && IsStrong(c) && c.vendor == v;
      StrongIn(cs, c);
    }
  }

  /** A line is critical exactly when one vendor is its only strong source, whom it names. */
  lemma {:induction false} CriticalMeaning(m: BoqLineMatch)
    ensures CriticalOf(m) != [] <==> exists v: Vendor :: SoleVendor(m.candidates, v)
    ensures CriticalOf(m) != [] ==> |CriticalOf(m)| == 1 && SoleVendor(m.candidates, CriticalOf(m)[0].vendor)
  {
    var strong := Strong(m.candidates);
    var vendors := set c | c in strong :: c.vendor;
    forall v ensures v in vendors <==> StrongVendor(m.candidates, v) { StrongVendorsAre(m.candidates, v); }
    if |vendors| == 1 {
      assert strong == [] ==> vendors == {};
      var v := strong[0].vendor;
      assert strong[0] in strong && v in vendors;
      SubsetCard({v}, vendors);
      assert SoleVendor(m.candidates, v);
    }
    if exists v: Vendor :: SoleVendor(m.candidates, v) {
      var v: Vendor :| SoleVendor(m.candidates, v);
      assert vendors == {v};
    }
  }

  /** Every critical line is yellow. */
  lemma {:induction false} CriticalIsYellow(line: BoqLine, offers: seq<Offer>, asOf: int)
    requires CriticalOf(MatchBoqLine(line, offers, asOf)) != []
    ensures MatchBoqLine(line, offers, asOf).light == Yellow
  {
    var m := MatchBoqLine(line, offers, asOf);
    CriticalMeaning(m);
    var v := CriticalOf(m)[0].vendor;
    TwoStrongVendorsInMap(m.candidates);
    var c :| c in m.candidates && IsStrong(c) && c.vendor == v;
    assert c.volume != Insufficient;
  }

  /** Whoever is listed as critical belongs to a yellow line. */
  lemma {:induction false} CriticalLinesAreYellow(lines: seq<BoqLine>, offers: seq<Offer>, asOf: int, k: nat)
    requires k in MatchMap(lines, offers, asOf) && CriticalOf(MatchMap(lines, offers, asOf)[k]) != []
    ensures MatchMap(lines, offers, asOf)[k].light == Yellow
  {
    var l := MatchEntry(lines, offers, asOf, k);
    CriticalIsYellow(l, offers, asOf);
  }

  function Pairs(critical: seq<CriticalLine>): seq<(nat, Vendor)> {
    seq(|critical|, i requires 0 <= i < |critical| => (critical[i].lineId, critical[i].vendor))
  }

  /** Two orderings of the same offers. */
  ghost predicate SameOffers(offers: seq<Offer>, others: seq<Offer>) {
    Among(offers, others) && Among(others, offers)
  }

  lemma {:induction false} SameStrongVendors(line: BoqLine, offers: seq<Offer>, others: seq<Offer>, asOf: int,
                                             v: Vendor)
    requires SameOffers(offers, others)
    ensures StrongVendor(Candidates(line, offers, asOf), v) <==> StrongVendor(Candidates(line, others, asOf), v)
  {
    CandidatesCover(line, offers, others, asOf);
    CandidatesCover(line, others, offers, asOf);
  }

  /** The critical pair depends only on which vendors are strong. */
  lemma {:induction false} CriticalByVendors(m: BoqLineMatch, n: BoqLineMatch)
    requires m.lineId == n.lineId
    requires forall v: Vendor :: StrongVendor(m.candidates, v) <==> StrongVendor(n.candidates, v)
    ensures Pairs(CriticalOf(m)) == Pairs(CriticalOf(n))
  {
    CriticalMeaning(m);
    CriticalMeaning(n);
    CriticalNamesLine(m);
    CriticalNamesLine(n);
    hide CriticalOf, StrongVendor;
    forall v: Vendor ensures SoleVendor(m.candidates, v) <==> SoleVendor(n.candidates, v) {}
  }

  lemma {:induction false} CriticalNamesLine(m: BoqLineMatch)
    ensures CriticalOf(m) != [] ==> CriticalOf(m)[0].lineId == m.lineId
  {
  }

  /** Reordering (or repeating) offers changes neither the light nor the critical pair. */
  lemma {:induction false} OrderFreeLine(line: BoqLine, offers: seq<Offer>, others: seq<Offer>, asOf: int)
    requires SameOffers(offers, others) && VendorReputation(offers)
    ensures MatchBoqLine(line, offers, asOf).light == MatchBoqLine(line, others, asOf).light
    ensures Pairs(CriticalOf(MatchBoqLine(line, offers, asOf))) == Pairs(CriticalOf(MatchBoqLine(line, others, asOf)))
  {
    hide CriticalOf, StrongVendor, Candidates, TrafficLight, Ranking;
    MoreOffersNeverLowerTheLight(line, offers, others, asOf);
    MoreOffersNeverLowerTheLight(line, others, offers, asOf);
    forall v: Vendor
      ensures StrongVendor(Candidates(line, offers, asOf), v) <==> StrongVendor(Candidates(line, others, asOf), v)
    {
      SameStrongVendors(line, offers, others, asOf, v);
    }
    CriticalByVendors(MatchBoqLine(line, offers, asOf), MatchBoqLine(line, others, asOf));
  }

  lemma {:induction false} SameMatches(lines: seq<BoqLine>, offers: seq<Offer>, others: seq<Offer>, asOf: int, k: nat)
    requires SameOffers(offers, others) && VendorReputation(offers)
    requires k in MatchMap(lines, offers, asOf)
    ensures k in MatchMap(lines, others, asOf)
    ensures var m, n := MatchMap(lines, offers, asOf)[k], MatchMap(lines, others, asOf)[k];
            m.light == n.light && Pairs(CriticalOf(m)) == Pairs(CriticalOf(n))
  {
    hide MatchBoqLine, CriticalOf, SameOffers, VendorReputation;
    if lines != [] {
      var last := lines[|lines| - 1];
      if last.lineType == Normal && last.sourceLineId == k {
        OrderFreeLine(last, offers, others, asOf);
      } else {
        SameMatches(lines[..|lines| - 1], offers, others, asOf, k);
      }
    }
  }

  lemma {:induction false} PairsConcat(a: seq<CriticalLine>, b: seq<CriticalLine>)
    ensures Pairs(a + b) == Pairs(a) + Pairs(b)
  {
  }

  lemma {:induction false} SameCritical(order: seq<nat>, m: Matches, n: Matches)
    requires forall k :: k in order ==> k in m && k in n && Pairs(CriticalOf(m[k])) == Pairs(CriticalOf(n[k]))
    ensures Pairs(CriticalFrom(order, m)) == Pairs(CriticalFrom(order, n))
  {
    hide CriticalOf, Pairs;
    if order != [] {
      var init, k := order[..|order| - 1], order[|order| - 1];
      assert forall i :: i in init ==> i in order;
      assert k in order;
      SameCritical(init, m, n);
      PairsConcat(CriticalFrom(init, m), CriticalOf(m[k]));
      PairsConcat(CriticalFrom(init, n), CriticalOf(n[k]));
    }
  }

  /** The order of the offers changes neither any light nor the list of critical pairs. */
  lemma {:induction false} OrderFree(lines: seq<BoqLine>, offers: seq<Offer>, others: seq<Offer>, asOf: int)
    requires SameOffers(offers, others) && VendorReputation(offers)
    ensures var m, n := MatchMap(lines, offers, asOf), MatchMap(lines, others, asOf);
            && m.Keys == n.Keys
            && (forall k :: k in m ==> m[k].light == n[k].light)
            && (forall k :: k in MatchOrder(lines) ==> k in m && k in n)
            && Pairs(CriticalFrom(MatchOrder(lines), m)) == Pairs(CriticalFrom(MatchOrder(lines), n))
  {
    var m, n := MatchMap(lines, offers, asOf), MatchMap(lines, others, asOf);
    MatchKeys(lines, offers, asOf);
    MatchKeys(lines, others, asOf);
    hide MatchMap, CriticalOf, Pairs, SameOffers, VendorReputation;
    forall k | k in m
      ensures k in n && m[k].light == n[k].light && Pairs(CriticalOf(m[k])) == Pairs(CriticalOf(n[k]))
    {
      SameMatches(lines, offers, others, asOf, k);
    }
    SameCritical(MatchOrder(lines), m, n);
  }

  // ----- More offers never hurt -----

  /** Same lines matched, no light lower. */
  ghost predicate LightsRise(m: Matches, n: Matches) {
    m.Keys == n.Keys && forall k :: k in m ==> Rank(m[k].light) <= Rank(n[k].light)
  }

  lemma {:induction false} MoreOffersRaiseLights(lines: seq<BoqLine>, offers: seq<Offer>, more: seq<Offer>, asOf: int)
    requires Among(offers, more) && VendorReputation(more)
    ensures LightsRise(MatchMap(lines, offers, asOf), MatchMap(lines, more, asOf))
  {
    hide MatchBoqLine, Among, VendorReputation;
    if lines != [] {
      MoreOffersRaiseLights(lines[..|lines| - 1], offers, more, asOf);
      MoreOffersNeverLowerTheLight(lines[|lines| - 1], offers, more, asOf);
    }
  }

  ghost predicate NonNegative(lines: seq<BoqLine>) {
    forall l :: l in lines && l.amount.Some? ==> l.amount.value >= 0.0
  }

  function CoveredAmount(lines: seq<BoqLine>, m: Matches): real {
    AmountLit(lines, m, Green) + AmountLit(lines, m, Yellow)
  }

  lemma {:induction false} CoverageRises(lines: seq<BoqLine>, m: Matches, n: Matches)
    requires NonNegative(lines) && LightsRise(m, n)
    ensures CoveredAmount(lines, m) <= CoveredAmount(lines, n)
  {
    if lines != [] {
      var init, last := lines[..|lines| - 1], lines[|lines| - 1];
      assert last in lines && forall l :: l in init ==> l in lines;
      CoverageRises(init, m, n);
    }
  }

  lemma {:induction false} PricedNonNegative(lines: seq<BoqLine>)
    requires NonNegative(lines)
    ensures PricedAmount(lines) >= 0.0
  {
    if lines != [] {
      assert lines[|lines| - 1] in lines && forall l :: l in lines[..|lines| - 1] ==> l in lines;
      PricedNonNegative(lines[..|lines| - 1]);
    }
  }

  lemma {:induction false} PctAdds(a: real, b: real, total: real)
    ensures Pct(a, total) + Pct(b, total) == Pct(a + b, total)
  {
    if total != 0.0 {
      var x, y := a / total, b / total;
      assert x * total == a && y * total == b;
      assert (x + y) * total == a + b;
      assert (a + b) / total == x + y;
    }
  }

  lemma {:induction false} PctMonotone(a: real, b: real, total: real)
    requires a <= b && total >= 0.0
    ensures Pct(a, total) <= Pct(b, total)
  {
    if total > 0.0 {
      var x, y := a / total, b / total;
      assert x * total == a && y * total == b;
      if x > y { assert x * total > y * total; }
    }
  }

  /** The summary in terms of the covered and the priced money. */
  lemma {:induction false} CoverageIs(lines: seq<BoqLine>, m: Matches)
    requires Looked(lines, m)
    ensures var s := SummaryOf(SumsOf(lines, m));
            && s.green + s.yellow == CoveredAmount(lines, m)
            && s.total == PricedAmount(lines)
            && CoveragePct(s) == Pct(CoveredAmount(lines, m), PricedAmount(lines))
  {
    hide AmountLit, PricedAmount, Pct;
    MoneyIsConserved(lines, m);
    var s := SummaryOf(SumsOf(lines, m));
    PctAdds(s.green, s.yellow, s.total);
  }

  /** Adding offers never lowers a light, never lowers the covered money, leaves the total
      priced money alone, and never turns a bid into a lottery. */
  lemma {:induction false} MoreOffersNeverHurt(lines: seq<BoqLine>, offers: seq<Offer>, more: seq<Offer>, asOf: int)
    requires Among(offers, more) && VendorReputation(more) && NonNegative(lines)
    ensures var m, n := MatchMap(lines, offers, asOf), MatchMap(lines, more, asOf);
            var before, after := SummaryOf(SumsOf(lines, m)), SummaryOf(SumsOf(lines, n));
            && LightsRise(m, n)
            && before.green + before.yellow <= after.green + after.yellow
            && before.total == after.total == PricedAmount(lines)
            && (CoveragePct(after) < LOTTERY_THRESHOLD_PCT ==> CoveragePct(before) < LOTTERY_THRESHOLD_PCT)
  {
    var m, n := MatchMap(lines, offers, asOf), MatchMap(lines, more, asOf);
    hide MatchMap, Among, VendorReputation, AmountLit, PricedAmount, Pct, SumsOf, SummaryOf;
    MatchKeys(lines, offers, asOf);
    MatchKeys(lines, more, asOf);
    MoreOffersRaiseLights(lines, offers, more, asOf);
    CoverageRises(lines, m, n);
    PricedNonNegative(lines);
    CoverageIs(lines, m);
    CoverageIs(lines, n);
    PctMonotone(CoveredAmount(lines, m), CoveredAmount(lines, n), PricedAmount(lines));
  }
}
