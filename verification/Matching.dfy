/**
  Matching a BOQ line with vendor offers (packages/decision/matching.py): classification,
  the traffic light, and the ranking by price.
*/
module Matching {
  import opened Common

  type Vendor = nat
  type Currency = nat
  type UnitCode = nat

  datatype Tier = Reserved | Confirmed | Reported | Unknown

  datatype VolumeStatus = Sufficient | Insufficient | UnitMismatch | UnitUnmapped | AdverseCase

  datatype Light = Green | Yellow | Red

  /** Texts are stripped and lower-cased; `None` is an unmapped unit. */
  datatype Offer = Offer(
    id: nat, vendor: Vendor, vendorName: string, material: string, currency: Currency,
    validUntil: int, adverseCase: Option<nat>, unit: Option<UnitCode>,
    inventory: real, moq: real, price: real, vatRate: real,
    effectiveStatus: Tier, positiveReputation: bool
  )

  datatype LineType = Normal | Preliminaries | ProvisionalSum | PrimeCost

  datatype BoqLine = BoqLine(
    sourceLineId: nat, description: string, unit: Option<UnitCode>, qty: real,
    lineType: LineType, amount: Option<real>
  )

  datatype Candidate = Candidate(
    lineId: nat, offerId: nat, vendor: Vendor, vendorName: string, currency: Currency,
    isFresh: bool, volume: VolumeStatus, adverseCase: Option<nat>, moqExceedsQty: bool,
    effectiveStatus: Tier, positiveReputation: bool, priceWithVat: real
  )

  datatype BoqLineMatch = BoqLineMatch(lineId: nat, light: Light, candidates: seq<Candidate>, ranked: seq<Candidate>)

  // ----- Classification -----

  predicate OccursAt(text: string, part: string, i: nat) {
    i + |part| <= |text| && text[i..i + |part|] == part
  }

  predicate Contains(text: string, part: string) {
    exists i: nat :: i <= |text| && OccursAt(text, part, i)
  }

  predicate MaterialMatches(line: BoqLine, o: Offer) {
    o.material != "" && Contains(line.description, o.material)
  }

  function VolumeStatusOf(line: BoqLine, o: Offer): VolumeStatus {
    if o.adverseCase.Some? then AdverseCase
    else if line.unit == None || o.unit == None then UnitUnmapped
    else if o.unit != line.unit then UnitMismatch
    else if o.inventory >= line.qty then Sufficient
    else Insufficient
  }

  predicate MoqExceedsQty(line: BoqLine, o: Offer) {
    line.unit.Some? && o.unit == line.unit && o.moq > line.qty
  }

  /** The VAT rate is a percentage. */
  function PriceWithVat(o: Offer): real {
    o.price * (1.0 + o.vatRate / 100.0)
  }

  function Classify(line: BoqLine, o: Offer, asOf: int): Candidate {
    Candidate(line.sourceLineId, o.id, o.vendor, o.vendorName, o.currency, asOf <= o.validUntil,
              VolumeStatusOf(line, o), o.adverseCase, MoqExceedsQty(line, o),
              o.effectiveStatus, o.positiveReputation, PriceWithVat(o))
  }

  function Candidates(line: BoqLine, offers: seq<Offer>, asOf: int): seq<Candidate> {
    if offers == [] then []
    else
      var o := offers[|offers| - 1];
      Candidates(line, offers[..|offers| - 1], asOf)
      + (if MaterialMatches(line, o) then [Classify(line, o, asOf)] else [])
  }

  lemma {:induction false} CandidatesIn(line: BoqLine, offers: seq<Offer>, asOf: int, c: Candidate)
    ensures c in Candidates(line, offers, asOf) <==>
            exists o :: o in offers && MaterialMatches(line, o) && Classify(line, o, asOf) == c
  {
    if offers != [] {
      var o := offers[|offers| - 1];
      CandidatesIn(line, offers[..|offers| - 1], asOf, c);
      assert forall p :: p in offers <==> p in offers[..|offers| - 1] || p == o;
    }
  }

  // ----- The traffic light -----

  predicate IsStrong(c: Candidate) {
    c.volume == Sufficient && c.isFresh && (c.effectiveStatus == Reserved || c.effectiveStatus == Confirmed)
  }

  function Strong(cs: seq<Candidate>): seq<Candidate> {
    if cs == [] then []
    else Strong(cs[..|cs| - 1]) + (if IsStrong(cs[|cs| - 1]) then [cs[|cs| - 1]] else [])
  }

  lemma {:induction false} StrongIn(cs: seq<Candidate>, c: Candidate)
    ensures c in Strong(cs) <==> c in cs && IsStrong(c)
  {
    if cs != [] {
      StrongIn(cs[..|cs| - 1], c);
      assert c in cs <==> c in cs[..|cs| - 1] || c == cs[|cs| - 1];
    }
  }

  /** `{c.vendor_id: c for c in cs}`: the last candidate of each vendor. */
  function LastByVendor(cs: seq<Candidate>): map<Vendor, Candidate> {
    if cs == [] then map[]
    else LastByVendor(cs[..|cs| - 1])[cs[|cs| - 1].vendor := cs[|cs| - 1]]
  }

  lemma {:induction false} LastByVendorIs(cs: seq<Candidate>)
    ensures forall v :: v in LastByVendor(cs) <==> exists c :: c in cs && c.vendor == v
    ensures forall v :: v in LastByVendor(cs) ==> LastByVendor(cs)[v] in cs && LastByVendor(cs)[v].vendor == v
  {
    if cs != [] {
      LastByVendorIs(cs[..|cs| - 1]);
      assert forall c :: c in cs <==> c in cs[..|cs| - 1] || c == cs[|cs| - 1];
    }
  }

  function TrafficLight(cs: seq<Candidate>): Light {
    if forall c :: c in cs ==> c.volume == Insufficient then Red
    else
      var byVendor := LastByVendor(Strong(cs));
      if |byVendor| >= 2 && exists v: Vendor :: v in byVendor && byVendor[v].positiveReputation then Green
      else Yellow
  }

  ghost predicate StrongVendor(cs: seq<Candidate>, v: Vendor) {
    exists c :: c in cs && IsStrong(c) && c.vendor == v
  }

  /** Positive reputation depends on the vendor alone. */
  ghost predicate ReputationByVendor(cs: seq<Candidate>) {
    forall c, d :: c in cs && d in cs && c.vendor == d.vendor ==> c.positiveReputation == d.positiveReputation
  }

  ghost predicate TwoStrongVendors(cs: seq<Candidate>) {
    exists v: Vendor, u: Vendor :: v != u && StrongVendor(cs, v) && StrongVendor(cs, u)
  }

  lemma {:induction false} TwoKeys(m: map<Vendor, Candidate>)
    ensures |m| >= 2 <==> exists v: Vendor, u: Vendor :: v in m && u in m && v != u
  {
    if v: Vendor, u: Vendor :| v in m && u in m && v != u {
      SubsetCard({v, u}, m.Keys);
    }
    if |m| >= 2 {
      var v :| v in m.Keys;
      var rest := m.Keys - {v};
      assert |rest| == |m.Keys| - 1;
      var u :| u in rest;
      assert u in m && v in m && u != v;
    }
  }

  lemma {:induction false} StrongVendorInMap(cs: seq<Candidate>, v: Vendor)
    ensures v in LastByVendor(Strong(cs)) <==> StrongVendor(cs, v)
  {
    LastByVendorIs(Strong(cs));
    if c :| c in Strong(cs) && c.vendor == v { StrongIn(cs, c); }
    if StrongVendor(cs, v) {
      var c :| c in cs && IsStrong(c) && c.vendor == v;
      StrongIn(cs, c);
    }
  }

  lemma {:induction false} TwoStrongVendorsInMap(cs: seq<Candidate>)
    ensures |LastByVendor(Strong(cs))| >= 2 <==> TwoStrongVendors(cs)
  {
    var m := LastByVendor(Strong(cs));
    TwoKeys(m);
    if v: Vendor, u: Vendor :| v in m && u in m && v != u {
      StrongVendorInMap(cs, v);
      StrongVendorInMap(cs, u);
    }
    if TwoStrongVendors(cs) {
      var v, u :| v != u && StrongVendor(cs, v) && StrongVendor(cs, u);
      StrongVendorInMap(cs, v);
      StrongVendorInMap(cs, u);
      assert v in m && u in m;
    }
  }

  /** Some strong candidate has positive reputation. */
  ghost predicate Vouched(cs: seq<Candidate>) {
    exists c :: c in cs && IsStrong(c) && c.positiveReputation
  }

  lemma {:induction false} PositiveKept(cs: seq<Candidate>, v: Vendor)
    requires v in LastByVendor(Strong(cs)) && LastByVendor(Strong(cs))[v].positiveReputation
    ensures Vouched(cs)
  {
    LastByVendorIs(Strong(cs));
    StrongIn(cs, LastByVendor(Strong(cs))[v]);
  }

  lemma {:induction false} VouchedKept(cs: seq<Candidate>) returns (v: Vendor)
    requires ReputationByVendor(cs) && Vouched(cs)
    ensures v in LastByVendor(Strong(cs)) && LastByVendor(Strong(cs))[v].positiveReputation
  {
    var c :| c in cs && IsStrong(c) && c.positiveReputation;
    v := c.vendor;
    StrongIn(cs, c);
    LastByVendorIs(Strong(cs));
    StrongIn(cs, LastByVendor(Strong(cs))[v]);
  }

  lemma {:induction false} PositiveInMap(cs: seq<Candidate>)
    requires ReputationByVendor(cs)
    ensures (exists v: Vendor :: v in LastByVendor(Strong(cs)) && LastByVendor(Strong(cs))[v].positiveReputation) <==>
            Vouched(cs)
  {
    if v: Vendor :| v in LastByVendor(Strong(cs)) && LastByVendor(Strong(cs))[v].positiveReputation {
      PositiveKept(cs, v);
    }
    if Vouched(cs) { var v := VouchedKept(cs); }
  }

  /** What the light means, whatever the order of the candidates. */
  lemma {:induction false} LightMeaning(cs: seq<Candidate>)
    requires ReputationByVendor(cs)
    ensures TrafficLight(cs) == Red <==> forall c :: c in cs ==> c.volume == Insufficient
    ensures TrafficLight(cs) == Green <==> TwoStrongVendors(cs) && Vouched(cs)
  {
    PositiveInMap(cs);
    TwoStrongVendorsInMap(cs);
  }

  function Rank(l: Light): nat {
    match l case Red => 0 case Yellow => 1 case Green => 2
  }

  ghost predicate Covers(more: seq<Candidate>, cs: seq<Candidate>) {
    forall c :: c in cs ==> c in more
  }

  lemma {:induction false} MoreCandidatesNeverHurt(cs: seq<Candidate>, more: seq<Candidate>)
    requires Covers(more, cs) && ReputationByVendor(more)
    ensures Rank(TrafficLight(cs)) <= Rank(TrafficLight(more))
  {
    LightMeaning(cs);
    LightMeaning(more);
    if TwoStrongVendors(cs) {
      var v, u :| v != u && StrongVendor(cs, v) && StrongVendor(cs, u);
      assert StrongVendor(more, v) && StrongVendor(more, u);
    }
  }

  // ----- Ranking by price -----

  function CountCurrency(cs: seq<Candidate>, cur: Currency): nat {
    if cs == [] then 0
    else CountCurrency(cs[..|cs| - 1], cur) + (if cs[|cs| - 1].currency == cur then 1 else 0)
  }

  function Currencies(cs: seq<Candidate>): set<Currency> {
    set c | c in cs :: c.currency
  }

  /** `a` comes before `b` by (-count, code). */
  predicate Precedes(cs: seq<Candidate>, a: Currency, b: Currency) {
    || CountCurrency(cs, a) > CountCurrency(cs, b)
    || (CountCurrency(cs, a) == CountCurrency(cs, b) && a <= b)
  }

  lemma {:induction false} First(cs: seq<Candidate>, curs: set<Currency>) returns (a: Currency)
    requires curs != {}
    ensures a in curs && forall b :: b in curs ==> Precedes(cs, a, b)
    decreases curs
  {
    a :| a in curs;
    var rest := curs - {a};
    if rest != {} {
      var b := First(cs, rest);
      if !Precedes(cs, a, b) { a := b; }
    }
    forall b | b in curs ensures Precedes(cs, a, b) {
      assert b in rest || b in curs - rest;
    }
  }

  lemma {:induction false} FirstExists(cs: seq<Candidate>, curs: set<Currency>)
    requires curs != {}
    ensures exists a :: a in curs && forall b :: b in curs ==> Precedes(cs, a, b)
  {
    var a := First(cs, curs);
  }

  /** The plurality currency, ties to the smallest code. */
  function ReferenceCurrency(cs: seq<Candidate>): (a: Currency)
    requires cs != []
    ensures a in Currencies(cs) && forall b :: b in Currencies(cs) ==> Precedes(cs, a, b)
  {
    assert cs[0].currency in Currencies(cs);
    FirstExists(cs, Currencies(cs));
    var a :| a in Currencies(cs) && forall b :: b in Currencies(cs) ==> Precedes(cs, a, b);
    a
  }

  /** Python's stable `sorted` by price. */
  function Insert(c: Candidate, sorted: seq<Candidate>): seq<Candidate> {
    if sorted == [] || sorted[|sorted| - 1].priceWithVat <= c.priceWithVat then sorted + [c]
    else Insert(c, sorted[..|sorted| - 1]) + [sorted[|sorted| - 1]]
  }

  function SortByPrice(cs: seq<Candidate>): seq<Candidate> {
    if cs == [] then [] else Insert(cs[|cs| - 1], SortByPrice(cs[..|cs| - 1]))
  }

  ghost predicate PriceSorted(cs: seq<Candidate>) {
    forall i, j :: 0 <= i < j < |cs| ==> cs[i].priceWithVat <= cs[j].priceWithVat
  }

  /** The candidates at one price, in order. */
  function AtPrice(cs: seq<Candidate>, p: real): seq<Candidate> {
    if cs == [] then []
    else AtPrice(cs[..|cs| - 1], p) + (if cs[|cs| - 1].priceWithVat == p then [cs[|cs| - 1]] else [])
  }

  lemma {:induction false} InsertElements(c: Candidate, s: seq<Candidate>)
    ensures multiset(Insert(c, s)) == multiset(s) + multiset{c}
  {
    if s != [] && c.priceWithVat < s[|s| - 1].priceWithVat {
      var init, last := s[..|s| - 1], s[|s| - 1];
      assert s == init + [last];
      InsertElements(c, init);
    }
  }

  lemma {:induction false} InsertSorted(c: Candidate, s: seq<Candidate>)
    requires PriceSorted(s)
    ensures PriceSorted(Insert(c, s))
  {
    if s != [] && c.priceWithVat < s[|s| - 1].priceWithVat {
      var init, last := s[..|s| - 1], s[|s| - 1];
      InsertSorted(c, init);
      InsertElements(c, init);
      var r := Insert(c, init);
      forall i | 0 <= i < |r| ensures r[i].priceWithVat <= last.priceWithVat {
        assert r[i] in multiset(r);
        assert r[i] == c || r[i] in multiset(init);
      }
    }
  }

  lemma {:induction false} AtPriceConcat(a: seq<Candidate>, c: Candidate, p: real)
    ensures AtPrice(a + [c], p) == AtPrice(a, p) + (if c.priceWithVat == p then [c] else [])
  {
    assert (a + [c])[..|a|] == a;
  }

  lemma {:induction false} InsertStable(c: Candidate, s: seq<Candidate>, p: real)
    requires PriceSorted(s)
    ensures AtPrice(Insert(c, s), p) == AtPrice(s, p) + (if c.priceWithVat == p then [c] else [])
  {
    if s == [] || s[|s| - 1].priceWithVat <= c.priceWithVat {
      AtPriceConcat(s, c, p);
    } else {
      var init, last := s[..|s| - 1], s[|s| - 1];
      assert s == init + [last];
      InsertStable(c, init, p);
      AtPriceConcat(Insert(c, init), last, p);
      if c.priceWithVat == p {
        NothingAbove(init, last, p);
      }
    }
  }

  lemma {:induction false} NothingAbove(init: seq<Candidate>, last: Candidate, p: real)
    requires last.priceWithVat > p
    ensures AtPrice(init + [last], p) == AtPrice(init, p)
  {
    AtPriceConcat(init, last, p);
  }

  /** The sort is a price-ordered permutation that keeps the order of equal prices. */
  lemma {:induction false} SortIsStable(cs: seq<Candidate>)
    ensures PriceSorted(SortByPrice(cs))
    ensures multiset(SortByPrice(cs)) == multiset(cs)
    ensures forall p :: AtPrice(SortByPrice(cs), p) == AtPrice(cs, p)
  {
    if cs != [] {
      var init, last := cs[..|cs| - 1], cs[|cs| - 1];
      assert cs == init + [last];
      SortIsStable(init);
      InsertSorted(last, SortByPrice(init));
      InsertElements(last, SortByPrice(init));
      forall p ensures AtPrice(SortByPrice(cs), p) == AtPrice(cs, p) {
        InsertStable(last, SortByPrice(init), p);
      }
    }
  }

  function InCurrency(cs: seq<Candidate>, cur: Currency): seq<Candidate> {
    if cs == [] then []
    else InCurrency(cs[..|cs| - 1], cur) + (if cs[|cs| - 1].currency == cur then [cs[|cs| - 1]] else [])
  }

  function Ranking(cs: seq<Candidate>): seq<Candidate> {
    var executable := Strong(cs);
    if executable == [] then [] else SortByPrice(InCurrency(executable, ReferenceCurrency(executable)))
  }

  method RankExecutableByTco(cs: seq<Candidate>) returns (ranked: seq<Candidate>)
    ensures ranked == Ranking(cs)
  {
    hide Strong, IsStrong, CountCurrency, InCurrency, SortByPrice;
    var executable := Strong(cs);
    if executable == [] {
      return [];
    }
    var counts: map<Currency, nat> := map[];
    for i := 0 to |executable|
      invariant counts.Keys == Currencies(executable[..i])
      invariant forall k :: k in counts ==> counts[k] == CountCurrency(executable[..i], k)
    {
      var c := executable[i];
      CountNext(executable, i);
      counts := counts[c.currency := (if c.currency in counts then counts[c.currency] else 0) + 1];
    }
    assert executable[..|executable|] == executable;
    ghost var ref := ReferenceCurrency(executable);
    assert forall b :: b in counts ==> counts[ref] > counts[b] || (counts[ref] == counts[b] && ref <= b) by {
      forall b | b in counts ensures counts[ref] > counts[b] || (counts[ref] == counts[b] && ref <= b) {
        assert Precedes(executable, ref, b);
      }
    }
    var reference :| reference in counts
      && forall b :: b in counts ==>
           counts[reference] > counts[b] || (counts[reference] == counts[b] && reference <= b);
    assert reference == ref;
    var comparable := InCurrency(executable, reference);
    ranked := SortByPrice(comparable);
  }

  lemma {:induction false} CountNext(cs: seq<Candidate>, i: nat)
    requires i < |cs|
    ensures Currencies(cs[..i + 1]) == Currencies(cs[..i]) + {cs[i].currency}
    ensures forall k :: CountCurrency(cs[..i + 1], k) ==
                        CountCurrency(cs[..i], k) + (if cs[i].currency == k then 1 else 0)
    ensures cs[i].currency !in Currencies(cs[..i]) ==> CountCurrency(cs[..i], cs[i].currency) == 0
  {
    assert cs[..i + 1][..i] == cs[..i];
    assert forall c :: c in cs[..i + 1] <==> c in cs[..i] || c == cs[i];
    if cs[i].currency !in Currencies(cs[..i]) { CountAbsent(cs[..i], cs[i].currency); }
  }

  lemma {:induction false} CountAbsent(cs: seq<Candidate>, cur: Currency)
    requires cur !in Currencies(cs)
    ensures CountCurrency(cs, cur) == 0
  {
    if cs != [] {
      assert cs[|cs| - 1] in cs;
      assert forall c :: c in cs[..|cs| - 1] ==> c in cs;
      CountAbsent(cs[..|cs| - 1], cur);
    }
  }

  lemma {:induction false} InCurrencyIs(cs: seq<Candidate>, cur: Currency)
    ensures forall c :: multiset(InCurrency(cs, cur))[c] == if c.currency == cur then multiset(cs)[c] else 0
  {
    if cs != [] {
      var init, last := cs[..|cs| - 1], cs[|cs| - 1];
      assert cs == init + [last];
      InCurrencyIs(init, cur);
    }
  }

  lemma {:induction false} StrongIs(cs: seq<Candidate>)
    ensures forall c :: multiset(Strong(cs))[c] == if IsStrong(c) then multiset(cs)[c] else 0
  {
    if cs != [] {
      var init, last := cs[..|cs| - 1], cs[|cs| - 1];
      assert cs == init + [last];
      StrongIs(init);
    }
  }

  /** The ranking is the price-sorted permutation of the strong candidates in the plurality
      currency, and is empty exactly when no candidate is strong. */
  lemma {:induction false} RankingIs(cs: seq<Candidate>)
    ensures Ranking(cs) != [] <==> exists c :: c in cs && IsStrong(c)
    ensures PriceSorted(Ranking(cs))
    ensures Strong(cs) != [] ==>
              var ref := ReferenceCurrency(Strong(cs));
              && (forall c :: multiset(Ranking(cs))[c] ==
                              if IsStrong(c) && c.currency == ref then multiset(cs)[c] else 0)
              && (forall p :: AtPrice(Ranking(cs), p) == AtPrice(InCurrency(Strong(cs), ref), p))
  {
    var executable := Strong(cs);
    if c :| c in cs && IsStrong(c) { StrongIn(cs, c); }
    if executable != [] {
      StrongIn(cs, executable[0]);
      var ref := ReferenceCurrency(executable);
      var comparable := InCurrency(executable, ref);
      SortIsStable(comparable);
      InCurrencyIs(executable, ref);
      StrongIs(cs);
      var d :| d in executable && d.currency == ref;
      assert multiset(comparable)[d] > 0;
      assert multiset(Ranking(cs)) == multiset(comparable);
      assert d in multiset(Ranking(cs));
    }
  }

  // ----- One line -----

  function MatchBoqLine(line: BoqLine, offers: seq<Offer>, asOf: int): BoqLineMatch {
    var cs := Candidates(line, offers, asOf);
    BoqLineMatch(line.sourceLineId, TrafficLight(cs), cs, Ranking(cs))
  }

  /** Positive reputation depends on the vendor alone, among the offers. */
  ghost predicate VendorReputation(offers: seq<Offer>) {
    forall o, p :: o in offers && p in offers && o.vendor == p.vendor ==> o.positiveReputation == p.positiveReputation
  }

  ghost predicate Among(offers: seq<Offer>, more: seq<Offer>) {
    forall o :: o in offers ==> o in more
  }

  lemma {:induction false} CandidatesReputation(line: BoqLine, offers: seq<Offer>, asOf: int)
    requires VendorReputation(offers)
    ensures ReputationByVendor(Candidates(line, offers, asOf))
  {
    var cs := Candidates(line, offers, asOf);
    forall c, d | c in cs && d in cs && c.vendor == d.vendor ensures c.positiveReputation == d.positiveReputation {
      CandidatesIn(line, offers, asOf, c);
      CandidatesIn(line, offers, asOf, d);
    }
  }

  lemma {:induction false} CandidatesCover(line: BoqLine, offers: seq<Offer>, more: seq<Offer>, asOf: int)
    requires Among(offers, more)
    ensures Covers(Candidates(line, more, asOf), Candidates(line, offers, asOf))
  {
    forall c | c in Candidates(line, offers, asOf) ensures c in Candidates(line, more, asOf) {
      CandidatesIn(line, offers, asOf, c);
      CandidatesIn(line, more, asOf, c);
    }
  }

  /** The offer could be delivered in full: matching material, no adverse case, the line's own
      unit, enough stock, still valid, and a claim that is at least confirmed. */
  ghost predicate Deliverable(line: BoqLine, o: Offer, asOf: int) {
    && MaterialMatches(line, o) && o.adverseCase == None
    && line.unit.Some? && o.unit == line.unit && o.inventory >= line.qty
    && asOf <= o.validUntil && (o.effectiveStatus == Reserved || o.effectiveStatus == Confirmed)
  }

  ghost predicate DeliverableBy(line: BoqLine, offers: seq<Offer>, asOf: int, v: Vendor) {
    exists o :: o in offers && Deliverable(line, o, asOf) && o.vendor == v
  }

  lemma {:induction false} StrongVendorDelivers(line: BoqLine, offers: seq<Offer>, asOf: int, v: Vendor)
    ensures StrongVendor(Candidates(line, offers, asOf), v) <==> DeliverableBy(line, offers, asOf, v)
  {
    var cs := Candidates(line, offers, asOf);
    if StrongVendor(cs, v) {
      var c :| c in cs && IsStrong(c) && c.vendor == v;
      CandidatesIn(line, offers, asOf, c);
      var o :| o in offers && MaterialMatches(line, o) && Classify(line, o, asOf) == c;
      assert Deliverable(line, o, asOf);
    }
    if DeliverableBy(line, offers, asOf, v) {
      var o :| o in offers && Deliverable(line, o, asOf) && o.vendor == v;
      CandidatesIn(line, offers, asOf, Classify(line, o, asOf));
      assert IsStrong(Classify(line, o, asOf));
    }
  }

  lemma {:induction false} VouchedDelivers(line: BoqLine, offers: seq<Offer>, asOf: int)
    ensures Vouched(Candidates(line, offers, asOf)) <==>
            exists o :: o in offers && Deliverable(line, o, asOf) && o.positiveReputation
  {
    var cs := Candidates(line, offers, asOf);
    if Vouched(cs) {
      var c :| c in cs && IsStrong(c) && c.positiveReputation;
      CandidatesIn(line, offers, asOf, c);
      var o :| o in offers && MaterialMatches(line, o) && Classify(line, o, asOf) == c;
      assert Deliverable(line, o, asOf);
    }
    if o :| o in offers && Deliverable(line, o, asOf) && o.positiveReputation {
      CandidatesIn(line, offers, asOf, Classify(line, o, asOf));
      assert IsStrong(Classify(line, o, asOf));
    }
  }

  /** A line is green exactly when two vendors could each deliver it in full and one of those
      offers carries positive reputation. Minimum order quantities and prices play no part. */
  lemma {:induction false} GreenMeansDeliverable(line: BoqLine, offers: seq<Offer>, asOf: int)
    requires VendorReputation(offers)
    ensures MatchBoqLine(line, offers, asOf).light == Green <==>
            && (exists v: Vendor, u: Vendor ::
                  v != u && DeliverableBy(line, offers, asOf, v) && DeliverableBy(line, offers, asOf, u))
            && (exists o :: o in offers && Deliverable(line, o, asOf) && o.positiveReputation)
  {
    var cs := Candidates(line, offers, asOf);
    CandidatesReputation(line, offers, asOf);
    LightMeaning(cs);
    VouchedDelivers(line, offers, asOf);
    forall v: Vendor ensures StrongVendor(cs, v) <==> DeliverableBy(line, offers, asOf, v) {
      StrongVendorDelivers(line, offers, asOf, v);
    }
    hide Candidates, TrafficLight, Vouched, StrongVendor, DeliverableBy, Deliverable;
  }

  /** More offers never lower a line's light. */
  lemma {:induction false} MoreOffersNeverLowerTheLight(line: BoqLine, offers: seq<Offer>, more: seq<Offer>, asOf: int)
    requires Among(offers, more) && VendorReputation(more)
    ensures Rank(MatchBoqLine(line, offers, asOf).light) <= Rank(MatchBoqLine(line, more, asOf).light)
  {
    CandidatesReputation(line, more, asOf);
    CandidatesCover(line, offers, more, asOf);
    MoreCandidatesNeverHurt(Candidates(line, offers, asOf), Candidates(line, more, asOf));
  }

  // ----- When one more offer lowers a light -----

  lemma {:induction false} StrongAppend(cs: seq<Candidate>, c: Candidate)
    ensures Strong(cs + [c]) == Strong(cs) + (if IsStrong(c) then [c] else [])
  {
    assert (cs + [c])[..|cs|] == cs;
  }

  lemma {:induction false} LastAppend(cs: seq<Candidate>, c: Candidate)
    ensures LastByVendor(cs + [c]) == LastByVendor(cs)[c.vendor := c]
  {
    assert (cs + [c])[..|cs|] == cs;
  }

  /** The last strong candidate of `v` has positive reputation. */
  ghost predicate LastVouched(cs: seq<Candidate>, v: Vendor) {
    v in LastByVendor(Strong(cs)) && LastByVendor(Strong(cs))[v].positiveReputation
  }

  lemma {:induction false} GreenIff(cs: seq<Candidate>)
    ensures TrafficLight(cs) == Green <==>
              |LastByVendor(Strong(cs))| >= 2 && exists v: Vendor :: LastVouched(cs, v)
    ensures TrafficLight(cs) == Red <==> forall c :: c in cs ==> c.volume == Insufficient
  {
    var m := LastByVendor(Strong(cs));
    LastByVendorIs(Strong(cs));
    if |m| >= 2 {
      TwoKeys(m);
      var v: Vendor :| v in m;
      StrongIn(cs, m[v]);
      assert m[v] in cs && m[v].volume != Insufficient;
    }
    hide LastByVendor, Strong, IsStrong;
    if v: Vendor :| v in m && m[v].positiveReputation { assert LastVouched(cs, v); }
    if v: Vendor :| LastVouched(cs, v) { assert v in m && m[v].positiveReputation; }
  }

  lemma {:induction false} VouchedAppend(cs: seq<Candidate>, c: Candidate, v: Vendor)
    ensures LastVouched(cs + [c], v) <==>
            if IsStrong(c) && v == c.vendor then c.positiveReputation else LastVouched(cs, v)
  {
    StrongAppend(cs, c);
    LastAppend(Strong(cs), c);
    if !IsStrong(c) { assert Strong(cs + [c]) == Strong(cs); }
  }

  lemma {:induction false} VendorsGrow(cs: seq<Candidate>, c: Candidate)
    ensures |LastByVendor(Strong(cs))| <= |LastByVendor(Strong(cs + [c]))|
  {
    StrongAppend(cs, c);
    LastAppend(Strong(cs), c);
    if IsStrong(c) {
      SubsetCard(LastByVendor(Strong(cs)).Keys, LastByVendor(Strong(cs + [c])).Keys);
    } else {
      assert Strong(cs + [c]) == Strong(cs);
    }
  }

  /** One more candidate lowers the light exactly when it replaces the last good word: the line
      was green, the candidate is strong without positive reputation, and no other vendor's
      last strong candidate has any. */
  lemma {:induction false} CandidateLowersIff(cs: seq<Candidate>, c: Candidate)
    ensures Rank(TrafficLight(cs + [c])) < Rank(TrafficLight(cs)) <==>
              && TrafficLight(cs) == Green && IsStrong(c) && !c.positiveReputation
              && forall v: Vendor :: v != c.vendor ==> !LastVouched(cs, v)
    ensures TrafficLight(cs) != Red ==> TrafficLight(cs + [c]) != Red
  {
    hide TrafficLight, LastVouched, LastByVendor, Strong, IsStrong;
    GreenIff(cs);
    GreenIff(cs + [c]);
    VendorsGrow(cs, c);
    forall v: Vendor
      ensures LastVouched(cs + [c], v) <==>
              if IsStrong(c) && v == c.vendor then c.positiveReputation else LastVouched(cs, v)
    {
      VouchedAppend(cs, c, v);
    }
    assert forall d :: d in cs + [c] <==> d in cs || d == c;
  }

  /** Of the offers that could be delivered in full, the last one of `v` has positive reputation. */
  ghost predicate LastOfferVouched(line: BoqLine, offers: seq<Offer>, asOf: int, v: Vendor) {
    exists i: nat :: LastDeliverable(line, offers, asOf, v, i) && offers[i].positiveReputation
  }

  ghost predicate LastDeliverable(line: BoqLine, offers: seq<Offer>, asOf: int, v: Vendor, i: nat) {
    && i < |offers| && offers[i].vendor == v && Deliverable(line, offers[i], asOf)
    && forall j :: i < j < |offers| && offers[j].vendor == v ==> !Deliverable(line, offers[j], asOf)
  }

  lemma {:induction false} StrongIffDeliverable(line: BoqLine, o: Offer, asOf: int)
    ensures MaterialMatches(line, o) && IsStrong(Classify(line, o, asOf)) <==> Deliverable(line, o, asOf)
  {
  }

  lemma {:induction false} CandidatesAppend(line: BoqLine, offers: seq<Offer>, o: Offer, asOf: int)
    ensures Candidates(line, offers + [o], asOf) ==
            Candidates(line, offers, asOf) + (if MaterialMatches(line, o) then [Classify(line, o, asOf)] else [])
  {
    assert (offers + [o])[..|offers|] == offers;
  }

  /** One more offer either becomes the last deliverable one of its vendor or changes nothing. */
  lemma {:induction false} LastOfferAppend(line: BoqLine, offers: seq<Offer>, o: Offer, asOf: int, v: Vendor)
    ensures LastOfferVouched(line, offers + [o], asOf, v) <==>
            if Deliverable(line, o, asOf) && v == o.vendor then o.positiveReputation
            else LastOfferVouched(line, offers, asOf, v)
  {
    hide Deliverable;
    var more := offers + [o];
    assert more[|offers|] == o;
    forall i: nat | i < |offers|
      ensures LastDeliverable(line, more, asOf, v, i) <==>
              LastDeliverable(line, offers, asOf, v, i) && !(o.vendor == v && Deliverable(line, o, asOf))
    {
      assert forall j :: 0 <= j < |offers| ==> more[j] == offers[j];
    }
    assert LastDeliverable(line, more, asOf, v, |offers|) <==> o.vendor == v && Deliverable(line, o, asOf);
    if LastOfferVouched(line, offers, asOf, v) {
      var i: nat :| LastDeliverable(line, offers, asOf, v, i) && offers[i].positiveReputation;
      assert more[i] == offers[i] && i < |offers|;
    }
    if LastOfferVouched(line, more, asOf, v) {
      var i: nat :| LastDeliverable(line, more, asOf, v, i) && more[i].positiveReputation;
      assert i < |offers| ==> more[i] == offers[i];
    }
  }

  lemma {:induction false} LastVouchedIs(line: BoqLine, offers: seq<Offer>, asOf: int, v: Vendor)
    ensures LastVouched(Candidates(line, offers, asOf), v) <==> LastOfferVouched(line, offers, asOf, v)
  {
    if offers != [] {
      var init, o := offers[..|offers| - 1], offers[|offers| - 1];
      assert offers == init + [o];
      LastVouchedIs(line, init, asOf, v);
      LastOfferAppend(line, init, o, asOf, v);
      CandidatesAppend(line, init, o, asOf);
      StrongIffDeliverable(line, o, asOf);
      VouchedAppend(Candidates(line, init, asOf), Classify(line, o, asOf), v);
      hide Candidates, LastVouched, LastOfferVouched, Deliverable, IsStrong, MaterialMatches;
      assert Candidates(line, init, asOf) + [] == Candidates(line, init, asOf);
    }
  }

  /** One more offer lowers a line's light exactly when the line was green, the offer could be
      delivered in full without positive reputation, and every other vendor's last such offer
      lacks it too. */
  lemma {:induction false} OfferLowersIff(line: BoqLine, offers: seq<Offer>, o: Offer, asOf: int)
    ensures Rank(MatchBoqLine(line, offers + [o], asOf).light) < Rank(MatchBoqLine(line, offers, asOf).light) <==>
              && MatchBoqLine(line, offers, asOf).light == Green && Deliverable(line, o, asOf) && !o.positiveReputation
              && forall v: Vendor :: v != o.vendor ==> !LastOfferVouched(line, offers, asOf, v)
    ensures MatchBoqLine(line, offers, asOf).light != Red ==> MatchBoqLine(line, offers + [o], asOf).light != Red
  {
    hide Candidates, LastVouched, LastOfferVouched, Deliverable, IsStrong, MaterialMatches, TrafficLight, Ranking;
    hide VolumeStatusOf, MoqExceedsQty, PriceWithVat;
    var cs, c := Candidates(line, offers, asOf), Classify(line, o, asOf);
    CandidatesAppend(line, offers, o, asOf);
    StrongIffDeliverable(line, o, asOf);
    if MaterialMatches(line, o) {
      CandidateLowersIff(cs, c);
      forall v: Vendor ensures LastVouched(cs, v) <==> LastOfferVouched(line, offers, asOf, v) {
        LastVouchedIs(line, offers, asOf, v);
      }
    } else {
      assert cs + [] == cs;
      assert !Deliverable(line, o, asOf);
    }
  }

  /** Two vendors could deliver, one of them with positive reputation; a later offer of that
      vendor without it turns the line from green to yellow. */
  lemma {:induction false} ConflictingReputationLowersTheLight()
    returns (line: BoqLine, offers: seq<Offer>, o: Offer)
    ensures MatchBoqLine(line, offers, 0).light == Green && MatchBoqLine(line, offers + [o], 0).light == Yellow
    ensures VendorReputation(offers) && !VendorReputation(offers + [o])
  {
    line := BoqLine(1, "a", Some(0), 1.0, Normal, None);
    var good := Offer(1, 1, "x", "a", 0, 0, None, Some(0), 1.0, 0.0, 1.0, 0.0, Confirmed, true);
    var other := Offer(2, 2, "y", "a", 0, 0, None, Some(0), 1.0, 0.0, 1.0, 0.0, Confirmed, false);
    o := good.(id := 3, positiveReputation := false);
    offers := [good, other];
    assert OccursAt("a", "a", 0);
    assert Deliverable(line, good, 0) && Deliverable(line, other, 0) && Deliverable(line, o, 0);
    hide MatchBoqLine, Deliverable;
    assert good in offers && other in offers && good in offers + [o] && o in offers + [o];
    assert DeliverableBy(line, offers, 0, 1) && DeliverableBy(line, offers, 0, 2);
    GreenMeansDeliverable(line, offers, 0);
    forall v: Vendor | v != 1 ensures !LastOfferVouched(line, offers, 0, v) {
      forall i: nat | LastDeliverable(line, offers, 0, v, i) ensures !offers[i].positiveReputation {
        assert i == 0 || i == 1;
      }
    }
    OfferLowersIff(line, offers, o, 0);
  }
}
