/**
  What a matched line reports, in terms of the offers alone: the candidates with all they tell,
  and the ranking with its order (packages/decision/matching.py:120-233).
*/
module RankingMeaning {
  import opened Common
  import opened Matching

  // ----- Candidates -----

  /** Line and offer are measured in the same known unit. */
  ghost predicate SameUnit(line: BoqLine, o: Offer) {
    line.unit.Some? && o.unit.Some? && line.unit.value == o.unit.value
  }

  /** The volume status tells exactly the first thing that stands in the way of the quantity. */
  ghost predicate TellsVolume(line: BoqLine, o: Offer, v: VolumeStatus) {
    && (v == AdverseCase <==> o.adverseCase.Some?)
    && (v == UnitUnmapped <==> o.adverseCase.None? && (line.unit.None? || o.unit.None?))
    && (v == UnitMismatch <==>
        o.adverseCase.None? && line.unit.Some? && o.unit.Some? && line.unit.value != o.unit.value)
    && (v == Insufficient <==> o.adverseCase.None? && SameUnit(line, o) && o.inventory < line.qty)
    && (v == Sufficient <==> o.adverseCase.None? && SameUnit(line, o) && line.qty <= o.inventory)
  }

  /** A candidate tells of its line and its offer. The price is the net price with the VAT
      percentage on top. */
  ghost predicate Tells(line: BoqLine, o: Offer, asOf: int, c: Candidate) {
    && c.lineId == line.sourceLineId && c.offerId == o.id
    && c.vendor == o.vendor && c.vendorName == o.vendorName && c.currency == o.currency
    && (c.isFresh <==> asOf <= o.validUntil)
    && TellsVolume(line, o, c.volume) && c.adverseCase == o.adverseCase
    && (c.moqExceedsQty <==> SameUnit(line, o) && line.qty < o.moq)
    && c.effectiveStatus == o.effectiveStatus && c.positiveReputation == o.positiveReputation
    && 100.0 * c.priceWithVat == o.price * (100.0 + o.vatRate)
  }

  lemma {:induction false} ClassifyTells(line: BoqLine, o: Offer, asOf: int)
    ensures Tells(line, o, asOf, Classify(line, o, asOf))
  {
    VatOnTop(o);
    hide PriceWithVat;
  }

  lemma {:induction false} VatOnTop(o: Offer)
    ensures 100.0 * PriceWithVat(o) == o.price * (100.0 + o.vatRate)
  {
    var rate := o.vatRate / 100.0;
    assert 100.0 * (1.0 + rate) == 100.0 + o.vatRate;
    assert 100.0 * (o.price * (1.0 + rate)) == o.price * (100.0 * (1.0 + rate));
  }

  ghost predicate ListedFor(line: BoqLine, offers: seq<Offer>, asOf: int, at: seq<nat>) {
    var cs := Candidates(line, offers, asOf);
    && |at| == |cs| && Increasing(at)
    && (forall i :: 0 <= i < |at| ==> at[i] < |offers| && Tells(line, offers[at[i]], asOf, cs[i]))
    && (forall j: nat :: j < |offers| ==> (MaterialMatches(line, offers[j]) <==> j in at))
  }

  /** The candidates are those of the offers with the line's material, in the order of the offers. */
  lemma {:induction false} CandidatesListed(line: BoqLine, offers: seq<Offer>, asOf: int) returns (at: seq<nat>)
    ensures ListedFor(line, offers, asOf, at)
  {
    if offers == [] {
      at := [];
    } else {
      hide MaterialMatches, Classify, Tells, ListedFor, Candidates;
      var init, o := offers[..|offers| - 1], offers[|offers| - 1];
      assert offers == init + [o];
      var before := CandidatesListed(line, init, asOf);
      CandidatesAppend(line, init, o, asOf);
      ClassifyTells(line, o, asOf);
      at := before + (if MaterialMatches(line, o) then [|init|] else []);
      ListedNext(line, init, o, asOf, before);
    }
  }

  lemma {:induction false} ListedNext(line: BoqLine, offers: seq<Offer>, o: Offer, asOf: int, at: seq<nat>)
    requires ListedFor(line, offers, asOf, at) && Tells(line, o, asOf, Classify(line, o, asOf))
    requires Candidates(line, offers + [o], asOf) ==
             Candidates(line, offers, asOf) + (if MaterialMatches(line, o) then [Classify(line, o, asOf)] else [])
    ensures ListedFor(line, offers + [o], asOf, at + (if MaterialMatches(line, o) then [|offers|] else []))
  {
    hide MaterialMatches, Classify, Tells, Candidates;
    var n, more := |offers|, offers + [o];
    var last := if MaterialMatches(line, o) then [n] else [];
    assert more[n] == o && forall j :: 0 <= j < n ==> more[j] == offers[j];
    assert forall j: nat :: j in at + last <==> j in at || j in last;
    assert forall j: nat :: j in at ==> j < n;
  }

  // ----- Red in terms of the offers -----

  /** The material is right, nothing stands against the offer, and the stock is short. */
  ghost predicate ShortOf(line: BoqLine, o: Offer) {
    o.adverseCase.None? && SameUnit(line, o) && o.inventory < line.qty
  }

  /** A line is red exactly when every offer of its material merely lacks stock. */
  lemma {:induction false} RedMeansShort(line: BoqLine, offers: seq<Offer>, asOf: int)
    ensures MatchBoqLine(line, offers, asOf).light == Red <==>
            forall o :: o in offers && MaterialMatches(line, o) ==> ShortOf(line, o)
  {
    hide MaterialMatches, Candidates, TrafficLight, Ranking;
    var cs := Candidates(line, offers, asOf);
    GreenIff(cs);
    forall c ensures c in cs <==> exists o :: o in offers && MaterialMatches(line, o) && Classify(line, o, asOf) == c {
      CandidatesIn(line, offers, asOf, c);
    }
    forall o ensures Classify(line, o, asOf).volume == Insufficient <==> ShortOf(line, o) {
      ClassifyTells(line, o, asOf);
    }
    hide Classify, ShortOf;
    if o :| o in offers && MaterialMatches(line, o) && !ShortOf(line, o) { assert Classify(line, o, asOf) in cs; }
  }

  // ----- The ranking -----

  lemma {:induction false} StrongPicked(cs: seq<Candidate>, strong: Candidate -> bool) returns (at: seq<nat>)
    requires forall c :: strong(c) <==> IsStrong(c)
    ensures Picks(cs, Strong(cs), at, strong)
  {
    hide IsStrong;
    if cs == [] {
      at := [];
    } else {
      var before := StrongPicked(cs[..|cs| - 1], strong);
      at := PicksNext(cs, Strong(cs[..|cs| - 1]), before, strong);
    }
  }

  lemma {:induction false} InCurrencyPicked(cs: seq<Candidate>, cur: Currency, priced: Candidate -> bool)
    returns (at: seq<nat>)
    requires forall c :: priced(c) <==> c.currency == cur
    ensures Picks(cs, InCurrency(cs, cur), at, priced)
  {
    if cs == [] {
      at := [];
    } else {
      var before := InCurrencyPicked(cs[..|cs| - 1], cur, priced);
      at := PicksNext(cs, InCurrency(cs[..|cs| - 1], cur), before, priced);
    }
  }

  /** Cheaper first; at one price, the one listed first. */
  ghost predicate Before(cs: seq<Candidate>, i: nat, j: nat)
    requires i < |cs| && j < |cs|
  {
    cs[i].priceWithVat < cs[j].priceWithVat || (cs[i].priceWithVat == cs[j].priceWithVat && i < j)
  }

  ghost predicate InOrder(cs: seq<Candidate>, at: seq<nat>)
    requires forall i :: 0 <= i < |at| ==> at[i] < |cs|
  {
    forall i, j :: 0 <= i < j < |at| ==> Before(cs, at[i], at[j])
  }

  /** `r` lists all of `cs`, which stand at `at`, in order. */
  ghost predicate Arranges(cs: seq<Candidate>, r: seq<Candidate>, at: seq<nat>) {
    && |at| == |r|
    && (forall i :: 0 <= i < |at| ==> at[i] < |cs| && r[i] == cs[at[i]])
    && (forall j: nat :: j < |cs| ==> j in at)
    && InOrder(cs, at)
  }

  lemma {:induction false} InsertAt(c: Candidate, s: seq<Candidate>) returns (k: nat)
    requires PriceSorted(s)
    ensures k <= |s| && Insert(c, s) == s[..k] + [c] + s[k..]
    ensures forall i :: 0 <= i < k ==> s[i].priceWithVat <= c.priceWithVat
    ensures forall i :: k <= i < |s| ==> c.priceWithVat < s[i].priceWithVat
  {
    if s == [] || s[|s| - 1].priceWithVat <= c.priceWithVat {
      k := |s|;
      assert s[..k] == s && s[k..] == [];
    } else {
      var init, last := s[..|s| - 1], s[|s| - 1];
      k := InsertAt(c, init);
      assert s[..k] == init[..k] && s[k..] == init[k..] + [last];
    }
  }

  lemma {:induction false} SortArranges(cs: seq<Candidate>) returns (at: seq<nat>)
    ensures Arranges(cs, SortByPrice(cs), at)
  {
    if cs == [] {
      at := [];
    } else {
      var n := |cs| - 1;
      var init, c := cs[..n], cs[n];
      var sorted := SortByPrice(init);
      SortIsStable(init);
      var before := SortArranges(init);
      var k := InsertAt(c, sorted);
      hide SortByPrice, Insert, AtPrice;
      at := before[..k] + [n] + before[k..];
      assert SortByPrice(cs) == sorted[..k] + [c] + sorted[k..] by { SortLast(cs); }
      InsertedArranges(cs, sorted, before, k);
    }
  }

  lemma {:induction false} SortLast(cs: seq<Candidate>)
    requires cs != []
    ensures SortByPrice(cs) == Insert(cs[|cs| - 1], SortByPrice(cs[..|cs| - 1]))
  {
  }

  lemma {:induction false} InsertedCovers(before: seq<nat>, n: nat, k: nat, j: nat)
    requires k <= |before| && (j in before || j == n)
    ensures j in before[..k] + [n] + before[k..]
  {
    var at := before[..k] + [n] + before[k..];
    if j == n {
      assert at[k] == n;
    } else {
      var i :| 0 <= i < |before| && before[i] == j;
      assert at[if i < k then i else i + 1] == j;
    }
  }

  lemma {:induction false} InsertedArranges(cs: seq<Candidate>, sorted: seq<Candidate>, before: seq<nat>, k: nat)
    requires cs != [] && Arranges(cs[..|cs| - 1], sorted, before) && k <= |sorted|
    requires forall i :: 0 <= i < k ==> sorted[i].priceWithVat <= cs[|cs| - 1].priceWithVat
    requires forall i :: k <= i < |sorted| ==> cs[|cs| - 1].priceWithVat < sorted[i].priceWithVat
    ensures Arranges(cs, sorted[..k] + [cs[|cs| - 1]] + sorted[k..], before[..k] + [|cs| - 1] + before[k..])
  {
    var n := |cs| - 1;
    var at := before[..k] + [n] + before[k..];
    forall j: nat | j < |cs| ensures j in at {
      assert j in before || j == n by {
        if j < n { assert j < |cs[..n]|; }
      }
      InsertedCovers(before, n, k, j);
    }
    assert forall i :: 0 <= i < |at| ==> at[i] < |cs|;
    hide Before;
    forall i, j | 0 <= i < j < |at| ensures Before(cs, at[i], at[j]) {
      InsertedPair(cs, sorted, before, k, i, j);
    }
  }

  lemma {:induction false} InsertedPair(cs: seq<Candidate>, sorted: seq<Candidate>, before: seq<nat>, k: nat, i: nat,
                                        j: nat)
    requires cs != [] && Arranges(cs[..|cs| - 1], sorted, before) && k <= |sorted| && i < j <= |before|
    requires forall i :: 0 <= i < k ==> sorted[i].priceWithVat <= cs[|cs| - 1].priceWithVat
    requires forall i :: k <= i < |sorted| ==> cs[|cs| - 1].priceWithVat < sorted[i].priceWithVat
    ensures var at := before[..k] + [|cs| - 1] + before[k..];
            at[i] < |cs| && at[j] < |cs| && Before(cs, at[i], at[j])
  {
    var n := |cs| - 1;
    var i', j' := if i < k then i else i - 1, if j < k then j else j - 1;
    if i != k && j != k {
      assert Before(cs[..n], before[i'], before[j']);
    } else if i == k {
      assert sorted[j'] == cs[before[j']];
    } else {
      assert sorted[i] == cs[before[i]];
    }
  }

  ghost predicate Comparable(c: Candidate, cur: Currency) { IsStrong(c) && c.currency == cur }

  /** `r` lists exactly those of `cs` that are kept, in order. */
  ghost predicate Ranks(cs: seq<Candidate>, r: seq<Candidate>, at: seq<nat>, keep: Candidate -> bool) {
    && |at| == |r|
    && (forall i :: 0 <= i < |at| ==> at[i] < |cs| && r[i] == cs[at[i]])
    && (forall j: nat :: j in at <==> j < |cs| && keep(cs[j]))
    && InOrder(cs, at)
  }

  lemma {:induction false} PickedThenArranged(cs: seq<Candidate>, some: seq<Candidate>, r: seq<Candidate>,
                                              places: seq<nat>, order: seq<nat>, keep: Candidate -> bool)
    returns (at: seq<nat>)
    requires Picks(cs, some, places, keep) && Arranges(some, r, order)
    ensures Ranks(cs, r, at, keep)
  {
    at := seq(|order|, i requires 0 <= i < |order| => places[order[i]]);
    forall j: nat ensures j in at <==> j < |cs| && keep(cs[j]) {
      if j < |cs| && keep(cs[j]) {
        var h :| 0 <= h < |places| && places[h] == j;
        assert h in order;
        var i :| 0 <= i < |order| && order[i] == h;
        assert at[i] == j;
      }
      if j in at {
        var i :| 0 <= i < |at| && at[i] == j;
        assert places[order[i]] in places;
      }
    }
    forall i, j | 0 <= i < j < |at| ensures Before(cs, at[i], at[j]) {
      assert Before(some, order[i], order[j]);
      assert some[order[i]] == cs[at[i]] && some[order[j]] == cs[at[j]];
    }
  }

  /** The ranking lists exactly the strong candidates in the reference currency, cheapest first
      and equal prices in the order of the candidates. */
  lemma {:induction false} RankingListed(cs: seq<Candidate>, keep: Candidate -> bool) returns (at: seq<nat>)
    requires Strong(cs) != [] && forall c :: keep(c) <==> Comparable(c, ReferenceCurrency(Strong(cs)))
    ensures Ranks(cs, Ranking(cs), at, keep)
  {
    hide SortByPrice, Strong, InCurrency, IsStrong, Ranks, Arranges, Picks;
    var ref := ReferenceCurrency(Strong(cs));
    var strong, priced := (c: Candidate) => IsStrong(c), (c: Candidate) => c.currency == ref;
    var at0 := StrongPicked(cs, strong);
    var at1 := InCurrencyPicked(Strong(cs), ref, priced);
    var places := PicksTwice(cs, Strong(cs), InCurrency(Strong(cs), ref), at0, at1, strong, priced, keep);
    var order := SortArranges(InCurrency(Strong(cs), ref));
    at := PickedThenArranged(cs, InCurrency(Strong(cs), ref), Ranking(cs), places, order, keep);
  }

  // ----- The ranking in terms of the offers -----

  /** Net price times one hundred plus the VAT percentage. */
  function Gross(o: Offer): real {
    o.price * (100.0 + o.vatRate)
  }

  /** How many offers in a currency could be delivered in full. */
  ghost function OffersIn(line: BoqLine, offers: seq<Offer>, asOf: int, cur: Currency): nat {
    |set j: nat | j < |offers| && Deliverable(line, offers[j], asOf) && offers[j].currency == cur|
  }

  lemma {:induction false} TellsStrong(line: BoqLine, o: Offer, asOf: int, c: Candidate)
    requires Tells(line, o, asOf, c) && MaterialMatches(line, o)
    ensures IsStrong(c) <==> Deliverable(line, o, asOf)
  {
    hide MaterialMatches;
  }

  lemma {:induction false} OffersInNext(line: BoqLine, offers: seq<Offer>, o: Offer, asOf: int, cur: Currency)
    ensures OffersIn(line, offers + [o], asOf, cur) ==
            OffersIn(line, offers, asOf, cur) + (if Deliverable(line, o, asOf) && o.currency == cur then 1 else 0)
  {
    hide Deliverable;
    var more, n := offers + [o], |offers|;
    var before := set j: nat | j < n && Deliverable(line, offers[j], asOf) && offers[j].currency == cur;
    var after := set j: nat | j < n + 1 && Deliverable(line, more[j], asOf) && more[j].currency == cur;
    assert more[n] == o;
    if Deliverable(line, o, asOf) && o.currency == cur {
      assert after == before + {n};
    } else {
      assert after == before;
    }
  }

  lemma {:induction false} CountCurrencyNext(cs: seq<Candidate>, c: Candidate, cur: Currency)
    ensures CountCurrency(cs + [c], cur) == CountCurrency(cs, cur) + (if c.currency == cur then 1 else 0)
  {
    assert (cs + [c])[..|cs|] == cs;
  }

  lemma {:induction false} CountsAreOffers(line: BoqLine, offers: seq<Offer>, asOf: int, cur: Currency)
    ensures CountCurrency(Strong(Candidates(line, offers, asOf)), cur) == OffersIn(line, offers, asOf, cur)
  {
    if offers == [] {
      assert OffersIn(line, offers, asOf, cur) == 0;
    } else {
      hide Deliverable, MaterialMatches, IsStrong, OffersIn, CountCurrency, Strong, Candidates;
      var init, o := offers[..|offers| - 1], offers[|offers| - 1];
      assert offers == init + [o];
      var cs, c := Candidates(line, init, asOf), Classify(line, o, asOf);
      CountsAreOffers(line, init, asOf, cur);
      OffersInNext(line, init, o, asOf, cur);
      CandidatesAppend(line, init, o, asOf);
      StrongAppend(cs, c);
      StrongIffDeliverable(line, o, asOf);
      CountCurrencyNext(Strong(cs), c, cur);
      assert cs + [] == cs && Strong(cs) + [] == Strong(cs);
    }
  }

  /** The currency with the most offers that could be delivered, the smallest code among equals. */
  ghost predicate IsReference(line: BoqLine, offers: seq<Offer>, asOf: int, ref: Currency) {
    forall cur: Currency {:trigger OffersIn(line, offers, asOf, cur)} ::
      || OffersIn(line, offers, asOf, cur) < OffersIn(line, offers, asOf, ref)
      || (OffersIn(line, offers, asOf, cur) == OffersIn(line, offers, asOf, ref) && ref <= cur)
  }

  lemma {:induction false} ReferenceIs(line: BoqLine, offers: seq<Offer>, asOf: int)
    requires Strong(Candidates(line, offers, asOf)) != []
    ensures IsReference(line, offers, asOf, ReferenceCurrency(Strong(Candidates(line, offers, asOf))))
  {
    hide Candidates, Strong, OffersIn;
    var executable := Strong(Candidates(line, offers, asOf));
    var ref := ReferenceCurrency(executable);
    hide ReferenceCurrency;
    assert ref in Currencies(executable);
    CountPresent(executable, ref);
    CountsAreOffers(line, offers, asOf, ref);
    forall cur: Currency
      ensures OffersIn(line, offers, asOf, cur) < OffersIn(line, offers, asOf, ref)
              || (OffersIn(line, offers, asOf, cur) == OffersIn(line, offers, asOf, ref) && ref <= cur)
    {
      CountsAreOffers(line, offers, asOf, cur);
      if cur in Currencies(executable) {
        assert Precedes(executable, ref, cur);
      } else {
        CountAbsent(executable, cur);
      }
    }
  }

  lemma {:induction false} CountPresent(cs: seq<Candidate>, cur: Currency)
    requires cur in Currencies(cs)
    ensures CountCurrency(cs, cur) > 0
  {
    if cs[|cs| - 1].currency != cur {
      assert forall c :: c in cs <==> c in cs[..|cs| - 1] || c == cs[|cs| - 1];
      CountPresent(cs[..|cs| - 1], cur);
    }
  }

  lemma {:induction false} NoneStrong(line: BoqLine, offers: seq<Offer>, asOf: int, listed: seq<nat>)
    requires ListedFor(line, offers, asOf, listed) && Strong(Candidates(line, offers, asOf)) == []
    ensures forall j :: 0 <= j < |offers| ==> !Deliverable(line, offers[j], asOf)
  {
    hide Candidates, Strong, MaterialMatches, IsStrong, Tells;
    var cs := Candidates(line, offers, asOf);
    forall j | 0 <= j < |offers| ensures !Deliverable(line, offers[j], asOf) {
      if MaterialMatches(line, offers[j]) {
        var i :| 0 <= i < |listed| && listed[i] == j;
        TellsStrong(line, offers[j], asOf, cs[i]);
        StrongIn(cs, cs[i]);
      }
    }
  }

  /** Where a ranked candidate stands among the offers. */
  lemma {:induction false} ListedAgain(line: BoqLine, offers: seq<Offer>, asOf: int, listed: seq<nat>, i: nat,
                                       ref: Currency)
    requires ListedFor(line, offers, asOf, listed) && i < |listed|
    ensures MaterialMatches(line, offers[listed[i]])
    ensures Comparable(Candidates(line, offers, asOf)[i], ref) <==>
            Deliverable(line, offers[listed[i]], asOf) && offers[listed[i]].currency == ref
  {
    hide Candidates, MaterialMatches, Deliverable, IsStrong;
    assert listed[i] in listed;
    TellsStrong(line, offers[listed[i]], asOf, Candidates(line, offers, asOf)[i]);
  }

  lemma {:induction false} DeliverableMatches(line: BoqLine, o: Offer, asOf: int)
    requires Deliverable(line, o, asOf)
    ensures MaterialMatches(line, o)
  {
  }

  lemma {:induction false} PricesOrder(line: BoqLine, o: Offer, p: Offer, asOf: int, c: Candidate, d: Candidate)
    requires Tells(line, o, asOf, c) && Tells(line, p, asOf, d)
    ensures c.priceWithVat < d.priceWithVat <==> Gross(o) < Gross(p)
    ensures c.priceWithVat == d.priceWithVat <==> Gross(o) == Gross(p)
  {
    hide TellsVolume;
  }

  /** `at` says where the ranked offers stand. */
  ghost predicate RankedAt(line: BoqLine, offers: seq<Offer>, asOf: int, ref: Currency, at: seq<nat>) {
    var ranked := MatchBoqLine(line, offers, asOf).ranked;
    && |at| == |ranked|
    && (forall i :: 0 <= i < |at| ==> at[i] < |offers| && Tells(line, offers[at[i]], asOf, ranked[i]))
    && (forall j: nat :: j in at <==>
          j < |offers| && Deliverable(line, offers[j], asOf) && offers[j].currency == ref)
    && forall i, j :: 0 <= i < j < |at| ==>
         || Gross(offers[at[i]]) < Gross(offers[at[j]])
         || (Gross(offers[at[i]]) == Gross(offers[at[j]]) && at[i] < at[j])
  }

  /** Ranked exactly when it could be delivered, in the reference currency. */
  lemma {:induction false} RankedMember(line: BoqLine, offers: seq<Offer>, asOf: int, ref: Currency, listed: seq<nat>,
                                        places: seq<nat>, keep: Candidate -> bool, at: seq<nat>, j: nat)
    requires ListedFor(line, offers, asOf, listed) && forall c :: keep(c) <==> Comparable(c, ref)
    requires Ranks(Candidates(line, offers, asOf), Ranking(Candidates(line, offers, asOf)), places, keep)
    requires |at| == |places| && forall i :: 0 <= i < |at| ==> at[i] == listed[places[i]]
    ensures j in at <==> j < |offers| && Deliverable(line, offers[j], asOf) && offers[j].currency == ref
  {
    hide Candidates, Deliverable, MaterialMatches, Tells, Gross, Comparable, Ranking, InOrder;
    if j < |offers| && Deliverable(line, offers[j], asOf) && offers[j].currency == ref {
      DeliverableMatches(line, offers[j], asOf);
      var i :| 0 <= i < |listed| && listed[i] == j;
      ListedAgain(line, offers, asOf, listed, i, ref);
      var h :| 0 <= h < |places| && places[h] == i;
      assert at[h] == j;
    }
    if j in at {
      var h :| 0 <= h < |at| && at[h] == j;
      assert places[h] in places;
      ListedAgain(line, offers, asOf, listed, places[h], ref);
    }
  }

  lemma {:induction false} RankedAmong(line: BoqLine, offers: seq<Offer>, asOf: int, ref: Currency, listed: seq<nat>,
                                       places: seq<nat>, keep: Candidate -> bool) returns (at: seq<nat>)
    requires ListedFor(line, offers, asOf, listed) && forall c :: keep(c) <==> Comparable(c, ref)
    requires Ranks(Candidates(line, offers, asOf), Ranking(Candidates(line, offers, asOf)), places, keep)
    ensures RankedAt(line, offers, asOf, ref, at)
  {
    hide Candidates, Deliverable, Tells, Gross, Comparable, Ranking, TrafficLight, MaterialMatches;
    var cs := Candidates(line, offers, asOf);
    at := seq(|places|, i requires 0 <= i < |places| => listed[places[i]]);
    forall j: nat ensures j in at <==> j < |offers| && Deliverable(line, offers[j], asOf) && offers[j].currency == ref {
      RankedMember(line, offers, asOf, ref, listed, places, keep, at, j);
    }
    forall i, j | 0 <= i < j < |at|
      ensures Gross(offers[at[i]]) < Gross(offers[at[j]])
              || (Gross(offers[at[i]]) == Gross(offers[at[j]]) && at[i] < at[j])
    {
      assert Before(cs, places[i], places[j]);
      PricesOrder(line, offers[at[i]], offers[at[j]], asOf, cs[places[i]], cs[places[j]]);
    }
  }

  lemma {:induction false} NothingRanked(line: BoqLine, offers: seq<Offer>, asOf: int, ref: Currency, listed: seq<nat>)
    requires ListedFor(line, offers, asOf, listed) && Strong(Candidates(line, offers, asOf)) == []
    ensures RankedAt(line, offers, asOf, ref, [])
  {
    hide ListedFor, Candidates, Strong, Deliverable, TrafficLight;
    NoneStrong(line, offers, asOf, listed);
  }

  /** The ranking lists exactly the offers that could be delivered in full and are in the
      reference currency, by gross price and then in the order of the offers. */
  lemma {:induction false} RankingOfOffers(line: BoqLine, offers: seq<Offer>, asOf: int)
    returns (ref: Currency, at: seq<nat>)
    ensures IsReference(line, offers, asOf, ref) && RankedAt(line, offers, asOf, ref, at)
  {
    hide Candidates, Strong, OffersIn, ReferenceCurrency, RankedAt, Ranks, ListedFor, Ranking, Comparable;
    var cs := Candidates(line, offers, asOf);
    var listed := CandidatesListed(line, offers, asOf);
    if Strong(cs) == [] {
      ref, at := 0, [];
      NothingRanked(line, offers, asOf, ref, listed);
      forall cur: Currency ensures OffersIn(line, offers, asOf, cur) == 0 {
        CountsAreOffers(line, offers, asOf, cur);
        NoneCounted(cur);
      }
    } else {
      ReferenceIs(line, offers, asOf);
      ref := ReferenceCurrency(Strong(cs));
      var r := ref;
      var keep := (c: Candidate) => Comparable(c, r);
      var places := RankingListed(cs, keep);
      at := RankedAmong(line, offers, asOf, ref, listed, places, keep);
    }
  }

  lemma {:induction false} NoneCounted(cur: Currency)
    ensures CountCurrency([], cur) == 0
  {
  }
}
