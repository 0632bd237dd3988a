/**
  What a bid's summary and its critical lines report, in terms of the lines and their lights
  (packages/decision/boq_summary.py:41-77, packages/decision/bid_readiness.py:40-85).
*/
module SummaryMeaning {
  import opened Common
  import opened Matching
  import opened BidReadiness

  // ----- The amounts -----

  /** The sum of the amounts there are. */
  function Money(lines: seq<BoqLine>): real {
    if lines == [] then 0.0
    else
      var l := lines[|lines| - 1];
      Money(lines[..|lines| - 1]) + (if l.amount.Some? then l.amount.value else 0.0)
  }

  ghost predicate Shows(l: BoqLine, matches: Matches, light: Light) {
    l.lineType == Normal && l.sourceLineId in matches && matches[l.sourceLineId].light == light
  }

  /** `some` are exactly the lines that show a light, in order; they stand at `at`. */
  ghost predicate ShowAt(lines: seq<BoqLine>, matches: Matches, light: Light, some: seq<BoqLine>, at: seq<nat>) {
    && |at| == |some| && Increasing(at)
    && (forall i :: 0 <= i < |at| ==> at[i] < |lines| && lines[at[i]] == some[i])
    && (forall j: nat :: j < |lines| ==> (Shows(lines[j], matches, light) <==> j in at))
  }

  /** The money of the lines that show a light. */
  ghost predicate MoneyUnder(lines: seq<BoqLine>, matches: Matches, light: Light, amount: real) {
    exists some, at :: ShowAt(lines, matches, light, some, at) && amount == Money(some)
  }

  lemma {:induction false} MoneyNext(lines: seq<BoqLine>, l: BoqLine)
    ensures Money(lines + [l]) == Money(lines) + (if l.amount.Some? then l.amount.value else 0.0)
  {
    assert (lines + [l])[..|lines|] == lines;
  }

  lemma {:induction false} LitMoney(lines: seq<BoqLine>, matches: Matches, light: Light, shows: BoqLine -> bool)
    returns (some: seq<BoqLine>, at: seq<nat>)
    requires forall l :: shows(l) <==> Shows(l, matches, light)
    ensures Picks(lines, some, at, shows) && AmountLit(lines, matches, light) == Money(some)
  {
    hide Money;
    some, at := [], [];
    if lines == [] {
      assert Money([]) == 0.0 by { NoMoney(); }
    } else {
      var l := lines[|lines| - 1];
      some, at := LitMoney(lines[..|lines| - 1], matches, light, shows);
      at := PicksNext(lines, some, at, shows);
      MoneyNext(some, l);
      if shows(l) {
        some := some + [l];
      } else {
        assert some + [] == some;
      }
    }
  }

  lemma {:induction false} NoMoney()
    ensures Money([]) == 0.0
  {
  }

  lemma {:induction false} AmountUnder(lines: seq<BoqLine>, matches: Matches, light: Light)
    ensures MoneyUnder(lines, matches, light, AmountLit(lines, matches, light))
  {
    var shows := (l: BoqLine) => Shows(l, matches, light);
    var some, at := LitMoney(lines, matches, light, shows);
    hide Shows, AmountLit, Money;
    assert ShowAt(lines, matches, light, some, at) by {
      forall j: nat | j < |lines| ensures Shows(lines[j], matches, light) <==> j in at {
        assert shows(lines[j]) <==> j in at;
      }
    }
  }

  // ----- The counts -----

  ghost function UnpricedPlaces(lines: seq<BoqLine>): set<nat> {
    set i: nat | i < |lines| && lines[i].lineType == Normal && lines[i].amount.None?
  }

  ghost function OtherPlaces(lines: seq<BoqLine>): set<nat> {
    set i: nat | i < |lines| && lines[i].lineType != Normal
  }

  lemma {:induction false} CountsPlaces(lines: seq<BoqLine>, unpriced: BoqLine -> bool, other: BoqLine -> bool)
    requires forall l :: unpriced(l) <==> l.lineType == Normal && l.amount.None?
    requires forall l :: other(l) <==> l.lineType != Normal
    ensures CountUnpriced(lines) == |Places(lines, unpriced)| && CountOther(lines) == |Places(lines, other)|
  {
    if lines == [] {
      assert Places(lines, unpriced) == {} && Places(lines, other) == {};
    } else {
      CountsPlaces(lines[..|lines| - 1], unpriced, other);
      PlacesNext(lines, unpriced);
      PlacesNext(lines, other);
      hide Places;
    }
  }

  lemma {:induction false} CountsAre(lines: seq<BoqLine>)
    ensures CountUnpriced(lines) == |UnpricedPlaces(lines)| && CountOther(lines) == |OtherPlaces(lines)|
  {
    var unpriced, other := (l: BoqLine) => l.lineType == Normal && l.amount.None?, (l: BoqLine) => l.lineType != Normal;
    CountsPlaces(lines, unpriced, other);
    assert Places(lines, unpriced) == UnpricedPlaces(lines);
    assert Places(lines, other) == OtherPlaces(lines);
  }

  /** All money is that of the normal lines and that of the others. */
  lemma {:induction false} OtherMoney(lines: seq<BoqLine>)
    ensures OtherAmount(lines) + PricedAmount(lines) == Money(lines)
  {
    if lines != [] { OtherMoney(lines[..|lines| - 1]); }
  }

  // ----- The summary -----

  /** The amounts are those of the lines that show each light; the percentages are their shares;
      the counts are those of the lines left out. */
  ghost predicate Summarizes(lines: seq<BoqLine>, matches: Matches, s: Summary) {
    && MoneyUnder(lines, matches, Green, s.green)
    && MoneyUnder(lines, matches, Yellow, s.yellow)
    && MoneyUnder(lines, matches, Red, s.red)
    && s.total == s.green + s.yellow + s.red && s.total + s.nonMatchableAmount == Money(lines)
    && s.unpricedLines == |UnpricedPlaces(lines)| && s.nonMatchableLines == |OtherPlaces(lines)|
    && (s.total != 0.0 ==>
          && s.greenPct * s.total == 100.0 * s.green
          && s.yellowPct * s.total == 100.0 * s.yellow
          && s.redPct * s.total == 100.0 * s.red)
    && (s.total == 0.0 ==> s.greenPct == s.yellowPct == s.redPct == 0.0)
  }

  lemma {:induction false} PctIs(amount: real, total: real)
    ensures total != 0.0 ==> Pct(amount, total) * total == 100.0 * amount
    ensures total == 0.0 ==> Pct(amount, total) == 0.0
  {
    if total != 0.0 {
      var share := amount / total;
      assert share * total == amount;
      assert (share * 100.0) * total == 100.0 * (share * total);
    }
  }

  lemma {:induction false} PercentagesAre(s: Sums)
    ensures var r := SummaryOf(s);
            && (r.total != 0.0 ==>
                  && r.greenPct * r.total == 100.0 * r.green
                  && r.yellowPct * r.total == 100.0 * r.yellow
                  && r.redPct * r.total == 100.0 * r.red)
            && (r.total == 0.0 ==> r.greenPct == r.yellowPct == r.redPct == 0.0)
  {
    hide Pct;
    var total := s.green + s.yellow + s.red;
    PctIs(s.green, total);
    PctIs(s.yellow, total);
    PctIs(s.red, total);
  }

  /** What the summary of looked-up lines reports. */
  lemma {:induction false} SummaryIs(lines: seq<BoqLine>, matches: Matches)
    requires Looked(lines, matches)
    ensures Summarizes(lines, matches, SummaryOf(SumsOf(lines, matches)))
  {
    hide AmountLit, PricedAmount, Money, MoneyUnder, UnpricedPlaces, OtherPlaces, CountUnpriced, CountOther;
    hide OtherAmount, Pct, Looked;
    PercentagesAre(SumsOf(lines, matches));
    AmountUnder(lines, matches, Green);
    AmountUnder(lines, matches, Yellow);
    AmountUnder(lines, matches, Red);
    CountsAre(lines);
    OtherMoney(lines);
    MoneyIsConserved(lines, matches);
  }

  /** A bid is a lottery without priced money, and otherwise exactly when the covered money is
      short of 85 hundredths of it. */
  lemma {:induction false} LotteryMeaning(lines: seq<BoqLine>, matches: Matches)
    requires Looked(lines, matches)
    ensures var s := SummaryOf(SumsOf(lines, matches));
            && (s.total == 0.0 ==> CoveragePct(s) < LOTTERY_THRESHOLD_PCT)
            && (s.total > 0.0 ==>
                  (CoveragePct(s) < LOTTERY_THRESHOLD_PCT <==> 100.0 * (s.green + s.yellow) < 85.0 * s.total))
  {
    var s := SummaryOf(SumsOf(lines, matches));
    PercentagesAre(SumsOf(lines, matches));
    hide SumsOf, SummaryOf, Pct;
    if s.total > 0.0 { ShareShort(s.greenPct, s.yellowPct, s.total); }
  }

  lemma {:induction false} ShareShort(a: real, b: real, total: real)
    requires total > 0.0
    ensures a + b < LOTTERY_THRESHOLD_PCT <==> a * total + b * total < 85.0 * total
  {
    var c := a + b;
    assert c * total == a * total + b * total;
    if c < 85.0 {
      assert (85.0 - c) * total > 0.0;
    } else {
      assert (c - 85.0) * total >= 0.0;
    }
  }

  // ----- The dictionary of matches -----

  /** For an id, the match of the last normal line that carries it. */
  lemma {:induction false} LastLineMatches(lines: seq<BoqLine>, offers: seq<Offer>, asOf: int, i: nat)
    requires i < |lines| && lines[i].lineType == Normal
    requires forall j :: i < j < |lines| && lines[j].lineType == Normal ==>
                           lines[j].sourceLineId != lines[i].sourceLineId
    ensures var m := MatchMap(lines, offers, asOf);
            lines[i].sourceLineId in m && m[lines[i].sourceLineId] == MatchBoqLine(lines[i], offers, asOf)
  {
    hide MatchBoqLine;
    if i < |lines| - 1 { LastLineMatches(lines[..|lines| - 1], offers, asOf, i); }
  }

  /** The `i`-th line is the first normal one with the id `k`. */
  ghost predicate FirstNormal(lines: seq<BoqLine>, i: nat, k: nat) {
    && i < |lines| && lines[i].lineType == Normal && lines[i].sourceLineId == k
    && forall j :: 0 <= j < i && lines[j].lineType == Normal ==> lines[j].sourceLineId != k
  }

  /** `at` says where the keys first come up. */
  ghost predicate ComeUp(lines: seq<BoqLine>, order: seq<nat>, at: seq<nat>) {
    && |at| == |order| && Increasing(at)
    && (forall i :: 0 <= i < |at| ==> FirstNormal(lines, at[i], order[i]))
    && (forall l :: l in lines && l.lineType == Normal ==> l.sourceLineId in order)
  }

  /** The keys stand in the order in which they first come up. */
  lemma {:induction false} OrderOfKeys(lines: seq<BoqLine>) returns (at: seq<nat>)
    ensures ComeUp(lines, MatchOrder(lines), at)
  {
    if lines == [] {
      at := [];
    } else {
      var n := |lines| - 1;
      var init, l := lines[..n], lines[n];
      var before := MatchOrder(init);
      at := OrderOfKeys(init);
      forall i | 0 <= i < |at| ensures FirstNormal(lines, at[i], before[i]) {
        assert FirstNormal(init, at[i], before[i]);
      }
      assert forall x :: x in lines <==> x in init || x == l;
      if l.lineType == Normal && l.sourceLineId !in before {
        assert forall j :: 0 <= j < n ==> lines[j] in init;
        assert FirstNormal(lines, n, l.sourceLineId);
        assert forall i :: 0 <= i < |at| ==> at[i] < n;
        at := at + [n];
      }
    }
  }

  // ----- The critical lines -----

  /** The first strong candidate of a line. */
  ghost predicate FirstStrong(cs: seq<Candidate>, i: nat) {
    i < |cs| && IsStrong(cs[i]) && forall j :: 0 <= j < i ==> !IsStrong(cs[j])
  }

  ghost predicate HasSole(m: BoqLineMatch) {
    exists v: Vendor :: SoleVendor(m.candidates, v)
  }

  /** The entry names the line and its first strong source. */
  ghost predicate NamesSource(m: BoqLineMatch, c: CriticalLine) {
    exists i: nat ::
      && FirstStrong(m.candidates, i) && c.lineId == m.lineId
      && c.vendor == m.candidates[i].vendor && c.vendorName == m.candidates[i].vendorName
  }

  lemma {:induction false} FirstOfStrong(cs: seq<Candidate>) returns (i: nat)
    requires Strong(cs) != []
    ensures FirstStrong(cs, i) && cs[i] == Strong(cs)[0]
  {
    var n := |cs| - 1;
    if Strong(cs[..n]) != [] {
      i := FirstOfStrong(cs[..n]);
    } else {
      i := n;
      forall j | 0 <= j < n ensures !IsStrong(cs[j]) { StrongIn(cs[..n], cs[j]); }
    }
  }

  lemma {:induction false} CriticalNames(m: BoqLineMatch)
    ensures |CriticalOf(m)| == if HasSole(m) then 1 else 0
    ensures HasSole(m) ==> NamesSource(m, CriticalOf(m)[0])
  {
    CriticalMeaning(m);
    if CriticalOf(m) != [] {
      var v: Vendor :| SoleVendor(m.candidates, v);
      var c :| c in m.candidates && IsStrong(c) && c.vendor == v;
      StrongIn(m.candidates, c);
      var i := FirstOfStrong(m.candidates);
    }
  }

  /** `at` says where the lines of the entries stand. */
  ghost predicate CriticalAt(order: seq<nat>, matches: Matches, critical: seq<CriticalLine>, at: seq<nat>)
    requires forall k :: k in order ==> k in matches
  {
    && |at| == |critical| && Increasing(at)
    && (forall i :: 0 <= i < |at| ==> at[i] < |order| && NamesSource(matches[order[at[i]]], critical[i]))
    && (forall j: nat :: j < |order| ==> (HasSole(matches[order[j]]) <==> j in at))
  }

  lemma {:induction false} CriticalNext(order: seq<nat>, matches: Matches, critical: seq<CriticalLine>, at: seq<nat>,
                                        last: seq<CriticalLine>)
    requires order != [] && forall k :: k in order ==> k in matches
    requires forall k :: k in order[..|order| - 1] ==> k in matches
    requires CriticalAt(order[..|order| - 1], matches, critical, at)
    requires |last| == if HasSole(matches[order[|order| - 1]]) then 1 else 0
    requires last != [] ==> NamesSource(matches[order[|order| - 1]], last[0])
    ensures CriticalAt(order, matches, critical + last, at + (if last != [] then [|order| - 1] else []))
  {
    hide HasSole, NamesSource;
    var n := |order| - 1;
    var tail := if last != [] then [n] else [];
    assert forall j: nat :: j in at + tail <==> j in at || j in tail;
    assert forall i :: 0 <= i < |at| ==> at[i] < n && order[..n][at[i]] == order[at[i]];
    assert forall j: nat :: j in at ==> j < n;
    assert forall j: nat :: j < n ==> order[..n][j] == order[j];
  }

  /** The critical lines are those with a sole strong vendor, in the order of the matches. */
  lemma {:induction false} CriticalListed(order: seq<nat>, matches: Matches) returns (at: seq<nat>)
    requires forall k :: k in order ==> k in matches
    ensures CriticalAt(order, matches, CriticalFrom(order, matches), at)
  {
    if order == [] {
      at := [];
    } else {
      hide CriticalOf, HasSole, NamesSource, CriticalAt;
      var n := |order| - 1;
      assert order[n] in order && forall k :: k in order[..n] ==> k in order;
      var before := CriticalListed(order[..n], matches);
      var last := CriticalOf(matches[order[n]]);
      CriticalNames(matches[order[n]]);
      at := before + (if last != [] then [n] else []);
      CriticalNext(order, matches, CriticalFrom(order[..n], matches), before, last);
    }
  }
}
