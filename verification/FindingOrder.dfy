/**
  The order in which the structural findings are listed
  (packages/algorithm/policy_validator.py:41-71, 221-252).
*/
module FindingOrder {
  import opened Common
  import opened Graphs
  import opened PolicyModel
  import opened PolicyValidator

  /** Which of the four checks makes the finding. */
  function CheckOf(s: Issue): nat {
    match s
    case DanglingReference(_) => 0
    case UnboundedCycle(_) => 2
    case IoTypeMismatch(_, _, _) => 3
    case _ => 1
  }

  /** The checks report one after the other. */
  lemma {:induction false} ChecksInOrder(nodes: seq<Node>, edges: seq<PolicyEdge>, comps: seq<seq<Key>>)
    ensures var issues := StructureFindings(nodes, edges, comps);
            forall i, j :: 0 <= i < j < |issues| ==> CheckOf(issues[i]) <= CheckOf(issues[j])
  {
    hide DanglingFindings, ReachabilityFindings, CycleFindings, IoFindings, Shape, Incoming, CleanEdges;
    var g, clean := Shape(nodes, edges), CleanEdges(edges, Keys(nodes));
    forall e | e in clean ensures Resolved(nodes, e) { CleanEdgesIn(edges, Keys(nodes), e); }
    ShapeKeys(nodes, edges);
    forall s ensures s in DanglingFindings(nodes, edges) ==> CheckOf(s) == 0 { DanglingKinds(nodes, edges, s); }
    forall s ensures s in ReachabilityFindings(g, Incoming(nodes, edges)) ==> CheckOf(s) == 1 {
      ReachabilityMeaning(nodes, edges, s);
    }
    forall s ensures s in CycleFindings(nodes, g, comps) ==> CheckOf(s) == 2 { CycleFindingsIn(nodes, g, comps, s); }
    forall s ensures s in IoFindings(nodes, clean) ==> CheckOf(s) == 3 { MismatchKinds(nodes, clean, s); }
    hide Keys;
    var a, b := DanglingFindings(nodes, edges), ReachabilityFindings(g, Incoming(nodes, edges));
    var c, d := CycleFindings(nodes, g, comps), IoFindings(nodes, clean);
    InOrder(a, b, c, d);
  }

  lemma {:induction false} DanglingKinds(nodes: seq<Node>, edges: seq<PolicyEdge>, s: Issue)
    ensures s in DanglingFindings(nodes, edges) ==> s.DanglingReference?
  {
    DanglingMeaning(nodes, edges);
  }

  lemma {:induction false} MismatchKinds(nodes: seq<Node>, edges: seq<PolicyEdge>, s: Issue)
    requires forall e :: e in edges ==> Resolved(nodes, e)
    ensures s in IoFindings(nodes, edges) ==> s.IoTypeMismatch?
  {
    IoFindingsIn(nodes, edges, s);
  }

  lemma {:induction false} InOrder(a: seq<Issue>, b: seq<Issue>, c: seq<Issue>, d: seq<Issue>)
    requires forall s :: s in a ==> CheckOf(s) == 0
    requires forall s :: s in b ==> CheckOf(s) == 1
    requires forall s :: s in c ==> CheckOf(s) == 2
    requires forall s :: s in d ==> CheckOf(s) == 3
    ensures var all := a + b + c + d;
            forall i, j :: 0 <= i < j < |all| ==> CheckOf(all[i]) <= CheckOf(all[j])
  {
    hide CheckOf;
    var all := a + b + c + d;
    forall i | 0 <= i < |all|
      ensures CheckOf(all[i]) == if i < |a| then 0 else if i < |a + b| then 1 else if i < |a + b + c| then 2 else 3
    {
      if i < |a| {
        assert all[i] in a;
      } else if i < |a + b| {
        assert all[i] == b[i - |a|];
      } else if i < |a + b + c| {
        assert all[i] == c[i - |a + b|];
      } else {
        assert all[i] == d[i - |a + b + c|];
      }
    }
  }

  // ----- Dangling references, site by site -----

  function ListOf(s: Option<Issue>): seq<Issue> {
    if s.Some? then [s.value] else []
  }

  /** Two sites for each edge, its source and its target, and then one for each node. */
  ghost function Dangling(nodes: seq<Node>, edges: seq<PolicyEdge>, site: nat): Option<Issue> {
    if site < 2 * |edges| then
      var e := edges[site / 2];
      var end := if site % 2 == 0 then e.from else e.to;
      if end in Keys(nodes) then None else Some(DanglingReference(end))
    else if site - 2 * |edges| < |nodes| then
      var n := nodes[site - 2 * |edges|];
      if n.fallback.Some? && n.fallback.value !in Keys(nodes) then Some(DanglingReference(n.key)) else None
    else None
  }

  /** `at` lists the sites below `limit` that dangle, in order. */
  ghost predicate DangleAt(nodes: seq<Node>, edges: seq<PolicyEdge>, limit: nat, found: seq<Issue>, at: seq<nat>) {
    && |at| == |found| && Increasing(at)
    && (forall i :: 0 <= i < |at| ==> at[i] < limit && Dangling(nodes, edges, at[i]) == Some(found[i]))
    && (forall k: nat :: k < limit && Dangling(nodes, edges, k).Some? ==> k in at)
  }

  lemma {:induction false} NextSite(nodes: seq<Node>, edges: seq<PolicyEdge>, limit: nat, found: seq<Issue>,
                                    at: seq<nat>)
    returns (at': seq<nat>)
    requires DangleAt(nodes, edges, limit, found, at)
    ensures var site := Dangling(nodes, edges, limit);
            DangleAt(nodes, edges, limit + 1, found + ListOf(site), at')
  {
    hide Dangling;
    var last := if Dangling(nodes, edges, limit).Some? then [limit] else [];
    at' := at + last;
    assert forall k: nat :: k in at' <==> k in at || k in last;
  }

  /** The findings of one edge are those of its two sites. */
  lemma {:induction false} TwoSites(nodes: seq<Node>, edges: seq<PolicyEdge>, m: nat)
    requires m < |edges|
    ensures DanglingAt(Keys(nodes), edges[m]) ==
            ListOf(Dangling(nodes, edges, 2 * m)) + ListOf(Dangling(nodes, edges, 2 * m + 1))
  {
    assert (2 * m) / 2 == m && (2 * m + 1) / 2 == m && (2 * m) % 2 == 0 && (2 * m + 1) % 2 == 1;
  }

  lemma {:induction false} EndsNext(nodes: seq<Node>, edges: seq<PolicyEdge>, m: nat)
    requires m < |edges|
    ensures DanglingEnds(Keys(nodes), edges[..m + 1]) ==
            DanglingEnds(Keys(nodes), edges[..m]) + DanglingAt(Keys(nodes), edges[m])
  {
    assert edges[..m + 1][..m] == edges[..m];
  }

  lemma {:induction false} NoSites(nodes: seq<Node>, edges: seq<PolicyEdge>)
    ensures DangleAt(nodes, edges, 0, DanglingEnds(Keys(nodes), edges[..0]), [])
  {
  }

  lemma {:induction false} EndsListed(nodes: seq<Node>, edges: seq<PolicyEdge>, m: nat) returns (at: seq<nat>)
    requires m <= |edges|
    ensures DangleAt(nodes, edges, 2 * m, DanglingEnds(Keys(nodes), edges[..m]), at)
  {
    hide DangleAt, Dangling, DanglingAt, DanglingEnds, Keys;
    if m == 0 {
      at := [];
      NoSites(nodes, edges);
    } else {
      at := EndsListed(nodes, edges, m - 1);
      var before := DanglingEnds(Keys(nodes), edges[..m - 1]);
      EndsNext(nodes, edges, m - 1);
      TwoSites(nodes, edges, m - 1);
      var site := 2 * (m - 1);
      at := NextSite(nodes, edges, site, before, at);
      at := NextSite(nodes, edges, site + 1, before + ListOf(Dangling(nodes, edges, site)), at);
      assert before + ListOf(Dangling(nodes, edges, site)) + ListOf(Dangling(nodes, edges, site + 1))
             == before + (ListOf(Dangling(nodes, edges, site)) + ListOf(Dangling(nodes, edges, site + 1)));
    }
  }

  lemma {:induction false} FallbacksListed(nodes: seq<Node>, edges: seq<PolicyEdge>, m: nat) returns (at: seq<nat>)
    requires m <= |nodes|
    ensures DangleAt(nodes, edges, 2 * |edges| + m,
                     DanglingEnds(Keys(nodes), edges) + DanglingFallbacks(Keys(nodes), nodes[..m]), at)
  {
    hide DangleAt, DanglingEnds;
    var ends := DanglingEnds(Keys(nodes), edges);
    if m == 0 {
      at := EndsListed(nodes, edges, |edges|);
      assert edges[..|edges|] == edges && ends + DanglingFallbacks(Keys(nodes), nodes[..0]) == ends;
    } else {
      at := FallbacksListed(nodes, edges, m - 1);
      var before := DanglingFallbacks(Keys(nodes), nodes[..m - 1]);
      assert nodes[..m][..m - 1] == nodes[..m - 1];
      at := NextSite(nodes, edges, 2 * |edges| + m - 1, ends + before, at);
      var site := Dangling(nodes, edges, 2 * |edges| + m - 1);
      var last := ListOf(site);
      assert DanglingFallbacks(Keys(nodes), nodes[..m]) == before + last;
      assert ends + before + last == ends + (before + last);
    }
  }

  /** The dangling references are listed edge by edge, source before target, and then node by
      node: each site that dangles once. */
  lemma {:induction false} DanglingListed(nodes: seq<Node>, edges: seq<PolicyEdge>) returns (at: seq<nat>)
    ensures DangleAt(nodes, edges, 2 * |edges| + |nodes|, DanglingFindings(nodes, edges), at)
  {
    at := FallbacksListed(nodes, edges, |nodes|);
    assert nodes[..|nodes|] == nodes;
  }

  // ----- Contract mismatches, edge by edge -----

  function FieldIn(s: Issue): nat {
    if s.IoTypeMismatch? then s.field else 0
  }

  /** `at` lists, for each mismatch in turn, the edge it lies on: edge by edge, and the fields of
      an edge increasing. */
  ghost predicate MismatchAt(nodes: seq<Node>, edges: seq<PolicyEdge>, found: seq<Issue>, at: seq<nat>)
    requires forall e :: e in edges ==> Resolved(nodes, e)
  {
    && |at| == |found|
    && (forall i :: 0 <= i < |at| ==> at[i] < |edges| && MismatchOn(nodes, edges[at[i]], found[i]))
    && (forall i, j :: 0 <= i < j < |at| ==>
          at[i] < at[j] || (at[i] == at[j] && FieldIn(found[i]) < FieldIn(found[j])))
    && (forall k: nat, s :: k < |edges| && MismatchOn(nodes, edges[k], s) ==>
          exists i :: 0 <= i < |at| && at[i] == k && found[i] == s)
  }

  lemma {:induction false} IncreasingNext(s: seq<nat>, x: nat)
    requires Increasing(s) && forall y :: y in s ==> y < x
    ensures Increasing(s + [x])
  {
    assert forall i :: 0 <= i < |s| ==> s[i] in s;
  }

  lemma {:induction false} DifferingIncreases(fields: seq<Field>, a: Node, b: Node)
    requires Increasing(fields)
    ensures Increasing(Differing(fields, a, b))
  {
    if fields != [] {
      var init, f := fields[..|fields| - 1], fields[|fields| - 1];
      DifferingIncreases(init, a, b);
      forall g | g in Differing(init, a, b) ensures g < f {
        DifferingIn(init, a, b, g);
        var i :| 0 <= i < |init| && init[i] == g;
        assert fields[i] < fields[|fields| - 1];
      }
      IncreasingNext(Differing(init, a, b), f);
    }
  }

  lemma {:induction false} EdgeIncreases(nodes: seq<Node>, e: PolicyEdge)
    requires Resolved(nodes, e)
    ensures var here := EdgeMismatches(nodes, e);
            forall i, j :: 0 <= i < j < |here| ==> FieldIn(here[i]) < FieldIn(here[j])
  {
    var a, b := NodeByKey(nodes, e.from), NodeByKey(nodes, e.to);
    SortedElements(a.outputContract.Keys * b.inputContract.Keys);
    DifferingIncreases(SharedFields(a, b), a, b);
    hide Differing, SharedFields;
    var fields, here := Differing(SharedFields(a, b), a, b), EdgeMismatches(nodes, e);
    assert forall i :: 0 <= i < |here| ==> FieldIn(here[i]) == fields[i];
  }

  lemma {:induction false} MismatchNext(nodes: seq<Node>, edges: seq<PolicyEdge>, found: seq<Issue>, at: seq<nat>,
                                        here: seq<Issue>) returns (at': seq<nat>)
    requires edges != [] && forall e :: e in edges ==> Resolved(nodes, e)
    requires forall e :: e in edges[..|edges| - 1] ==> Resolved(nodes, e)
    requires MismatchAt(nodes, edges[..|edges| - 1], found, at)
    requires edges[|edges| - 1] in edges && forall s :: s in here <==> MismatchOn(nodes, edges[|edges| - 1], s)
    requires forall i, j :: 0 <= i < j < |here| ==> FieldIn(here[i]) < FieldIn(here[j])
    ensures MismatchAt(nodes, edges, found + here, at')
  {
    hide MismatchOn, Resolved;
    var n := |edges| - 1;
    at' := at + seq(|here|, i requires 0 <= i < |here| => n);
    forall i | 0 <= i < |at'| ensures at'[i] < |edges| && MismatchOn(nodes, edges[at'[i]], (found + here)[i]) {
      if i >= |at| { assert here[i - |at|] in here; }
    }
    forall k: nat, s | k < |edges| && MismatchOn(nodes, edges[k], s)
      ensures exists i :: 0 <= i < |at'| && at'[i] == k && (found + here)[i] == s
    {
      if k < n {
        assert edges[..n][k] == edges[k];
        var i :| 0 <= i < |at| && at[i] == k && found[i] == s;
        assert at'[i] == k && (found + here)[i] == s;
      } else {
        assert s in here;
        var i :| 0 <= i < |here| && here[i] == s;
        assert at'[|at| + i] == k && (found + here)[|at| + i] == s;
      }
    }
  }

  /** The mismatches are listed edge by edge, the fields of each edge sorted: each one once. */
  lemma {:induction false} MismatchesListed(nodes: seq<Node>, edges: seq<PolicyEdge>) returns (at: seq<nat>)
    requires forall e :: e in edges ==> Resolved(nodes, e)
    ensures MismatchAt(nodes, edges, IoFindings(nodes, edges), at)
  {
    if edges == [] {
      at := [];
    } else {
      hide MismatchOn, Resolved, EdgeMismatches, MismatchAt;
      var init, e := edges[..|edges| - 1], edges[|edges| - 1];
      assert e in edges && forall d :: d in init ==> d in edges;
      at := MismatchesListed(nodes, init);
      forall s ensures s in EdgeMismatches(nodes, e) <==> MismatchOn(nodes, e, s) { EdgeMismatchesIn(nodes, e, s); }
      EdgeIncreases(nodes, e);
      at := MismatchNext(nodes, edges, IoFindings(nodes, init), at, EdgeMismatches(nodes, e));
    }
  }
}
