/**
  Branch coverage of rule nodes by their test cases, and the whole validation
  (packages/algorithm/policy_validator.py:255-295).
*/
module BranchCoverage {
  import opened Common
  import opened Graphs
  import opened PolicyModel
  import opened PolicyValidator
  import opened Simulation

  datatype CoverageIssue = NoTestCases(key: Key) | UncoveredBranch(key: Key, branch: Label)

  /** The labels of the edges that count as branches. */
  function BranchLabels(outgoing: seq<PolicyEdge>): set<Label> {
    set e | e in outgoing && e.condition.Some? && e.condition.value != EMPTY_LABEL :: e.condition.value
  }

  function CoveredLabels(cases: seq<TestCase>): set<Label> {
    set tc | tc in cases && tc.covers.Some? :: tc.covers.value
  }

  function Uncovered(key: Key, labels: seq<Label>): (r: seq<CoverageIssue>)
    ensures |r| == |labels| && forall i :: 0 <= i < |r| ==> r[i] == UncoveredBranch(key, labels[i])
  {
    seq(|labels|, i requires 0 <= i < |labels| => UncoveredBranch(key, labels[i]))
  }

  function CoverageAt(n: Node, edges: seq<PolicyEdge>): seq<CoverageIssue> {
    var outgoing := OutEdges(edges, n.key);
    if n.nodeType != NodeType.Rule || outgoing == [] then []
    else if n.testCases == [] then [NoTestCases(n.key)]
    else Uncovered(n.key, Sorted(BranchLabels(outgoing) - CoveredLabels(n.testCases)))
  }

  /** The findings of each node in turn. */
  function CoverageFindings(nodes: seq<Node>, edges: seq<PolicyEdge>): seq<CoverageIssue> {
    if nodes == [] then []
    else CoverageFindings(nodes[..|nodes| - 1], edges) + CoverageAt(nodes[|nodes| - 1], edges)
  }

  method CheckBranchCoverage(nodes: seq<Node>, edges: seq<PolicyEdge>) returns (issues: seq<CoverageIssue>)
    ensures issues == CoverageFindings(nodes, edges)
    ensures issues == [] <==> forall n :: n in nodes ==> NodeCovered(n, edges)
  {
    var edgesByFrom := BuildOutAdjacency([], edges);
    issues := [];
    for i := 0 to |nodes|
      invariant issues == CoverageFindings(nodes[..i], edges)
    {
      var node := nodes[i];
      assert nodes[..i + 1][..i] == nodes[..i];
      if node.nodeType == NodeType.Rule {
        var outgoing := Outgoing(edgesByFrom, node.key);
        if outgoing != [] {
          if node.testCases == [] {
            issues := issues + [NoTestCases(node.key)];
          } else {
            issues := issues
              + Uncovered(node.key, Sorted(BranchLabels(outgoing) - CoveredLabels(node.testCases)));
          }
        }
      }
    }
    assert nodes[..|nodes|] == nodes;
    CoverageMeaning(nodes, edges);
  }

  /** A rule with branches has a test case, and one for each labelled branch. */
  ghost predicate NodeCovered(n: Node, edges: seq<PolicyEdge>) {
    n.nodeType == NodeType.Rule && (exists e :: e in edges && e.from == n.key) ==>
      && n.testCases != []
      && forall e :: e in edges && e.from == n.key && e.condition.Some? && e.condition.value != EMPTY_LABEL ==>
           exists tc :: tc in n.testCases && tc.covers == e.condition
  }

  lemma {:induction false} NodeMeaning(n: Node, edges: seq<PolicyEdge>)
    ensures CoverageAt(n, edges) == [] <==> NodeCovered(n, edges)
  {
    var outgoing := OutEdges(edges, n.key);
    forall e ensures e in outgoing <==> e in edges && e.from == n.key { OutEdgesIn(edges, n.key, e); }
    if outgoing != [] { assert outgoing[0] in edges; }
    var missing := BranchLabels(outgoing) - CoveredLabels(n.testCases);
    SortedElements(missing);
    assert |Sorted(missing)| == 0 <==> missing == {};
    assert missing == {} <==> forall e :: e in outgoing && e.condition.Some? && e.condition.value != EMPTY_LABEL ==>
      exists tc :: tc in n.testCases && tc.covers == e.condition by {
      if e :| e in outgoing && e.condition.Some? && e.condition.value != EMPTY_LABEL
              && !exists tc :: tc in n.testCases && tc.covers == e.condition {
        assert e.condition.value in missing;
      }
      if missing != {} {
        var l :| l in missing;
        var e :| e in outgoing && e.condition == Some(l);
      }
    }
  }

  lemma {:induction false} CoverageMeaning(nodes: seq<Node>, edges: seq<PolicyEdge>)
    ensures CoverageFindings(nodes, edges) == [] <==> forall n :: n in nodes ==> NodeCovered(n, edges)
  {
    hide NodeCovered, CoverageAt;
    if nodes != [] {
      var init, last := nodes[..|nodes| - 1], nodes[|nodes| - 1];
      CoverageMeaning(init, edges);
      NodeMeaning(last, edges);
      assert forall n :: n in nodes <==> n in init || n == last;
    }
  }

  ghost predicate BranchAt(edges: seq<PolicyEdge>, k: Key, l: Label) {
    l != EMPTY_LABEL && exists e :: e in edges && e.from == k && e.condition == Some(l)
  }

  /** When a coverage finding is due for a node. */
  ghost predicate FoundAt(n: Node, edges: seq<PolicyEdge>, s: CoverageIssue) {
    n.key == s.key && n.nodeType == NodeType.Rule &&
    match s
    case NoTestCases(k) => n.testCases == [] && exists e :: e in edges && e.from == k
    case UncoveredBranch(k, l) =>
      n.testCases != [] && BranchAt(edges, k, l) && forall tc :: tc in n.testCases ==> tc.covers != Some(l)
  }

  lemma {:induction false} UncoveredIn(k: Key, labels: set<Label>, s: CoverageIssue)
    ensures s in Uncovered(k, Sorted(labels)) <==> s.UncoveredBranch? && s.key == k && s.branch in labels
  {
    SortedElements(labels);
    if s.UncoveredBranch? && s.key == k && s.branch in labels {
      var i :| 0 <= i < |Sorted(labels)| && Sorted(labels)[i] == s.branch;
      assert Uncovered(k, Sorted(labels))[i] == s;
    }
    if s in Uncovered(k, Sorted(labels)) {
      var i :| 0 <= i < |Sorted(labels)| && Uncovered(k, Sorted(labels))[i] == s;
      assert Sorted(labels)[i] in Sorted(labels);
    }
  }

  lemma {:induction false} CoverageAtIff(n: Node, edges: seq<PolicyEdge>, s: CoverageIssue)
    ensures s in CoverageAt(n, edges) <==> FoundAt(n, edges, s)
  {
    var outgoing := OutEdges(edges, n.key);
    forall e ensures e in outgoing <==> e in edges && e.from == n.key { OutEdgesIn(edges, n.key, e); }
    if outgoing != [] { assert outgoing[0] in edges; }
    var missing := BranchLabels(outgoing) - CoveredLabels(n.testCases);
    UncoveredIn(n.key, missing, s);
    hide OutEdges, Sorted, Uncovered;
    if s.UncoveredBranch? && s.key == n.key {
      assert s.branch in BranchLabels(outgoing) <==> BranchAt(edges, n.key, s.branch);
    }
  }

  /** A coverage finding is made exactly when it is due. */
  lemma {:induction false} CoverageIff(nodes: seq<Node>, edges: seq<PolicyEdge>, s: CoverageIssue)
    ensures s in CoverageFindings(nodes, edges) <==> exists n :: n in nodes && FoundAt(n, edges, s)
  {
    hide FoundAt, CoverageAt;
    if nodes != [] {
      var init, last := nodes[..|nodes| - 1], nodes[|nodes| - 1];
      CoverageIff(init, edges, s);
      CoverageAtIff(last, edges, s);
      assert forall n :: n in nodes <==> n in init || n == last;
    }
  }

  /** What `validate_graph` without findings says. */
  ghost predicate ValidGraph(nodes: seq<Node>, edges: seq<PolicyEdge>) {
    CleanStructure(nodes, edges) && forall n :: n in nodes ==> NodeCovered(n, edges)
  }

  /** `validate_graph`: no finding of either kind exactly for a valid graph. */
  method ValidateGraph(nodes: seq<Node>, edges: seq<PolicyEdge>)
    returns (structure: seq<Issue>, coverage: seq<CoverageIssue>)
    ensures forall s :: s in structure <==> Finding(nodes, edges, s)
    ensures coverage == CoverageFindings(nodes, edges)
    ensures structure == [] && coverage == [] <==> ValidGraph(nodes, edges)
  {
    hide CleanStructure, NodeCovered, CoverageFindings, Finding;
    ghost var comps;
    structure, comps := ValidateGraphStructure(nodes, edges);
    coverage := CheckBranchCoverage(nodes, edges);
  }
}
