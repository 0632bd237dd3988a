/**
  The test-case replay engine (packages/algorithm/simulation_engine.py): one start node,
  then a walk that picks an edge per node, with a cap on the number of steps.
*/
module Simulation {
  import opened Common
  import opened Graphs
  import opened PolicyModel

  type State = map<Field, Value>
  type Overrides = map<Key, Label>

  datatype Reason =
    | AwaitingHuman
    | HumanOverrideNoMatchingEdge
    | NoMatchingTestCase
    | AmbiguousTestCases
    | TestCaseCoversUnknownEdge
    | StepLimitExceeded

  datatype Status = Completed | Awaiting | Undetermined

  datatype CaseTrace = CaseTrace(
    status: Status,
    path: seq<Key>,
    terminal: Option<Key>,
    reasonCodes: seq<nat>,
    reason: Option<Reason>,
    finalState: State
  )

  /** The exceptions a run can end in. */
  datatype RunError = NotOneStartNode | UnknownNode(key: Key)

  datatype RunResult = Traced(trace: CaseTrace) | Raised(error: RunError)

  // ----- Adjacency and the start node -----

  function OutEdges(edges: seq<PolicyEdge>, k: Key): seq<PolicyEdge> {
    if edges == [] then []
    else
      var e := edges[|edges| - 1];
      OutEdges(edges[..|edges| - 1], k) + (if e.from == k then [e] else [])
  }

  lemma {:induction false} OutEdgesIn(edges: seq<PolicyEdge>, k: Key, e: PolicyEdge)
    ensures e in OutEdges(edges, k) <==> e in edges && e.from == k
  {
    if edges != [] {
      OutEdgesIn(edges[..|edges| - 1], k, e);
      assert e in edges <==> e in edges[..|edges| - 1] || e == edges[|edges| - 1];
    }
  }

  function Outgoing(adj: map<Key, seq<PolicyEdge>>, k: Key): seq<PolicyEdge> {
    if k in adj then adj[k] else []
  }

  method BuildOutAdjacency(nodes: seq<Node>, edges: seq<PolicyEdge>) returns (adj: map<Key, seq<PolicyEdge>>)
    ensures forall k :: Outgoing(adj, k) == OutEdges(edges, k)
  {
    adj := map k | k in Keys(nodes) :: [];
    for i := 0 to |edges|
      invariant forall k :: Outgoing(adj, k) == OutEdges(edges[..i], k)
    {
      var e := edges[i];
      assert edges[..i + 1][..i] == edges[..i];
      adj := adj[e.from := Outgoing(adj, e.from) + [e]];
    }
    assert edges[..|edges|] == edges;
  }

  ghost predicate HasIncoming(nodes: seq<Node>, edges: seq<PolicyEdge>, k: Key) {
    || (exists e :: e in edges && e.to == k)
    || (exists n :: n in nodes && n.fallback == Some(k))
  }

  /** The nodes nothing points at, by edge or fallback. */
  ghost function StartNodes(nodes: seq<Node>, edges: seq<PolicyEdge>): set<Key> {
    set k | k in Keys(nodes) && !HasIncoming(nodes, edges, k)
  }

  ghost predicate EdgeInto(edges: seq<PolicyEdge>, i: int, k: Key) {
    exists j :: 0 <= j < i && j < |edges| && edges[j].to == k
  }

  ghost predicate FallbackInto(nodes: seq<Node>, i: int, k: Key) {
    exists j :: 0 <= j < i && j < |nodes| && nodes[j].fallback == Some(k)
  }

  method CountIncoming(nodes: seq<Node>, edges: seq<PolicyEdge>) returns (incoming: map<Key, nat>)
    ensures incoming.Keys == Keys(nodes)
    ensures forall k :: k in incoming ==>
              (incoming[k] > 0 <==> EdgeInto(edges, |edges|, k) || FallbackInto(nodes, |nodes|, k))
  {
    incoming := map k | k in Keys(nodes) :: 0;
    for i := 0 to |edges|
      invariant incoming.Keys == Keys(nodes)
      invariant forall k :: k in incoming ==> (incoming[k] > 0 <==> EdgeInto(edges, i, k))
    {
      var t := edges[i].to;
      forall k: Key ensures EdgeInto(edges, i + 1, k) <==> EdgeInto(edges, i, k) || k == t {
        if k == t { assert edges[i].to == k; }
      }
      if t in incoming {
        incoming := incoming[t := incoming[t] + 1];
      }
    }
    for i := 0 to |nodes|
      invariant incoming.Keys == Keys(nodes)
      invariant forall k :: k in incoming ==>
                  (incoming[k] > 0 <==> EdgeInto(edges, |edges|, k) || FallbackInto(nodes, i, k))
    {
      var f := nodes[i].fallback;
      forall k: Key ensures FallbackInto(nodes, i + 1, k) <==> FallbackInto(nodes, i, k) || f == Some(k) {
        if f == Some(k) { assert nodes[i].fallback == Some(k); }
      }
      if f.Some? && f.value in incoming {
        incoming := incoming[f.value := incoming[f.value] + 1];
      }
    }
  }

  method FindStartNode(nodes: seq<Node>, edges: seq<PolicyEdge>) returns (start: Option<Key>)
    ensures start == None <==> |StartNodes(nodes, edges)| != 1
    ensures start.Some? ==> StartNodes(nodes, edges) == {start.value}
  {
    var incoming := CountIncoming(nodes, edges);
    var starts := set k | k in incoming && incoming[k] == 0;
    forall k ensures k in starts <==> k in StartNodes(nodes, edges) {
      assert (exists e :: e in edges && e.to == k) <==> EdgeInto(edges, |edges|, k);
      assert (exists n :: n in nodes && n.fallback == Some(k)) <==> FallbackInto(nodes, |nodes|, k);
    }
    assert starts == StartNodes(nodes, edges);
    if |starts| != 1 {
      return None;
    }
    SingleElement(starts);
    var s :| starts == {s};
    start := Some(s);
  }

  lemma {:induction false} SingleElement(s: set<Key>)
    requires |s| == 1
    ensures exists x :: s == {x}
  {
    var x :| x in s;
    SubsetCard({x}, s);
  }

  // ----- Choosing the next edge -----

  predicate InputMatches(input: State, state: State) {
    forall k :: k in input ==> k in state && state[k] == input[k]
  }

  function Matching(cases: seq<TestCase>, state: State): seq<TestCase> {
    if cases == [] then []
    else
      var tc := cases[|cases| - 1];
      Matching(cases[..|cases| - 1], state)
      + (if tc.input.Some? && InputMatches(tc.input.value, state) then [tc] else [])
  }

  method MatchingTestCases(node: Node, state: State) returns (matches: seq<TestCase>)
    ensures matches == Matching(node.testCases, state)
  {
    matches := [];
    for i := 0 to |node.testCases|
      invariant matches == Matching(node.testCases[..i], state)
    {
      var tc := node.testCases[i];
      assert node.testCases[..i + 1][..i] == node.testCases[..i];
      if tc.input.Some? && InputMatches(tc.input.value, state) {
        matches := matches + [tc];
      }
    }
    assert node.testCases[..|node.testCases|] == node.testCases;
  }

  /** The edges carrying a condition, in list order. */
  function Labelled(edges: seq<PolicyEdge>, condition: Option<Label>): seq<PolicyEdge> {
    if edges == [] then []
    else (if edges[0].condition == condition then [edges[0]] else []) + Labelled(edges[1..], condition)
  }

  lemma {:induction false} LabelledIn(edges: seq<PolicyEdge>, condition: Option<Label>, e: PolicyEdge)
    ensures e in Labelled(edges, condition) <==> e in edges && e.condition == condition
  {
    if edges != [] {
      LabelledIn(edges[1..], condition, e);
      assert e in edges <==> e == edges[0] || e in edges[1..];
    }
  }

  datatype Choice = Take(edge: PolicyEdge, output: Option<State>) | Stop(reason: Reason)

  /** A lone unconditional edge first, then a human override, then the matching test cases. */
  function Choose(node: Node, outgoing: seq<PolicyEdge>, matches: seq<TestCase>, overrides: Overrides): Choice {
    if |outgoing| == 1 && outgoing[0].condition == None then
      Take(outgoing[0], if |matches| == 1 then matches[0].expectedOutput else None)
    else if node.nodeType == Human && node.key in overrides then
      var matched := Labelled(outgoing, Some(overrides[node.key]));
      if matched == [] then Stop(HumanOverrideNoMatchingEdge) else Take(matched[0], None)
    else
      var labels := set tc | tc in matches :: tc.covers;
      if matches == [] then Stop(if node.nodeType == Human then AwaitingHuman else NoMatchingTestCase)
      else if |labels| > 1 then Stop(AmbiguousTestCases)
      else
        // all matches cover the same label, so the first one wins
        var matched := Labelled(outgoing, matches[0].covers);
        if matched == [] then Stop(TestCaseCoversUnknownEdge) else Take(matched[0], matches[0].expectedOutput)
  }

  method SelectNextEdge(node: Node, outgoing: seq<PolicyEdge>, state: State, overrides: Overrides) returns (c: Choice)
    ensures c == Choose(node, outgoing, Matching(node.testCases, state), overrides)
  {
    var matches := MatchingTestCases(node, state);
    c := Choose(node, outgoing, matches, overrides);
  }

  function Merge(state: State, output: Option<State>): State {
    if output.Some? then state + output.value else state
  }

  lemma {:induction false} ChosenEdge(node: Node, outgoing: seq<PolicyEdge>, matches: seq<TestCase>,
                                      overrides: Overrides)
    requires Choose(node, outgoing, matches, overrides).Take?
    ensures Choose(node, outgoing, matches, overrides).edge in outgoing
  {
    var e := Choose(node, outgoing, matches, overrides).edge;
    LabelledIn(outgoing, e.condition, e);
    if node.nodeType == Human && node.key in overrides {
      LabelledIn(outgoing, Some(overrides[node.key]), e);
    }
    if matches != [] {
      LabelledIn(outgoing, matches[0].covers, e);
    }
  }

  /** What the case declares about taking `e`: the only edge, without a condition; else the
      label a person answered with; else the label every matching test case covers. */
  ghost predicate Grounded(node: Node, outgoing: seq<PolicyEdge>, matches: seq<TestCase>, overrides: Overrides,
                           e: PolicyEdge) {
    if |outgoing| == 1 && outgoing[0].condition == None then true
    else if node.nodeType == Human && node.key in overrides then e.condition == Some(overrides[node.key])
    else matches != [] && forall tc :: tc in matches ==> tc.covers == e.condition
  }

  ghost predicate FirstGrounded(node: Node, outgoing: seq<PolicyEdge>, matches: seq<TestCase>, overrides: Overrides,
                                i: nat) {
    && i < |outgoing| && Grounded(node, outgoing, matches, overrides, outgoing[i])
    && forall j :: 0 <= j < i ==> !Grounded(node, outgoing, matches, overrides, outgoing[j])
  }

  lemma {:induction false} LabelledFirst(edges: seq<PolicyEdge>, condition: Option<Label>) returns (i: nat)
    requires Labelled(edges, condition) != []
    ensures i < |edges| && edges[i].condition == condition && edges[i] == Labelled(edges, condition)[0]
    ensures forall j :: 0 <= j < i ==> edges[j].condition != condition
  {
    i := 0;
    if edges[0].condition != condition {
      i := LabelledFirst(edges[1..], condition);
      i := i + 1;
    }
  }

  lemma {:induction false} OneLabel(matches: seq<TestCase>)
    requires matches != []
    ensures |set tc | tc in matches :: tc.covers| > 1 <==> exists tc :: tc in matches && tc.covers != matches[0].covers
  {
    var labels := set tc | tc in matches :: tc.covers;
    assert matches[0].covers in labels;
    if tc :| tc in matches && tc.covers != matches[0].covers {
      SubsetCard({tc.covers, matches[0].covers}, labels);
    } else {
      assert labels == {matches[0].covers};
    }
  }

  /** Nothing is guessed: the first edge with a declared ground is taken, and the walk stops
      exactly where no edge has one. */
  lemma {:induction false} NothingIsGuessed(node: Node, outgoing: seq<PolicyEdge>, matches: seq<TestCase>,
                                            overrides: Overrides)
    ensures match Choose(node, outgoing, matches, overrides)
            case Take(e, _) => exists i: nat :: FirstGrounded(node, outgoing, matches, overrides, i) && outgoing[i] == e
            case Stop(_) => forall e :: e in outgoing ==> !Grounded(node, outgoing, matches, overrides, e)
  {
    if |outgoing| == 1 && outgoing[0].condition == None {
      assert FirstGrounded(node, outgoing, matches, overrides, 0);
    } else if node.nodeType == Human && node.key in overrides {
      GroundedByLabel(node, outgoing, matches, overrides, Some(overrides[node.key]));
    } else if matches != [] {
      OneLabel(matches);
      assert matches[0] in matches;
      if forall tc :: tc in matches ==> tc.covers == matches[0].covers {
        GroundedByLabel(node, outgoing, matches, overrides, matches[0].covers);
      }
    }
  }

  /** Where one label grounds the choice, the first edge carrying it is the first grounded one. */
  lemma {:induction false} GroundedByLabel(node: Node, outgoing: seq<PolicyEdge>, matches: seq<TestCase>,
                                           overrides: Overrides, l: Option<Label>)
    requires forall e :: e in outgoing ==> (Grounded(node, outgoing, matches, overrides, e) <==> e.condition == l)
    ensures Labelled(outgoing, l) == [] ==>
              forall e :: e in outgoing ==> !Grounded(node, outgoing, matches, overrides, e)
    ensures Labelled(outgoing, l) != [] ==>
              exists i: nat ::
                FirstGrounded(node, outgoing, matches, overrides, i) && outgoing[i] == Labelled(outgoing, l)[0]
  {
    hide Grounded;
    if Labelled(outgoing, l) == [] {
      forall e | e in outgoing ensures e.condition != l { LabelledIn(outgoing, l, e); }
    } else {
      var i := LabelledFirst(outgoing, l);
      assert FirstGrounded(node, outgoing, matches, overrides, i);
    }
  }

  // ----- A whole run -----

  /** What one loop iteration does in node `current`. */
  datatype Move =
    | Fault
    | Finish(status: Status, reasonCodes: seq<nat>, reason: Option<Reason>)
    | Go(next: Key, state: State)

  function Advance(nodes: seq<Node>, edges: seq<PolicyEdge>, overrides: Overrides, current: Key, state: State): Move {
    if current !in Keys(nodes) then Fault
    else
      var node := NodeByKey(nodes, current);
      var outgoing := OutEdges(edges, current);
      if outgoing == [] then Finish(Completed, node.reasonCodes, None)
      else
        match Choose(node, outgoing, Matching(node.testCases, state), overrides)
        case Stop(reason) => Finish(if reason == AwaitingHuman then Awaiting else Undetermined, [], Some(reason))
        case Take(edge, output) => Go(edge.to, Merge(state, output))
  }

  /** The walk from `current` with `fuel` loop iterations left. */
  function Follow(nodes: seq<Node>, edges: seq<PolicyEdge>, overrides: Overrides,
                  current: Key, state: State, path: seq<Key>, fuel: nat): RunResult
    decreases fuel
  {
    if fuel == 0 then
      Traced(CaseTrace(Undetermined, path, None, [], Some(StepLimitExceeded), state))
    else
      match Advance(nodes, edges, overrides, current, state)
      case Fault => Raised(UnknownNode(current))
      case Finish(status, codes, reason) =>
        Traced(CaseTrace(status, path, if status == Completed then Some(current) else None, codes, reason, state))
      case Go(next, after) =>
        Follow(nodes, edges, overrides, next, after, path + [next], fuel - 1)
  }

  function StepCap(nodes: seq<Node>): nat {
    if |nodes| * 2 > 1 then |nodes| * 2 else 1
  }

  method RunCase(nodes: seq<Node>, edges: seq<PolicyEdge>, inputs: State, overrides: Overrides) returns (r: RunResult)
    ensures |StartNodes(nodes, edges)| != 1 ==> r == Raised(NotOneStartNode)
    ensures forall s :: StartNodes(nodes, edges) == {s} ==>
              r == Follow(nodes, edges, overrides, s, inputs, [s], StepCap(nodes))
  {
    hide OutEdges, Matching, Choose, StartNodes;
    var adj := BuildOutAdjacency(nodes, edges);
    var start := FindStartNode(nodes, edges);
    if start == None {
      return Raised(NotOneStartNode);
    }
    var current := start.value;
    assert forall s :: StartNodes(nodes, edges) == {s} ==> s in {current};
    var state := inputs;
    var path := [current];
    ghost var whole := Follow(nodes, edges, overrides, current, state, path, StepCap(nodes));
    for i := 0 to StepCap(nodes)
      invariant whole == Follow(nodes, edges, overrides, current, state, path, StepCap(nodes) - i)
    {
      if current !in Keys(nodes) {
        return Raised(UnknownNode(current));
      }
      var node := NodeByKey(nodes, current);
      var outgoing := Outgoing(adj, current);
      if outgoing == [] {
        return Traced(CaseTrace(Completed, path, Some(current), node.reasonCodes, None, state));
      }
      var choice := SelectNextEdge(node, outgoing, state, overrides);
      if choice.Stop? {
        var status := if choice.reason == AwaitingHuman then Awaiting else Undetermined;
        return Traced(CaseTrace(status, path, None, [], Some(choice.reason), state));
      }
      state := Merge(state, choice.output);
      current := choice.edge.to;
      path := path + [current];
    }
    r := Traced(CaseTrace(Undetermined, path, None, [], Some(StepLimitExceeded), state));
  }
}
