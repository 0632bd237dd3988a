/**
  What a replay does, in terms of the listed edges and test cases alone: which edge it takes at
  each node, which expected output it applies, what its state is, and why it stops
  (packages/algorithm/simulation_engine.py).
*/
module ReplayMeaning {
  import opened Common
  import opened Graphs
  import opened PolicyModel
  import opened Simulation

  // ----- One node -----

  /** The `i`-th edge of the list leaves `k`. */
  ghost predicate Leaves(edges: seq<PolicyEdge>, i: nat, k: Key) {
    i < |edges| && edges[i].from == k
  }

  /** It is the only one, and has no condition. */
  ghost predicate Lone(edges: seq<PolicyEdge>, i: nat, k: Key) {
    Leaves(edges, i, k) && edges[i].condition == None && forall j: nat :: Leaves(edges, j, k) ==> j == i
  }

  ghost predicate HasLone(edges: seq<PolicyEdge>, k: Key) {
    exists i: nat :: Lone(edges, i, k)
  }

  ghost predicate Carrying(edges: seq<PolicyEdge>, i: nat, k: Key, condition: Option<Label>) {
    Leaves(edges, i, k) && edges[i].condition == condition
  }

  /** The first edge out of `k` with a label. */
  ghost predicate FirstCarrying(edges: seq<PolicyEdge>, i: nat, k: Key, condition: Option<Label>) {
    Carrying(edges, i, k, condition) && forall j: nat :: Carrying(edges, j, k, condition) ==> i <= j
  }

  /** The `j`-th test case of the node has an input that the state contains. */
  ghost predicate Met(n: Node, state: State, j: nat) {
    && j < |n.testCases| && n.testCases[j].input.Some?
    && forall f :: f in n.testCases[j].input.value ==>
                     f in state && state[f] == n.testCases[j].input.value[f]
  }

  ghost predicate NoneMet(n: Node, state: State) {
    forall j: nat :: !Met(n, state, j)
  }

  ghost predicate OnlyMet(n: Node, state: State, j: nat) {
    Met(n, state, j) && forall h: nat :: Met(n, state, h) ==> h == j
  }

  ghost predicate FirstMet(n: Node, state: State, j: nat) {
    Met(n, state, j) && forall h: nat :: Met(n, state, h) ==> j <= h
  }

  /** All the test cases that are met cover `condition`. */
  ghost predicate Agreed(n: Node, state: State, condition: Option<Label>) {
    forall j: nat :: Met(n, state, j) ==> n.testCases[j].covers == condition
  }

  /** A person has answered for this node. */
  ghost predicate Answered(n: Node, overrides: Overrides) {
    n.nodeType == Human && n.key in overrides
  }

  /** From `k` the replay goes on to `next`, applying `output`: along a lone unconditional edge,
      with the output of the only test case that is met; else along the first edge with a
      person's answer, applying none; else along the first edge with the condition all met test
      cases agree on, with the output of the first of them. */
  ghost predicate Took(nodes: seq<Node>, edges: seq<PolicyEdge>, overrides: Overrides, k: Key, state: State,
                       next: Key, output: Option<State>) {
    k in Keys(nodes) &&
    var n := NodeByKey(nodes, k);
    if HasLone(edges, k) then
      && (exists i: nat :: Lone(edges, i, k) && next == edges[i].to)
      && (forall j: nat :: OnlyMet(n, state, j) ==> output == n.testCases[j].expectedOutput)
      && ((forall j: nat :: !OnlyMet(n, state, j)) ==> output == None)
    else if Answered(n, overrides) then
      && (exists i: nat :: FirstCarrying(edges, i, k, Some(overrides[n.key])) && next == edges[i].to)
      && output == None
    else
      exists i: nat, j: nat ::
        && FirstMet(n, state, j) && Agreed(n, state, n.testCases[j].covers)
        && FirstCarrying(edges, i, k, n.testCases[j].covers) && next == edges[i].to
        && output == n.testCases[j].expectedOutput
  }

  /** At `k`, which edges leave, the replay stops for `reason`. */
  ghost predicate Stopped(nodes: seq<Node>, edges: seq<PolicyEdge>, overrides: Overrides, k: Key, state: State,
                          reason: Reason) {
    k in Keys(nodes) && (exists i: nat :: Leaves(edges, i, k)) && !HasLone(edges, k) &&
    var n := NodeByKey(nodes, k);
    match reason
    case HumanOverrideNoMatchingEdge =>
      Answered(n, overrides) && forall i: nat :: !Carrying(edges, i, k, Some(overrides[n.key]))
    case AwaitingHuman => !Answered(n, overrides) && n.nodeType == Human && NoneMet(n, state)
    case NoMatchingTestCase => n.nodeType != Human && NoneMet(n, state)
    case AmbiguousTestCases =>
      && !Answered(n, overrides)
      && exists h: nat, j: nat ::
           Met(n, state, h) && Met(n, state, j) && n.testCases[h].covers != n.testCases[j].covers
    case TestCaseCoversUnknownEdge =>
      && !Answered(n, overrides)
      && exists j: nat :: Met(n, state, j) && Agreed(n, state, n.testCases[j].covers)
           && forall i: nat :: !Carrying(edges, i, k, n.testCases[j].covers)
    case StepLimitExceeded => false
  }

  /** A replay takes one edge with one output, or stops for one reason, never both. */
  lemma {:induction false} OneWayOn(nodes: seq<Node>, edges: seq<PolicyEdge>, overrides: Overrides, k: Key,
                                    state: State)
    ensures forall a, b, o, p ::
              Took(nodes, edges, overrides, k, state, a, o) && Took(nodes, edges, overrides, k, state, b, p) ==>
                a == b && o == p
    ensures forall a, o, r ::
              Took(nodes, edges, overrides, k, state, a, o) ==> !Stopped(nodes, edges, overrides, k, state, r)
    ensures forall r, q ::
              Stopped(nodes, edges, overrides, k, state, r) && Stopped(nodes, edges, overrides, k, state, q) ==> r == q
  {
    if k in Keys(nodes) && !HasLone(edges, k) && !Answered(NodeByKey(nodes, k), overrides) {
      var n := NodeByKey(nodes, k);
      hide Met, Carrying;
    }
  }

  // ----- The state -----

  ghost predicate Writes(outputs: seq<Option<State>>, i: nat, f: Field) {
    i < |outputs| && outputs[i].Some? && f in outputs[i].value
  }

  ghost predicate LastWrite(outputs: seq<Option<State>>, i: nat, f: Field) {
    Writes(outputs, i, f) && forall j: nat :: Writes(outputs, j, f) ==> j <= i
  }

  /** The field has the value of the last applied output that has it, else that of the input. */
  ghost predicate Holds(inputs: State, outputs: seq<Option<State>>, state: State, f: Field) {
    && (forall i: nat :: LastWrite(outputs, i, f) ==> f in state && state[f] == outputs[i].value[f])
    && ((forall i: nat :: !Writes(outputs, i, f)) ==>
          (f in state <==> f in inputs) && (f in state ==> state[f] == inputs[f]))
  }

  ghost predicate StateIs(inputs: State, outputs: seq<Option<State>>, state: State) {
    forall f: Field {:trigger Holds(inputs, outputs, state, f)} :: Holds(inputs, outputs, state, f)
  }

  /** Some write of a written field is its last. */
  lemma {:induction false} LastWriteExists(outputs: seq<Option<State>>, i: nat, f: Field) returns (l: nat)
    requires Writes(outputs, i, f)
    ensures LastWrite(outputs, l, f)
    decreases |outputs| - i
  {
    if j: nat :| Writes(outputs, j, f) && j > i {
      l := LastWriteExists(outputs, j, f);
    } else {
      l := i;
    }
  }

  /** So inputs and outputs determine the state. */
  lemma {:induction false} OneState(inputs: State, outputs: seq<Option<State>>, a: State, b: State)
    requires StateIs(inputs, outputs, a) && StateIs(inputs, outputs, b)
    ensures a == b
  {
    forall f: Field ensures (f in a <==> f in b) && (f in a ==> a[f] == b[f]) {
      assert Holds(inputs, outputs, a, f) && Holds(inputs, outputs, b, f);
      if i: nat :| Writes(outputs, i, f) {
        var l := LastWriteExists(outputs, i, f);
      }
    }
  }

  lemma {:induction false} StateAtStart(inputs: State)
    ensures StateIs(inputs, [], inputs)
  {
  }

  lemma {:induction false} FieldNext(inputs: State, outputs: seq<Option<State>>, state: State, output: Option<State>,
                                     f: Field)
    requires Holds(inputs, outputs, state, f)
    ensures Holds(inputs, outputs + [output], Merge(state, output), f)
  {
    var more := outputs + [output];
    var n := |outputs|;
    assert more[n] == output;
    assert forall i: nat :: i < n ==> (Writes(more, i, f) <==> Writes(outputs, i, f));
    if output.Some? && f in output.value {
      assert Writes(more, n, f);
    } else {
      assert forall i: nat :: Writes(more, i, f) <==> Writes(outputs, i, f);
      assert forall i: nat :: LastWrite(more, i, f) ==> LastWrite(outputs, i, f);
    }
  }

  lemma {:induction false} StateNext(inputs: State, outputs: seq<Option<State>>, state: State, output: Option<State>)
    requires StateIs(inputs, outputs, state)
    ensures StateIs(inputs, outputs + [output], Merge(state, output))
  {
    forall f: Field ensures Holds(inputs, outputs + [output], Merge(state, output), f) {
      assert Holds(inputs, outputs, state, f);
      FieldNext(inputs, outputs, state, output, f);
    }
  }

  // ----- The functions of the engine in these terms -----

  lemma {:induction false} OutEdgesPicked(edges: seq<PolicyEdge>, k: Key, leaving: PolicyEdge -> bool)
    returns (at: seq<nat>)
    requires forall e :: leaving(e) <==> e.from == k
    ensures Picks(edges, OutEdges(edges, k), at, leaving)
  {
    if edges == [] {
      at := [];
    } else {
      var before := OutEdgesPicked(edges[..|edges| - 1], k, leaving);
      at := PicksNext(edges, OutEdges(edges[..|edges| - 1], k), before, leaving);
    }
  }

  lemma {:induction false} MatchingPicked(cases: seq<TestCase>, state: State, met: TestCase -> bool)
    returns (at: seq<nat>)
    requires forall tc :: met(tc) <==> tc.input.Some? && InputMatches(tc.input.value, state)
    ensures Picks(cases, Matching(cases, state), at, met)
  {
    if cases == [] {
      at := [];
    } else {
      var before := MatchingPicked(cases[..|cases| - 1], state, met);
      at := PicksNext(cases, Matching(cases[..|cases| - 1], state), before, met);
    }
  }

  /** The outgoing edges of `k` and the places where they are listed. */
  ghost predicate ListedAt(edges: seq<PolicyEdge>, k: Key, at: seq<nat>) {
    var out := OutEdges(edges, k);
    && |at| == |out| && Increasing(at)
    && (forall i :: 0 <= i < |at| ==> Leaves(edges, at[i], k) && edges[at[i]] == out[i])
    && (forall i: nat :: Leaves(edges, i, k) ==> i in at)
  }

  lemma {:induction false} OutEdgesListed(edges: seq<PolicyEdge>, k: Key) returns (at: seq<nat>)
    ensures ListedAt(edges, k, at)
  {
    var leaving := (e: PolicyEdge) => e.from == k;
    at := OutEdgesPicked(edges, k, leaving);
    forall i | 0 <= i < |at| ensures Leaves(edges, at[i], k) {
      assert at[i] in at && leaving(edges[at[i]]);
    }
  }

  ghost predicate MetAt(n: Node, state: State, at: seq<nat>) {
    var matches := Matching(n.testCases, state);
    && |at| == |matches| && Increasing(at)
    && (forall i :: 0 <= i < |at| ==> Met(n, state, at[i]) && n.testCases[at[i]] == matches[i])
    && (forall j: nat :: Met(n, state, j) ==> j in at)
  }

  lemma {:induction false} MatchingListed(n: Node, state: State) returns (at: seq<nat>)
    ensures MetAt(n, state, at)
  {
    var met := (tc: TestCase) => tc.input.Some? && InputMatches(tc.input.value, state);
    at := MatchingPicked(n.testCases, state, met);
    forall i | 0 <= i < |at| ensures Met(n, state, at[i]) {
      assert at[i] in at && met(n.testCases[at[i]]);
    }
    forall j: nat | Met(n, state, j) ensures j in at {
      assert met(n.testCases[j]);
    }
  }

  lemma {:induction false} TwoPlaces(at: seq<nat>, i: nat)
    requires Increasing(at) && |at| > 1
    ensures exists j :: j in at && j != i
  {
    var j := if at[0] == i then at[1] else at[0];
    assert j in at && j != i;
  }

  lemma {:induction false} LoneListed(edges: seq<PolicyEdge>, k: Key, at: seq<nat>)
    requires ListedAt(edges, k, at)
    ensures var out := OutEdges(edges, k);
            && (HasLone(edges, k) <==> |out| == 1 && out[0].condition == None)
            && (HasLone(edges, k) ==> Lone(edges, at[0], k))
  {
    hide OutEdges;
    var out := OutEdges(edges, k);
    if |out| == 1 && out[0].condition == None {
      assert Lone(edges, at[0], k);
    }
    if i: nat :| Lone(edges, i, k) {
      if |at| > 1 { TwoPlaces(at, i); }
    }
  }

  /** The first outgoing edge with a condition. */
  lemma {:induction false} LabelledListed(edges: seq<PolicyEdge>, k: Key, at: seq<nat>, condition: Option<Label>)
    requires ListedAt(edges, k, at)
    ensures var carrying := Labelled(OutEdges(edges, k), condition);
            && (carrying == [] ==> forall i: nat :: !Carrying(edges, i, k, condition))
            && (carrying != [] ==> exists i: nat :: FirstCarrying(edges, i, k, condition) && edges[i] == carrying[0])
  {
    hide OutEdges, Labelled;
    var out := OutEdges(edges, k);
    if Labelled(out, condition) == [] {
      forall i: nat ensures !Carrying(edges, i, k, condition) {
        if Carrying(edges, i, k, condition) {
          var j :| 0 <= j < |at| && at[j] == i;
          LabelledIn(out, condition, out[j]);
        }
      }
    } else {
      var j := LabelledFirst(out, condition);
      forall h: nat | Carrying(edges, h, k, condition) ensures at[j] <= h {
        var i :| 0 <= i < |at| && at[i] == h;
        assert i >= j;
      }
      assert Leaves(edges, at[j], k) && FirstCarrying(edges, at[j], k, condition);
    }
  }

  /** Here the walk ends: no edge leaves, or it stops for a reason. */
  ghost predicate EndsHere(nodes: seq<Node>, edges: seq<PolicyEdge>, overrides: Overrides, k: Key, state: State,
                           status: Status, reasonCodes: seq<nat>, reason: Option<Reason>) {
    k in Keys(nodes) &&
    if forall i: nat :: !Leaves(edges, i, k) then
      status == Completed && reasonCodes == NodeByKey(nodes, k).reasonCodes && reason == None
    else
      && reason.Some? && Stopped(nodes, edges, overrides, k, state, reason.value)
      && reasonCodes == [] && status == (if reason.value == AwaitingHuman then Awaiting else Undetermined)
  }

  /** The test cases that are met, seen through the list of them. */
  lemma {:induction false} MetMeaning(n: Node, state: State, at: seq<nat>)
    requires MetAt(n, state, at)
    ensures var matches := Matching(n.testCases, state);
            && (matches == [] <==> NoneMet(n, state))
            && (matches != [] ==> FirstMet(n, state, at[0]) && n.testCases[at[0]] == matches[0])
            && (|matches| == 1 <==> exists j: nat :: OnlyMet(n, state, j))
            && (|matches| == 1 ==> OnlyMet(n, state, at[0]))
            && (matches != [] ==>
                  (Agreed(n, state, matches[0].covers) <==>
                   forall tc :: tc in matches ==> tc.covers == matches[0].covers))
  {
    hide Matching;
    var matches := Matching(n.testCases, state);
    if matches != [] {
      assert Met(n, state, at[0]);
      if Agreed(n, state, matches[0].covers) {
        forall tc | tc in matches ensures tc.covers == matches[0].covers {
          var i :| 0 <= i < |matches| && matches[i] == tc;
          assert Met(n, state, at[i]);
        }
      }
      if forall tc :: tc in matches ==> tc.covers == matches[0].covers {
        forall j: nat | Met(n, state, j) ensures n.testCases[j].covers == matches[0].covers {
          var i :| 0 <= i < |at| && at[i] == j;
          assert matches[i] in matches;
        }
      }
    }
    if |matches| == 1 { assert OnlyMet(n, state, at[0]); }
    if j: nat :| OnlyMet(n, state, j) {
      if |matches| > 1 { TwoPlaces(at, j); }
    }
  }

  lemma {:induction false} ChooseLone(n: Node, edges: seq<PolicyEdge>, state: State, overrides: Overrides)
    requires HasLone(edges, n.key)
    ensures var c := Choose(n, OutEdges(edges, n.key), Matching(n.testCases, state), overrides);
            && c.Take? && (exists i: nat :: Lone(edges, i, n.key) && c.edge == edges[i])
            && (forall j: nat :: OnlyMet(n, state, j) ==> c.output == n.testCases[j].expectedOutput)
            && ((forall j: nat :: !OnlyMet(n, state, j)) ==> c.output == None)
  {
    var at := OutEdgesListed(edges, n.key);
    LoneListed(edges, n.key, at);
    var mt := MatchingListed(n, state);
    MetMeaning(n, state, mt);
    hide OutEdges, Matching, Labelled, Met;
  }

  lemma {:induction false} ChooseAnswered(n: Node, edges: seq<PolicyEdge>, state: State, overrides: Overrides)
    requires !HasLone(edges, n.key) && Answered(n, overrides)
    ensures var c := Choose(n, OutEdges(edges, n.key), Matching(n.testCases, state), overrides);
            var answer := Some(overrides[n.key]);
            match c
            case Take(e, o) => o == None && exists i: nat :: FirstCarrying(edges, i, n.key, answer) && edges[i] == e
            case Stop(r) => r == HumanOverrideNoMatchingEdge && forall i: nat :: !Carrying(edges, i, n.key, answer)
  {
    var at := OutEdgesListed(edges, n.key);
    LoneListed(edges, n.key, at);
    LabelledListed(edges, n.key, at, Some(overrides[n.key]));
    hide OutEdges, Matching, Labelled, FirstCarrying, Carrying;
  }

  /** What the test cases decide. */
  ghost predicate ByCases(n: Node, edges: seq<PolicyEdge>, state: State, c: Choice) {
    match c
    case Take(e, o) =>
      exists i: nat, j: nat ::
        && FirstMet(n, state, j) && Agreed(n, state, n.testCases[j].covers)
        && FirstCarrying(edges, i, n.key, n.testCases[j].covers) && edges[i] == e
        && o == n.testCases[j].expectedOutput
    case Stop(AwaitingHuman) => n.nodeType == Human && NoneMet(n, state)
    case Stop(NoMatchingTestCase) => n.nodeType != Human && NoneMet(n, state)
    case Stop(AmbiguousTestCases) =>
      exists h: nat, j: nat ::
        Met(n, state, h) && Met(n, state, j) && n.testCases[h].covers != n.testCases[j].covers
    case Stop(TestCaseCoversUnknownEdge) =>
      exists j: nat :: Met(n, state, j) && Agreed(n, state, n.testCases[j].covers)
        && forall i: nat :: !Carrying(edges, i, n.key, n.testCases[j].covers)
    case Stop(_) => false
  }

  lemma {:induction false} AmbiguousMeaning(n: Node, state: State, mt: seq<nat>, tc: TestCase)
    requires MetAt(n, state, mt) && tc in Matching(n.testCases, state)
    requires tc.covers != Matching(n.testCases, state)[0].covers
    ensures exists h: nat, j: nat ::
              Met(n, state, h) && Met(n, state, j) && n.testCases[h].covers != n.testCases[j].covers
  {
    hide Matching;
    var matches := Matching(n.testCases, state);
    var i :| 0 <= i < |matches| && matches[i] == tc;
    assert Met(n, state, mt[i]) && Met(n, state, mt[0]);
    assert n.testCases[mt[i]].covers != n.testCases[mt[0]].covers;
  }

  lemma {:induction false} ChooseByCases(n: Node, edges: seq<PolicyEdge>, state: State, overrides: Overrides)
    requires !HasLone(edges, n.key) && !Answered(n, overrides)
    ensures ByCases(n, edges, state, Choose(n, OutEdges(edges, n.key), Matching(n.testCases, state), overrides))
  {
    hide OutEdges, Matching, Labelled, FirstCarrying, Carrying, Agreed, ListedAt;
    var at := OutEdgesListed(edges, n.key);
    LoneListed(edges, n.key, at);
    var mt := MatchingListed(n, state);
    MetMeaning(n, state, mt);
    var matches := Matching(n.testCases, state);
    if matches != [] {
      OneLabel(matches);
      if tc :| tc in matches && tc.covers != matches[0].covers {
        AmbiguousMeaning(n, state, mt, tc);
      } else {
        LabelledListed(edges, n.key, at, matches[0].covers);
      }
    }
  }

  /** One iteration of the replay loop. */
  lemma {:induction false} AdvanceMeaning(nodes: seq<Node>, edges: seq<PolicyEdge>, overrides: Overrides, k: Key,
                                          state: State)
    ensures match Advance(nodes, edges, overrides, k, state)
            case Fault => k !in Keys(nodes)
            case Finish(status, codes, reason) =>
              EndsHere(nodes, edges, overrides, k, state, status, codes, reason)
            case Go(next, after) =>
              exists output :: Took(nodes, edges, overrides, k, state, next, output) && after == Merge(state, output)
  {
    hide OutEdges, Matching, Choose, NodeByKey, Merge, Lone, FirstMet, Agreed, FirstCarrying, Carrying, Met, OnlyMet;
    if k in Keys(nodes) {
      var n := NodeByKey(nodes, k);
      var at := OutEdgesListed(edges, k);
      if at != [] { assert Leaves(edges, at[0], k); }
      assert OutEdges(edges, k) == [] <==> forall i: nat :: !Leaves(edges, i, k);
      var c := Choose(n, OutEdges(edges, k), Matching(n.testCases, state), overrides);
      if HasLone(edges, k) {
        ChooseLone(n, edges, state, overrides);
      } else if Answered(n, overrides) {
        ChooseAnswered(n, edges, state, overrides);
      } else {
        ChooseByCases(n, edges, state, overrides);
      }
      if c.Take? { assert Took(nodes, edges, overrides, k, state, c.edge.to, c.output); }
      if c.Stop? && OutEdges(edges, k) != [] { assert Stopped(nodes, edges, overrides, k, state, c.reason); }
    }
  }

  // ----- A whole replay -----

  /** The nodes visited, the outputs applied on leaving them, and the states they were met in. */
  datatype Replay = Replay(path: seq<Key>, outputs: seq<Option<State>>, states: seq<State>)

  ghost predicate StepAt(nodes: seq<Node>, edges: seq<PolicyEdge>, overrides: Overrides, w: Replay, i: nat)
    requires |w.path| == |w.states| == |w.outputs| + 1
  {
    i < |w.outputs| ==> Took(nodes, edges, overrides, w.path[i], w.states[i], w.path[i + 1], w.outputs[i])
  }

  /** Each state follows from the inputs and the outputs before it, and each step is the one
      the case declares. */
  ghost predicate Replays(nodes: seq<Node>, edges: seq<PolicyEdge>, overrides: Overrides, inputs: State, s: Key,
                          w: Replay) {
    && |w.path| == |w.states| == |w.outputs| + 1 && w.path[0] == s
    && (forall i: nat :: i < |w.states| ==> StateIs(inputs, w.outputs[..i], w.states[i]))
    && (forall i: nat {:trigger StepAt(nodes, edges, overrides, w, i)} :: StepAt(nodes, edges, overrides, w, i))
  }

  /** What a result says of the replay behind it. */
  ghost predicate Reported(nodes: seq<Node>, edges: seq<PolicyEdge>, overrides: Overrides, w: Replay, limit: nat,
                           r: RunResult)
    requires |w.path| == |w.states| > 0
  {
    var n := |w.path| - 1;
    match r
    case Raised(e) => e == UnknownNode(w.path[n]) && w.path[n] !in Keys(nodes) && n < limit
    case Traced(t) =>
      && t.path == w.path && t.finalState == w.states[n]
      && t.terminal == (if t.status == Completed then Some(w.path[n]) else None)
      && if n < limit then
           EndsHere(nodes, edges, overrides, w.path[n], w.states[n], t.status, t.reasonCodes, t.reason)
         else
           n == limit && t.status == Undetermined && t.reasonCodes == [] && t.reason == Some(StepLimitExceeded)
  }

  lemma {:induction false} ReplayGrows(nodes: seq<Node>, edges: seq<PolicyEdge>, overrides: Overrides, inputs: State,
                                       s: Key, w: Replay, next: Key, output: Option<State>)
    returns (w': Replay)
    requires Replays(nodes, edges, overrides, inputs, s, w)
    requires Took(nodes, edges, overrides, w.path[|w.outputs|], w.states[|w.outputs|], next, output)
    ensures Replays(nodes, edges, overrides, inputs, s, w')
    ensures w'.path == w.path + [next] && w'.states == w.states + [Merge(w.states[|w.outputs|], output)]
  {
    hide Took, StateIs, Merge;
    var n := |w.outputs|;
    var after := Merge(w.states[n], output);
    w' := Replay(w.path + [next], w.outputs + [output], w.states + [after]);
    assert w.outputs[..n] == w.outputs && w'.outputs[..n + 1] == w.outputs + [output];
    StateNext(inputs, w.outputs, w.states[n], output);
    forall i: nat | i < |w'.states| ensures StateIs(inputs, w'.outputs[..i], w'.states[i]) {
      if i <= n { assert w'.outputs[..i] == w.outputs[..i]; }
    }
    forall i: nat ensures StepAt(nodes, edges, overrides, w', i) {
      if i < n { assert StepAt(nodes, edges, overrides, w, i); }
    }
  }

  lemma {:induction false} FollowMeaning(nodes: seq<Node>, edges: seq<PolicyEdge>, overrides: Overrides, inputs: State,
                                         s: Key, w: Replay, fuel: nat)
    returns (w': Replay)
    requires Replays(nodes, edges, overrides, inputs, s, w)
    ensures Replays(nodes, edges, overrides, inputs, s, w')
    ensures var n := |w.path| - 1;
            Reported(nodes, edges, overrides, w', n + fuel,
                     Follow(nodes, edges, overrides, w.path[n], w.states[n], w.path, fuel))
    decreases fuel
  {
    hide Took, Advance, EndsHere, StateIs, StepAt, Merge;
    var n := |w.path| - 1;
    w' := w;
    if fuel > 0 {
      AdvanceMeaning(nodes, edges, overrides, w.path[n], w.states[n]);
      var m := Advance(nodes, edges, overrides, w.path[n], w.states[n]);
      if m.Go? {
        var output :| Took(nodes, edges, overrides, w.path[n], w.states[n], m.next, output)
                      && m.state == Merge(w.states[n], output);
        var longer := ReplayGrows(nodes, edges, overrides, inputs, s, w, m.next, output);
        w' := FollowMeaning(nodes, edges, overrides, inputs, s, longer, fuel - 1);
      }
    }
  }

  /** The result of every replay from `s`: the path it took step by step, the final state field
      by field, and how it ended, after at most twice as many steps as there are nodes. */
  lemma {:induction false} ReplayIs(nodes: seq<Node>, edges: seq<PolicyEdge>, overrides: Overrides, inputs: State,
                                    s: Key) returns (w: Replay)
    ensures Replays(nodes, edges, overrides, inputs, s, w)
    ensures Reported(nodes, edges, overrides, w, if nodes == [] then 1 else 2 * |nodes|,
                     Follow(nodes, edges, overrides, s, inputs, [s], StepCap(nodes)))
  {
    var start := Replay([s], [], [inputs]);
    StateAtStart(inputs);
    w := FollowMeaning(nodes, edges, overrides, inputs, s, start, StepCap(nodes));
  }
}
