/**
  What a validation without findings guarantees about the graph and about every replayed
  walk: the validator (policy_validator.py) joined with the simulator (simulation_engine.py).
*/
module CleanGraphs {
  import opened Common
  import opened Graphs
  import opened Tarjan
  import opened PolicyModel
  import opened PolicyValidator
  import opened Simulation

  // ----- Every node of a clean graph leads out -----

  ghost predicate EndOrHuman(nodes: seq<Node>, g: Graph, y: Key) {
    y in g && y in Keys(nodes) && (g[y] == [] || NodeByKey(nodes, y).nodeType == Human)
  }

  ghost predicate LeadsOut(nodes: seq<Node>, g: Graph, x: Key) {
    exists y :: Reach(g, x, y) && EndOrHuman(nodes, g, y)
  }

  lemma {:induction false} ReachSetShrinks(g: Graph, x: Key, y: Key)
    requires x in g && Reach(g, x, y) && !Reach(g, y, x)
    ensures |ReachSet(g, y)| < |ReachSet(g, x)|
  {
    forall z | z in ReachSet(g, y) ensures z in ReachSet(g, x) - {x} {
      ReachTrans(g, x, y, z);
    }
    ReachRefl(g, x);
    SubsetCard(ReachSet(g, y), ReachSet(g, x) - {x});
  }

  lemma {:induction false} LeadsOutBack(nodes: seq<Node>, g: Graph, x: Key, y: Key)
    requires Reach(g, x, y) && LeadsOut(nodes, g, y)
    ensures LeadsOut(nodes, g, x)
  {
    var z :| Reach(g, y, z) && EndOrHuman(nodes, g, z);
    ReachTrans(g, x, y, z);
  }

  /** The exit demanded of the cycle through `x`: a person, or an edge out of the cycle. */
  lemma {:induction false} CycleExit(nodes: seq<Node>, edges: seq<PolicyEdge>, x: Key) returns (f: Key)
    requires CleanStructure(nodes, edges)
    requires x in Keys(nodes) && ReachPlus(Shape(nodes, edges), x, x)
    ensures var g := Shape(nodes, edges);
            LeadsOut(nodes, g, x) || (f in g && Reach(g, x, f) && !Reach(g, f, x))
  {
    var g := Shape(nodes, edges);
    assert !Unbounded(nodes, g, x);
    var y :| y in Class(g, x) && ExitAt(nodes, g, x, y);
    var n := NodeByKey(nodes, y);
    if n.nodeType == Human {
      assert EndOrHuman(nodes, g, y);
      f := x;
    } else {
      f := n.fallback.value;
      assert Fallback(nodes, y, f);
      ShapeEdge(nodes, edges, y, f);
      ReachThenEdge(g, x, y, f);
    }
  }

  /** Clean graphs strand nobody: each node has a path to a terminal or to a person. */
  lemma {:induction false} CleanLeadsOut(nodes: seq<Node>, edges: seq<PolicyEdge>, x: Key)
    requires CleanStructure(nodes, edges) && x in Keys(nodes)
    ensures LeadsOut(nodes, Shape(nodes, edges), x)
    decreases |ReachSet(Shape(nodes, edges), x)|
  {
    var g := Shape(nodes, edges);
    if g[x] == [] {
      ReachRefl(g, x);
      assert EndOrHuman(nodes, g, x);
    } else if ReachPlus(g, x, x) {
      var f := CycleExit(nodes, edges, x);
      if !LeadsOut(nodes, g, x) {
        ReachSetShrinks(g, x, f);
        CleanLeadsOut(nodes, edges, f);
        LeadsOutBack(nodes, g, x, f);
      }
    } else {
      var z := g[x][0];
      assert Edge(g, x, z);
      ReachEdge(g, x, z);
      ShapeEdge(nodes, edges, x, z);
      ReachSetShrinks(g, x, z);
      CleanLeadsOut(nodes, edges, z);
      LeadsOutBack(nodes, g, x, z);
    }
  }

  lemma {:induction false} IncomingLinks(nodes: seq<Node>, edges: seq<PolicyEdge>, k: Key)
    requires ReferencesResolve(nodes, edges) && HasIncoming(nodes, edges, k)
    ensures HasIn(nodes, edges, k)
  {
    if e :| e in edges && e.to == k {
      assert Resolved(nodes, e);
      assert Links(nodes, edges, e.from, k);
    } else {
      var n :| n in nodes && n.fallback == Some(k);
      assert Links(nodes, edges, n.key, k);
    }
  }

  /** In a clean graph with several nodes there is one that nothing points at. */
  lemma {:induction false} CleanHasStart(nodes: seq<Node>, edges: seq<PolicyEdge>)
    requires CleanStructure(nodes, edges) && |Keys(nodes)| >= 2
    ensures StartNodes(nodes, edges) != {}
  {
    hide HasOut, HasIn, HasIncoming, ReferencesResolve, Unbounded, Mismatch, Reached, Keys, Shape;
    var k :| IsStart(nodes, edges, k);
    OutIsKey(nodes, edges, k);
    if HasIncoming(nodes, edges, k) { IncomingLinks(nodes, edges, k); }
    assert k in StartNodes(nodes, edges);
  }

  // ----- Walks of the simulator are trails of the explicit graph -----

  ghost predicate Trail(edges: seq<PolicyEdge>, path: seq<Key>) {
    forall i :: 0 < i < |path| ==> ExplicitEdge(edges, path[i - 1], path[i])
  }

  /** Edges end in known nodes. */
  ghost predicate TargetsKnown(nodes: seq<Node>, edges: seq<PolicyEdge>) {
    forall e :: e in edges ==> e.to in Keys(nodes)
  }

  function Last(path: seq<Key>): Key
    requires path != []
  {
    path[|path| - 1]
  }

  lemma {:induction false} AdvanceEdge(nodes: seq<Node>, edges: seq<PolicyEdge>, ov: Overrides, current: Key,
                                       state: State)
    requires Advance(nodes, edges, ov, current, state).Go?
    ensures ExplicitEdge(edges, current, Advance(nodes, edges, ov, current, state).next)
  {
    var node := NodeByKey(nodes, current);
    var outgoing := OutEdges(edges, current);
    var matches := Matching(node.testCases, state);
    ChosenEdge(node, outgoing, matches, ov);
    OutEdgesIn(edges, current, Choose(node, outgoing, matches, ov).edge);
  }

  lemma {:induction false} AdvanceKinds(nodes: seq<Node>, edges: seq<PolicyEdge>, ov: Overrides, current: Key,
                                        state: State)
    requires current in Keys(nodes)
    ensures var m := Advance(nodes, edges, ov, current, state);
            && !m.Fault?
            && (m.Finish? ==> m.reason != Some(StepLimitExceeded))
            && (m.Finish? && m.status == Completed ==> OutEdges(edges, current) == [])
  {
    hide Matching, Labelled, OutEdges, NodeByKey;
  }

  lemma {:induction false} TrailExtend(edges: seq<PolicyEdge>, path: seq<Key>, next: Key)
    requires path != [] && Trail(edges, path) && ExplicitEdge(edges, Last(path), next)
    ensures Trail(edges, path + [next])
  {
  }

  /** What holds of a trace that goes on from `path`. */
  ghost predicate GoesOn(nodes: seq<Node>, edges: seq<PolicyEdge>, path: seq<Key>, fuel: nat, t: CaseTrace) {
    && t.path != [] && path <= t.path && Trail(edges, t.path) && Last(t.path) in Keys(nodes)
    && |t.path| <= |path| + fuel
    && (t.reason == Some(StepLimitExceeded) ==> |t.path| == |path| + fuel)
    && (t.status == Completed ==> t.terminal == Some(Last(t.path)) && OutEdges(edges, Last(t.path)) == [])
  }

  /** A run extends its path along explicit edges, raises only on an unknown node, and
      completes only where no edge leaves. */
  lemma {:induction false} FollowTrail(nodes: seq<Node>, edges: seq<PolicyEdge>, ov: Overrides,
                                       current: Key, state: State, path: seq<Key>, fuel: nat)
    requires path != [] && Last(path) == current && Trail(edges, path)
    requires TargetsKnown(nodes, edges) && current in Keys(nodes)
    ensures var r := Follow(nodes, edges, ov, current, state, path, fuel);
            r.Traced? && GoesOn(nodes, edges, path, fuel, r.trace)
    decreases fuel
  {
    hide Advance, Trail, ExplicitEdge, OutEdges;
    if fuel > 0 {
      AdvanceKinds(nodes, edges, ov, current, state);
      var m := Advance(nodes, edges, ov, current, state);
      if m.Go? {
        AdvanceEdge(nodes, edges, ov, current, state);
        EdgeKnown(nodes, edges, current, m.next);
        TrailExtend(edges, path, m.next);
        FollowTrail(nodes, edges, ov, m.next, m.state, path + [m.next], fuel - 1);
        assert path <= path + [m.next];
      }
    }
  }

  lemma {:induction false} EdgeKnown(nodes: seq<Node>, edges: seq<PolicyEdge>, x: Key, y: Key)
    requires TargetsKnown(nodes, edges) && ExplicitEdge(edges, x, y)
    ensures y in Keys(nodes)
  {
  }

  lemma {:induction false} TrailReach(edges: seq<PolicyEdge>, g: Graph, path: seq<Key>, i: nat, j: nat)
    requires Trail(edges, path) && i < j < |path|
    requires forall x, y :: ExplicitEdge(edges, x, y) ==> Edge(g, x, y)
    ensures ReachPlus(g, path[i], path[j])
    decreases j - i
  {
    assert ExplicitEdge(edges, path[i + 1 - 1], path[i + 1]);
    if j == i + 1 {
      ReachRefl(g, path[j]);
    } else {
      TrailReach(edges, g, path, i + 1, j);
      ReachPlusReach(g, path[i + 1], path[j]);
    }
  }

  /** On an acyclic graph a trail visits no node twice. */
  lemma {:induction false} AcyclicTrailDistinct(edges: seq<PolicyEdge>, g: Graph, path: seq<Key>)
    requires Trail(edges, path) && Acyclic(g)
    requires forall x, y :: ExplicitEdge(edges, x, y) ==> Edge(g, x, y)
    ensures Distinct(path)
  {
    forall i, j | 0 <= i < j < |path| ensures path[i] != path[j] {
      TrailReach(edges, g, path, i, j);
    }
  }

  lemma {:induction false} DistinctFits(path: seq<Key>, keys: set<Key>)
    requires Distinct(path) && forall i :: 0 <= i < |path| ==> path[i] in keys
    ensures |path| <= |keys|
    decreases |path|
  {
    if path != [] {
      var rest := path[..|path| - 1];
      DistinctFits(rest, keys - {path[|path| - 1]});
    }
  }

  lemma {:induction false} KeysFit(nodes: seq<Node>)
    ensures |Keys(nodes)| <= |nodes|
  {
    if nodes != [] {
      var rest := nodes[..|nodes| - 1];
      KeysFit(rest);
      assert Keys(nodes) == Keys(rest) + {nodes[|nodes| - 1].key};
    }
  }

  // ----- Clean graphs without people or bounded retries -----

  ghost predicate NoHumanNoRetry(nodes: seq<Node>) {
    forall n :: n in nodes ==> n.nodeType != Human && (n.maxAttempts.Some? ==> n.maxAttempts.value <= 0)
  }

  lemma {:induction false} NobodyToExit(nodes: seq<Node>, g: Graph, x: Key)
    requires g.Keys == Keys(nodes) && NoHumanNoRetry(nodes)
    ensures !HasExit(nodes, g, x)
  {
    forall y | y in Class(g, x) ensures !ExitAt(nodes, g, x, y) {
      assert NodeByKey(nodes, y) in nodes;
    }
  }

  lemma {:induction false} CleanIsAcyclic(nodes: seq<Node>, edges: seq<PolicyEdge>)
    requires CleanStructure(nodes, edges) && NoHumanNoRetry(nodes)
    ensures Acyclic(Shape(nodes, edges))
  {
    var g := Shape(nodes, edges);
    forall x ensures !ReachPlus(g, x, x) {
      NobodyToExit(nodes, g, x);
      assert !Unbounded(nodes, g, x);
    }
  }

  lemma {:induction false} ExplicitInShape(nodes: seq<Node>, edges: seq<PolicyEdge>)
    requires ReferencesResolve(nodes, edges)
    ensures forall x, y :: ExplicitEdge(edges, x, y) ==> Edge(Shape(nodes, edges), x, y)
  {
    forall x, y | ExplicitEdge(edges, x, y) ensures Edge(Shape(nodes, edges), x, y) {
      var e :| e in edges && e.from == x && e.to == y;
      assert Resolved(nodes, e);
      ShapeEdge(nodes, edges, x, y);
    }
  }

  /** The replay of any case on such a graph ends normally: it returns a trace that revisits
      no node, never hits the step cap, and completes only in a node without outgoing edges. */
  lemma {:induction false} CleanRunsAreSafe(nodes: seq<Node>, edges: seq<PolicyEdge>, inputs: State, ov: Overrides,
                                            s: Key)
    requires CleanStructure(nodes, edges) && NoHumanNoRetry(nodes)
    requires StartNodes(nodes, edges) == {s}
    ensures var r := Follow(nodes, edges, ov, s, inputs, [s], StepCap(nodes));
            && r.Traced?
            && Distinct(r.trace.path) && Trail(edges, r.trace.path)
            && r.trace.reason != Some(StepLimitExceeded)
            && r.trace.status != Awaiting
            && (r.trace.status == Completed ==> r.trace.terminal.Some? && OutEdges(edges, r.trace.terminal.value) == [])
  {
    assert s in StartNodes(nodes, edges);
    var r := Follow(nodes, edges, ov, s, inputs, [s], StepCap(nodes));
    FollowTrail(nodes, edges, ov, s, inputs, [s], StepCap(nodes));
    assert Distinct(r.trace.path) by {
      CleanIsAcyclic(nodes, edges);
      ExplicitInShape(nodes, edges);
      AcyclicTrailDistinct(edges, Shape(nodes, edges), r.trace.path);
    }
    assert |r.trace.path| <= |nodes| by {
      TrailInKeys(nodes, edges, r.trace.path);
      DistinctFits(r.trace.path, Keys(nodes));
      KeysFit(nodes);
    }
    NeverAwaits(nodes, edges, ov, s, inputs, [s], StepCap(nodes));
  }

  lemma {:induction false} TrailInKeys(nodes: seq<Node>, edges: seq<PolicyEdge>, path: seq<Key>)
    requires Trail(edges, path) && TargetsKnown(nodes, edges)
    requires path != [] && path[0] in Keys(nodes)
    ensures forall i :: 0 <= i < |path| ==> path[i] in Keys(nodes)
  {
    forall i | 0 <= i < |path| ensures path[i] in Keys(nodes) {
      if i > 0 {
        assert ExplicitEdge(edges, path[i - 1], path[i]);
      }
    }
  }

  /** Only a human node without an override waits. */
  lemma {:induction false} AwaitingAt(nodes: seq<Node>, edges: seq<PolicyEdge>, ov: Overrides, current: Key,
                                      state: State)
    requires var m := Advance(nodes, edges, ov, current, state); m.Finish? && m.status == Awaiting
    ensures current in Keys(nodes) && current !in ov
    ensures NodeByKey(nodes, current).nodeType == Human
  {
    hide Matching, Labelled, OutEdges;
  }

  lemma {:induction false} NeverAwaits(nodes: seq<Node>, edges: seq<PolicyEdge>, ov: Overrides,
                                       current: Key, state: State, path: seq<Key>, fuel: nat)
    requires NoHumanNoRetry(nodes)
    ensures var r := Follow(nodes, edges, ov, current, state, path, fuel);
            r.Traced? ==> r.trace.status != Awaiting
    decreases fuel
  {
    hide Advance;
    if fuel > 0 {
      var m := Advance(nodes, edges, ov, current, state);
      if m.Go? {
        NeverAwaits(nodes, edges, ov, m.next, m.state, path + [m.next], fuel - 1);
      } else if m.Finish? && m.status == Awaiting {
        AwaitingAt(nodes, edges, ov, current, state);
        assert false;
      }
    }
  }

  // ----- Resuming after a human stop -----

  /** The graph of the explicit edges alone. */
  ghost function Explicit(nodes: seq<Node>, edges: seq<PolicyEdge>): Graph {
    map k | k in Keys(nodes) :: Targets(edges, k)
  }

  lemma {:induction false} ExplicitEdges(nodes: seq<Node>, edges: seq<PolicyEdge>)
    requires forall e :: e in edges ==> Resolved(nodes, e)
    ensures forall x, y :: ExplicitEdge(edges, x, y) ==> Edge(Explicit(nodes, edges), x, y)
  {
    forall x, y | ExplicitEdge(edges, x, y) ensures Edge(Explicit(nodes, edges), x, y) {
      var e :| e in edges && e.from == x && e.to == y;
      assert Resolved(nodes, e);
      TargetsIn(edges, x, y);
    }
  }

  /** An override for another node changes nothing here. */
  lemma {:induction false} AdvanceElsewhere(nodes: seq<Node>, edges: seq<PolicyEdge>, ov: Overrides, current: Key,
                                            state: State, h: Key, choice: Label)
    requires current != h
    ensures Advance(nodes, edges, ov[h := choice], current, state) == Advance(nodes, edges, ov, current, state)
  {
    hide Matching, Labelled, OutEdges;
  }

  /** Where a run stopped for a person, the override takes the first edge it names. */
  lemma {:induction false} AdvanceAnswered(nodes: seq<Node>, edges: seq<PolicyEdge>, ov: Overrides, h: Key,
                                           state: State, choice: Label)
    requires var m := Advance(nodes, edges, ov, h, state); m.Finish? && m.status == Awaiting
    requires Labelled(OutEdges(edges, h), Some(choice)) != []
    ensures Advance(nodes, edges, ov[h := choice], h, state) ==
            Go(Labelled(OutEdges(edges, h), Some(choice))[0].to, state)
  {
    hide Matching, Labelled, OutEdges;
  }

  lemma {:induction false} FollowAnswered(nodes: seq<Node>, edges: seq<PolicyEdge>, ov: Overrides,
                                          current: Key, state: State, path: seq<Key>, fuel: nat,
                                          t: CaseTrace, choice: Label)
    requires path != [] && Last(path) == current && current in Keys(nodes) && Trail(edges, path)
    requires TargetsKnown(nodes, edges)
    requires Follow(nodes, edges, ov, current, state, path, fuel) == Traced(t)
    requires t.status == Awaiting && Distinct(t.path) && t.path != []
    requires Labelled(OutEdges(edges, Last(t.path)), Some(choice)) != []
    ensures |path| <= |t.path| < |path| + fuel && Last(t.path) !in ov
    ensures var h := Last(t.path);
            var next := Labelled(OutEdges(edges, h), Some(choice))[0].to;
            Follow(nodes, edges, ov[h := choice], current, state, path, fuel)
            == Follow(nodes, edges, ov[h := choice], next, t.finalState, t.path + [next], |path| + fuel - |t.path| - 1)
    decreases fuel
  {
    hide Advance, Trail, ExplicitEdge, OutEdges, Labelled;
    assert fuel > 0;
    FollowTrail(nodes, edges, ov, current, state, path, fuel);
    var m := Advance(nodes, edges, ov, current, state);
    if m.Go? {
      AdvanceEdge(nodes, edges, ov, current, state);
      EdgeKnown(nodes, edges, current, m.next);
      TrailExtend(edges, path, m.next);
      var longer := path + [m.next];
      FollowTrail(nodes, edges, ov, m.next, m.state, longer, fuel - 1);
      assert t.path[|path| - 1] == longer[|path| - 1] == current;
      AdvanceElsewhere(nodes, edges, ov, current, state, Last(t.path), choice);
      FollowAnswered(nodes, edges, ov, m.next, m.state, longer, fuel - 1, t, choice);
    } else {
      assert t.path == path;
      AwaitingAt(nodes, edges, ov, current, state);
      AdvanceAnswered(nodes, edges, ov, current, state, choice);
    }
  }

  /** Rerunning a case that stopped at a person `h`, now with `h`'s answer `choice`: the new
      path has the old one as a proper prefix and goes on from `h` in the old final state. */
  lemma {:induction false} ResumeHumanStop(nodes: seq<Node>, edges: seq<PolicyEdge>, inputs: State, ov: Overrides,
                                           s: Key, t: CaseTrace, e: PolicyEdge)
    requires StartNodes(nodes, edges) == {s}
    requires forall d :: d in edges ==> Resolved(nodes, d)
    requires Acyclic(Explicit(nodes, edges))
    requires Follow(nodes, edges, ov, s, inputs, [s], StepCap(nodes)) == Traced(t) && t.status == Awaiting
    requires t.path != [] && e in edges && e.from == Last(t.path) && e.condition.Some?
    ensures Last(t.path) !in ov && |t.path| <= StepCap(nodes)
    ensures var answered := ov[Last(t.path) := e.condition.value];
            var again := Follow(nodes, edges, answered, s, inputs, [s], StepCap(nodes));
            && again.Traced? && t.path < again.trace.path
            && (exists d :: d in edges && d.from == e.from && d.condition == e.condition
                 && again == Follow(nodes, edges, answered, d.to, t.finalState, t.path + [d.to],
                                    StepCap(nodes) - |t.path|))
  {
    var h, choice := Last(t.path), e.condition.value;
    var answered := ov[h := choice];
    assert s in StartNodes(nodes, edges);
    assert Distinct(t.path) by {
      FollowTrail(nodes, edges, ov, s, inputs, [s], StepCap(nodes));
      ExplicitEdges(nodes, edges);
      AcyclicTrailDistinct(edges, Explicit(nodes, edges), t.path);
    }
    var d := FirstLabelled(edges, h, e);
    FollowAnswered(nodes, edges, ov, s, inputs, [s], StepCap(nodes), t, choice);
    hide Follow, OutEdges, Labelled;
    Continued(nodes, edges, ov, s, inputs, t, answered, d);
  }

  lemma {:induction false} FirstLabelled(edges: seq<PolicyEdge>, h: Key, e: PolicyEdge) returns (d: PolicyEdge)
    requires e in edges && e.from == h
    ensures Labelled(OutEdges(edges, h), e.condition) != [] && d == Labelled(OutEdges(edges, h), e.condition)[0]
    ensures d in edges && d.from == h && d.condition == e.condition
  {
    OutEdgesIn(edges, h, e);
    LabelledIn(OutEdges(edges, h), e.condition, e);
    d := Labelled(OutEdges(edges, h), e.condition)[0];
    LabelledIn(OutEdges(edges, h), e.condition, d);
    OutEdgesIn(edges, h, d);
  }

  lemma {:induction false} Continued(nodes: seq<Node>, edges: seq<PolicyEdge>, ov: Overrides, s: Key, inputs: State,
                                     t: CaseTrace, answered: Overrides, d: PolicyEdge)
    requires s in Keys(nodes) && TargetsKnown(nodes, edges)
    requires Follow(nodes, edges, ov, s, inputs, [s], StepCap(nodes)) == Traced(t)
    requires t.path != [] && |t.path| <= StepCap(nodes) && d in edges && d.from == Last(t.path)
    ensures var r := Follow(nodes, edges, answered, d.to, t.finalState, t.path + [d.to], StepCap(nodes) - |t.path|);
            r.Traced? && t.path < r.trace.path
  {
    hide Follow;
    FollowTrail(nodes, edges, ov, s, inputs, [s], StepCap(nodes));
    assert ExplicitEdge(edges, Last(t.path), d.to);
    TrailExtend(edges, t.path, d.to);
    FollowTrail(nodes, edges, answered, d.to, t.finalState, t.path + [d.to], StepCap(nodes) - |t.path|);
  }
}
