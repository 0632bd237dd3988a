/**
  The structural validator (packages/algorithm/policy_validator.py): dangling references,
  reachability from the start nodes, cycles without an exit, contract mismatches.
*/
module PolicyValidator {
  import opened Common
  import opened Graphs
  import opened Tarjan
  import opened SccSearch
  import opened PolicyModel

  /** A finding: its code with the node keys it names. */
  datatype Issue =
    | DanglingReference(key: Key)
    | EmptyGraph
    | UnreachableNode(key: Key)
    | NoStartNode
    | NoReachableTerminal
    | UnboundedCycle(component: seq<Key>)
    | IoTypeMismatch(from: Key, to: Key, field: Field)

  // ----- Dangling references -----

  ghost predicate DanglesAt(nodes: seq<Node>, edges: seq<PolicyEdge>, k: Key) {
    || (exists e :: e in edges && (e.from == k || e.to == k) && k !in Keys(nodes))
    || (exists n :: n in nodes && n.key == k && n.fallback.Some? && n.fallback.value !in Keys(nodes))
  }

  ghost predicate ReferencesResolve(nodes: seq<Node>, edges: seq<PolicyEdge>) {
    && (forall e :: e in edges ==> Resolved(nodes, e))
    && (forall n :: n in nodes && n.fallback.Some? ==> n.fallback.value in Keys(nodes))
  }

  function DanglingAt(keys: set<Key>, e: PolicyEdge): seq<Issue> {
    (if e.from !in keys then [DanglingReference(e.from)] else [])
    + (if e.to !in keys then [DanglingReference(e.to)] else [])
  }

  function DanglingEnds(keys: set<Key>, edges: seq<PolicyEdge>): seq<Issue> {
    if edges == [] then []
    else DanglingEnds(keys, edges[..|edges| - 1]) + DanglingAt(keys, edges[|edges| - 1])
  }

  function DanglingFallbacks(keys: set<Key>, nodes: seq<Node>): seq<Issue> {
    if nodes == [] then []
    else
      var n := nodes[|nodes| - 1];
      DanglingFallbacks(keys, nodes[..|nodes| - 1])
      + (if n.fallback.Some? && n.fallback.value !in keys then [DanglingReference(n.key)] else [])
  }

  /** The dangling ends of each edge in turn, then the nodes with a dangling fallback. */
  function DanglingFindings(nodes: seq<Node>, edges: seq<PolicyEdge>): seq<Issue> {
    DanglingEnds(Keys(nodes), edges) + DanglingFallbacks(Keys(nodes), nodes)
  }

  lemma {:induction false} DanglingEndsIn(keys: set<Key>, edges: seq<PolicyEdge>, s: Issue)
    ensures s in DanglingEnds(keys, edges) <==>
            s.DanglingReference? && s.key !in keys && exists e :: e in edges && (e.from == s.key || e.to == s.key)
  {
    if edges != [] {
      var init, e := edges[..|edges| - 1], edges[|edges| - 1];
      DanglingEndsIn(keys, init, s);
      assert forall d :: d in edges <==> d in init || d == e;
      assert s in DanglingAt(keys, e) <==>
             s.DanglingReference? && s.key !in keys && (e.from == s.key || e.to == s.key);
    }
  }

  lemma {:induction false} DanglingFallbacksIn(keys: set<Key>, nodes: seq<Node>, s: Issue)
    ensures s in DanglingFallbacks(keys, nodes) <==>
            && s.DanglingReference?
            && exists n :: n in nodes && n.key == s.key && n.fallback.Some? && n.fallback.value !in keys
  {
    if nodes != [] {
      var init, n := nodes[..|nodes| - 1], nodes[|nodes| - 1];
      DanglingFallbacksIn(keys, init, s);
      assert forall m :: m in nodes <==> m in init || m == n;
    }
  }

  lemma {:induction false} DanglingMeaning(nodes: seq<Node>, edges: seq<PolicyEdge>)
    ensures forall s :: s in DanglingFindings(nodes, edges) <==>
                        s.DanglingReference? && DanglesAt(nodes, edges, s.key)
    ensures DanglingFindings(nodes, edges) == [] <==> ReferencesResolve(nodes, edges)
  {
    var findings := DanglingFindings(nodes, edges);
    forall s ensures s in findings <==> s.DanglingReference? && DanglesAt(nodes, edges, s.key) {
      DanglingEndsIn(Keys(nodes), edges, s);
      DanglingFallbacksIn(Keys(nodes), nodes, s);
    }
    hide DanglingFindings;
    if findings != [] { assert findings[0] in findings; }
    if e :| e in edges && !Resolved(nodes, e) {
      var k := if e.from !in Keys(nodes) then e.from else e.to;
      assert DanglesAt(nodes, edges, k);
      assert DanglingReference(k) in findings;
    }
    if n :| n in nodes && n.fallback.Some? && n.fallback.value !in Keys(nodes) {
      assert DanglesAt(nodes, edges, n.key);
      assert DanglingReference(n.key) in findings;
    }
  }

  method DanglingReferenceIssues(nodes: seq<Node>, edges: seq<PolicyEdge>) returns (issues: seq<Issue>)
    ensures issues == DanglingFindings(nodes, edges)
    ensures forall i :: i in issues <==> i.DanglingReference? && DanglesAt(nodes, edges, i.key)
    ensures issues == [] <==> ReferencesResolve(nodes, edges)
  {
    var keys := Keys(nodes);
    issues := [];
    for i := 0 to |edges|
      invariant issues == DanglingEnds(keys, edges[..i])
    {
      var e := edges[i];
      assert edges[..i + 1][..i] == edges[..i];
      if e.from !in keys {
        issues := issues + [DanglingReference(e.from)];
      }
      if e.to !in keys {
        issues := issues + [DanglingReference(e.to)];
      }
    }
    assert edges[..|edges|] == edges;
    ghost var ends := issues;
    for i := 0 to |nodes|
      invariant issues == ends + DanglingFallbacks(keys, nodes[..i])
    {
      var n := nodes[i];
      assert nodes[..i + 1][..i] == nodes[..i];
      if n.fallback.Some? && n.fallback.value !in keys {
        issues := issues + [DanglingReference(n.key)];
      }
    }
    assert nodes[..|nodes|] == nodes;
    DanglingMeaning(nodes, edges);
  }

  // ----- Adjacency -----

  /** The two adjacency maps list the ends of `es`, in order. */
  ghost predicate Lists(outAdj: Graph, incomingAdj: Graph, keys: set<Key>, es: seq<PolicyEdge>) {
    && outAdj.Keys == keys && incomingAdj.Keys == keys
    && (forall k :: k in keys ==> outAdj[k] == Targets(es, k))
    && (forall k :: k in keys ==> incomingAdj[k] == Sources(es, k))
  }

  lemma {:induction false} ListsEmpty(outAdj: Graph, incomingAdj: Graph, keys: set<Key>)
    requires outAdj == map k | k in keys :: []
    requires incomingAdj == map k | k in keys :: []
    ensures Lists(outAdj, incomingAdj, keys, [])
  {
  }

  lemma {:induction false} ListsAppend(outAdj: Graph, incomingAdj: Graph, keys: set<Key>, es: seq<PolicyEdge>,
                                       e: PolicyEdge)
    requires Lists(outAdj, incomingAdj, keys, es) && e.from in keys && e.to in keys
    ensures Lists(outAdj[e.from := outAdj[e.from] + [e.to]], incomingAdj[e.to := incomingAdj[e.to] + [e.from]],
                  keys, es + [e])
  {
    assert (es + [e])[..|es|] == es;
  }

  lemma {:induction false} FallbackNone(keys: set<Key>)
    ensures FallbackEdges([], keys) == []
  {
  }

  lemma {:induction false} FallbackStep(nodes: seq<Node>, i: nat, keys: set<Key>)
    requires i < |nodes|
    ensures FallbackEdges(nodes[..i + 1], keys) == FallbackEdges(nodes[..i], keys) +
      (if nodes[i].fallback.Some? && nodes[i].fallback.value in keys
       then [PolicyEdge(nodes[i].key, nodes[i].fallback.value, None)] else [])
  {
    assert nodes[..i + 1][..i] == nodes[..i];
  }

  /** The second loop of `_build_adjacency`: fallbacks count as edges. */
  method AddFallbacks(nodes: seq<Node>, out0: Graph, incoming0: Graph, ghost es: seq<PolicyEdge>)
    returns (outAdj: Graph, incomingAdj: Graph)
    requires Lists(out0, incoming0, Keys(nodes), es)
    ensures Lists(outAdj, incomingAdj, Keys(nodes), es + FallbackEdges(nodes, Keys(nodes)))
  {
    hide Targets, Sources, FallbackEdges;
    var keys := Keys(nodes);
    outAdj, incomingAdj := out0, incoming0;
    ghost var added: seq<PolicyEdge> := [];
    FallbackNone(keys);
    assert nodes[..0] == [] && es + added == es;
    for i := 0 to |nodes|
      invariant Lists(outAdj, incomingAdj, keys, es + added)
      invariant added == FallbackEdges(nodes[..i], keys)
    {
      var n := nodes[i];
      FallbackStep(nodes, i, keys);
      if n.fallback.Some? && n.fallback.value in keys {
        var f := n.fallback.value;
        var e := PolicyEdge(n.key, f, None);
        assert n.key in keys;
        ListsAppend(outAdj, incomingAdj, keys, es + added, e);
        assert es + added + [e] == es + (added + [e]);
        added := added + [e];
        outAdj := outAdj[n.key := outAdj[n.key] + [f]];
        incomingAdj := incomingAdj[f := incomingAdj[f] + [n.key]];
      }
    }
    assert nodes[..|nodes|] == nodes;
  }

  method BuildAdjacency(nodes: seq<Node>, cleanEdges: seq<PolicyEdge>) returns (outAdj: Graph, incomingAdj: Graph)
    requires forall e :: e in cleanEdges ==> Resolved(nodes, e)
    ensures Lists(outAdj, incomingAdj, Keys(nodes), cleanEdges + FallbackEdges(nodes, Keys(nodes)))
  {
    hide Targets, Sources, FallbackEdges;
    var keys := Keys(nodes);
    outAdj := map k | k in keys :: [];
    incomingAdj := map k | k in keys :: [];
    ListsEmpty(outAdj, incomingAdj, keys);
    for i := 0 to |cleanEdges|
      invariant Lists(outAdj, incomingAdj, keys, cleanEdges[..i])
    {
      var e := cleanEdges[i];
      assert Resolved(nodes, e);
      ListsAppend(outAdj, incomingAdj, keys, cleanEdges[..i], e);
      assert cleanEdges[..i + 1] == cleanEdges[..i] + [e];
      outAdj := outAdj[e.from := outAdj[e.from] + [e.to]];
      incomingAdj := incomingAdj[e.to := incomingAdj[e.to] + [e.from]];
    }
    assert cleanEdges[..|cleanEdges|] == cleanEdges;
    outAdj, incomingAdj := AddFallbacks(nodes, outAdj, incomingAdj, cleanEdges);
  }

  // ----- Reachability -----

  /** No edges at all. */
  predicate Island(outAdj: Graph, incomingAdj: Graph, k: Key)
    requires k in outAdj && k in incomingAdj
  {
    outAdj[k] == [] && incomingAdj[k] == []
  }

  function Islands(outAdj: Graph, incomingAdj: Graph): set<Key>
    requires outAdj.Keys == incomingAdj.Keys
  {
    set k | k in outAdj.Keys && Island(outAdj, incomingAdj, k)
  }

  /** Zero incoming edges, but not isolated. */
  function Starts(outAdj: Graph, incomingAdj: Graph): set<Key>
    requires outAdj.Keys == incomingAdj.Keys
  {
    set k | k in outAdj.Keys && incomingAdj[k] == [] && outAdj[k] != []
  }

  ghost predicate FromStart(g: Graph, starts: set<Key>, k: Key) {
    exists s :: s in starts && Reach(g, s, k)
  }

  ghost function ReachedFrom(g: Graph, starts: set<Key>): set<Key> {
    set k | k in g.Keys && FromStart(g, starts, k)
  }

  function Terminals(g: Graph): set<Key> {
    set k | k in g.Keys && g[k] == []
  }

  function Unreachables(ks: seq<Key>): (r: seq<Issue>)
    ensures |r| == |ks|
    ensures forall i :: 0 <= i < |ks| ==> r[i] == UnreachableNode(ks[i])
  {
    seq(|ks|, i requires 0 <= i < |ks| => UnreachableNode(ks[i]))
  }

  /** The findings of the reachability check, from the meaning of reachability. */
  ghost function ReachabilityFindings(outAdj: Graph, incomingAdj: Graph): seq<Issue>
    requires outAdj.Keys == incomingAdj.Keys
  {
    var islands := Islands(outAdj, incomingAdj);
    var starts := Starts(outAdj, incomingAdj);
    var reached := ReachedFrom(outAdj, starts);
    if outAdj.Keys == {} then [EmptyGraph]
    else if |outAdj.Keys| == 1 then []
    else if starts == {} then Unreachables(Sorted(islands)) + [NoStartNode]
    else
      Unreachables(Sorted(islands)) + Unreachables(Sorted(outAdj.Keys - reached - islands))
      + (if Terminals(outAdj) * reached == {} then [NoReachableTerminal] else [])
  }

  ghost predicate Explored(g: Graph, seen: set<Key>, starts: set<Key>) {
    && starts <= seen <= g.Keys
    && (forall k {:trigger FromStart(g, starts, k)} :: k in seen ==> FromStart(g, starts, k))
  }

  lemma {:induction false} ExploredAll(g: Graph, seen: set<Key>, starts: set<Key>)
    requires Explored(g, seen, starts) && Closed(g, seen)
    ensures seen == ReachedFrom(g, starts)
  {
    forall k ensures k in seen <==> k in ReachedFrom(g, starts) {
      if k in seen {
        assert FromStart(g, starts, k);
      }
      if k in ReachedFrom(g, starts) {
        var s :| s in starts && Reach(g, s, k);
        ClosedReach(g, seen, s, k);
      }
    }
  }

  lemma {:induction false} ExploredSelf(g: Graph, starts: set<Key>)
    requires starts <= g.Keys
    ensures Explored(g, starts, starts)
  {
    forall k | k in starts ensures FromStart(g, starts, k) { ReachRefl(g, k); }
  }

  lemma {:induction false} ExploredEdge(g: Graph, seen: set<Key>, starts: set<Key>, x: Key, y: Key)
    requires Explored(g, seen, starts) && Total(g) && x in seen && Edge(g, x, y)
    ensures Explored(g, seen + {y}, starts)
  {
    assert FromStart(g, starts, x);
    var s :| s in starts && Reach(g, s, x);
    ReachThenEdge(g, s, x, y);
    assert FromStart(g, starts, y);
  }

  /** Every seen node outside `open` has had its successors seen. */
  ghost predicate Expanded(g: Graph, seen: set<Key>, frontier: seq<Key>, current: set<Key>) {
    forall x, y :: x in seen && x !in frontier && x !in current && Edge(g, x, y) ==> y in seen
  }

  /** The `frontier` loop. */
  method Explore(outAdj: Graph, starts: set<Key>) returns (seen: set<Key>)
    requires Total(outAdj) && starts <= outAdj.Keys
    ensures seen == ReachedFrom(outAdj, starts)
  {
    hide Explored, Total;
    seen := starts;
    var frontier := Sorted(starts);
    SortedElements(starts);
    ExploredSelf(outAdj, starts);
    while frontier != []
      invariant Explored(outAdj, seen, starts) && seen <= outAdj.Keys
      invariant forall x :: x in frontier ==> x in seen
      invariant Expanded(outAdj, seen, frontier, {})
      decreases outAdj.Keys - seen, |frontier|
    {
      var current := frontier[|frontier| - 1];
      ghost var before := frontier;
      frontier := frontier[..|frontier| - 1];
      assert forall x :: x in before ==> x in frontier || x == current;
      ghost var seen0, frontier0 := seen, frontier;
      for i := 0 to |outAdj[current]|
        invariant Explored(outAdj, seen, starts) && seen <= outAdj.Keys && current in seen
        invariant forall x :: x in frontier ==> x in seen
        invariant Expanded(outAdj, seen, frontier, {current})
        invariant forall j :: 0 <= j < i ==> outAdj[current][j] in seen
        invariant seen0 < seen || (seen == seen0 && frontier == frontier0)
      {
        var nxt := outAdj[current][i];
        assert Edge(outAdj, current, nxt);
        if nxt !in seen {
          ExploredEdge(outAdj, seen, starts, current, nxt);
          TotalEdge(outAdj, current, nxt);
          seen := seen + {nxt};
          frontier := frontier + [nxt];
        }
      }
    }
    ExploredAll(outAdj, seen, starts);
  }

  lemma {:induction false} TotalEdge(g: Graph, x: Key, y: Key)
    requires Total(g) && Edge(g, x, y)
    ensures y in g
  {
  }

  method ReachabilityIssues(outAdj: Graph, incomingAdj: Graph) returns (issues: seq<Issue>)
    requires Total(outAdj) && outAdj.Keys == incomingAdj.Keys
    ensures issues == ReachabilityFindings(outAdj, incomingAdj)
  {
    var keys := outAdj.Keys;
    if keys == {} {
      return [EmptyGraph];
    }
    if |keys| == 1 {
      return [];
    }
    var islands := Islands(outAdj, incomingAdj);
    issues := Unreachables(Sorted(islands));
    var starts := set k | k in keys - islands && incomingAdj[k] == [];
    assert starts == Starts(outAdj, incomingAdj);
    if starts == {} {
      return issues + [NoStartNode];
    }
    var seen := Explore(outAdj, starts);
    issues := issues + Unreachables(Sorted(keys - seen - islands));
    if Terminals(outAdj) * seen == {} {
      issues := issues + [NoReachableTerminal];
    }
  }

  /** What the reachability findings name, with at least two nodes and a start node. */
  lemma {:induction false} ReachabilityExact(outAdj: Graph, incomingAdj: Graph, k: Key)
    requires outAdj.Keys == incomingAdj.Keys && |outAdj.Keys| >= 2 && k in outAdj.Keys
    requires Starts(outAdj, incomingAdj) != {}
    ensures UnreachableNode(k) in ReachabilityFindings(outAdj, incomingAdj) <==>
            Island(outAdj, incomingAdj, k) || !FromStart(outAdj, Starts(outAdj, incomingAdj), k)
    ensures NoReachableTerminal in ReachabilityFindings(outAdj, incomingAdj) <==>
            forall t :: t in ReachedFrom(outAdj, Starts(outAdj, incomingAdj)) ==> outAdj[t] != []
    ensures NoStartNode !in ReachabilityFindings(outAdj, incomingAdj)
  {
    hide FromStart, Unreachables, Sorted;
    var islands := Islands(outAdj, incomingAdj);
    var reached := ReachedFrom(outAdj, Starts(outAdj, incomingAdj));
    UnreachablesIn(islands);
    UnreachablesIn(outAdj.Keys - reached - islands);
    assert Terminals(outAdj) * reached == {} <==> forall t :: t in reached ==> outAdj[t] != [] by {
      if t :| t in reached && outAdj[t] == [] { assert t in Terminals(outAdj) * reached; }
    }
  }

  lemma {:induction false} UnreachablesIn(s: set<Key>)
    ensures forall i :: i in Unreachables(Sorted(s)) <==> i.UnreachableNode? && i.key in s
  {
    SortedElements(s);
    forall i ensures i in Unreachables(Sorted(s)) <==> i.UnreachableNode? && i.key in s {
      if i.UnreachableNode? && i.key in s {
        var j :| 0 <= j < |Sorted(s)| && Sorted(s)[j] == i.key;
        assert Unreachables(Sorted(s))[j] == i;
      }
      if i in Unreachables(Sorted(s)) {
        var j :| 0 <= j < |Sorted(s)| && Unreachables(Sorted(s))[j] == i;
        assert Sorted(s)[j] in Sorted(s);
      }
    }
  }

  // ----- What the reachability findings say of nodes and edges -----

  /** An explicit edge or a fallback between known nodes. */
  ghost predicate Links(nodes: seq<Node>, edges: seq<PolicyEdge>, x: Key, y: Key) {
    x in Keys(nodes) && y in Keys(nodes) && (ExplicitEdge(edges, x, y) || Fallback(nodes, x, y))
  }

  ghost predicate HasOut(nodes: seq<Node>, edges: seq<PolicyEdge>, k: Key) {
    exists y :: Links(nodes, edges, k, y)
  }

  ghost predicate HasIn(nodes: seq<Node>, edges: seq<PolicyEdge>, k: Key) {
    exists x :: Links(nodes, edges, x, k)
  }

  /** It leads somewhere and nothing leads to it. */
  ghost predicate IsStart(nodes: seq<Node>, edges: seq<PolicyEdge>, k: Key) {
    HasOut(nodes, edges, k) && !HasIn(nodes, edges, k)
  }

  ghost predicate HasStart(nodes: seq<Node>, edges: seq<PolicyEdge>) {
    exists k :: IsStart(nodes, edges, k)
  }

  ghost predicate Isolated(nodes: seq<Node>, edges: seq<PolicyEdge>, k: Key) {
    k in Keys(nodes) && !HasOut(nodes, edges, k) && !HasIn(nodes, edges, k)
  }

  /** Each key of `path` links to the next. */
  ghost predicate Chain(nodes: seq<Node>, edges: seq<PolicyEdge>, path: seq<Key>) {
    forall i :: 0 <= i < |path| - 1 ==> Links(nodes, edges, path[i], path[i + 1])
  }

  ghost predicate ChainFrom(nodes: seq<Node>, edges: seq<PolicyEdge>, path: seq<Key>, x: Key, y: Key) {
    path != [] && path[0] == x && path[|path| - 1] == y && Chain(nodes, edges, path)
  }

  /** Some start node has a chain to `k`. */
  ghost predicate Reached(nodes: seq<Node>, edges: seq<PolicyEdge>, k: Key) {
    exists s, path :: IsStart(nodes, edges, s) && ChainFrom(nodes, edges, path, s, k)
  }

  /** When each reachability finding is due. */
  ghost predicate ReachabilityFinding(nodes: seq<Node>, edges: seq<PolicyEdge>, s: Issue) {
    match s
    case EmptyGraph => nodes == []
    case NoStartNode =>
      |Keys(nodes)| >= 2 && forall k :: HasOut(nodes, edges, k) ==> HasIn(nodes, edges, k)
    case UnreachableNode(k) =>
      |Keys(nodes)| >= 2 && k in Keys(nodes)
      && (Isolated(nodes, edges, k) || (HasStart(nodes, edges) && !Reached(nodes, edges, k)))
    case NoReachableTerminal =>
      |Keys(nodes)| >= 2 && HasStart(nodes, edges)
      && forall k :: Reached(nodes, edges, k) ==> HasOut(nodes, edges, k)
    case _ => false
  }

  lemma {:induction false} ShapeEnds(nodes: seq<Node>, edges: seq<PolicyEdge>, k: Key)
    requires k in Keys(nodes)
    ensures Shape(nodes, edges)[k] == [] <==> !HasOut(nodes, edges, k)
    ensures Incoming(nodes, edges)[k] == [] <==> !HasIn(nodes, edges, k)
  {
    var g, into := Shape(nodes, edges), Incoming(nodes, edges);
    if g[k] != [] {
      ShapeEdge(nodes, edges, k, g[k][0]);
      assert Links(nodes, edges, k, g[k][0]);
    }
    if y :| Links(nodes, edges, k, y) { ShapeEdge(nodes, edges, k, y); }
    if into[k] != [] {
      ShapeEdge(nodes, edges, into[k][0], k);
      assert Links(nodes, edges, into[k][0], k);
    }
    if x :| Links(nodes, edges, x, k) { ShapeEdge(nodes, edges, x, k); }
  }

  lemma {:induction false} LinksAre(nodes: seq<Node>, edges: seq<PolicyEdge>, x: Key, y: Key)
    ensures Edge(Shape(nodes, edges), x, y) <==> Links(nodes, edges, x, y)
  {
    ShapeEdge(nodes, edges, x, y);
  }

  lemma {:induction false} ChainCons(nodes: seq<Node>, edges: seq<PolicyEdge>, x: Key, rest: seq<Key>)
    requires rest != []
    ensures Chain(nodes, edges, [x] + rest) <==> Links(nodes, edges, x, rest[0]) && Chain(nodes, edges, rest)
  {
    hide Links;
    var path := [x] + rest;
    assert forall i :: 0 <= i < |rest| ==> path[i + 1] == rest[i];
    if Chain(nodes, edges, path) {
      assert Links(nodes, edges, path[0], path[0 + 1]);
      forall i | 0 <= i < |rest| - 1 ensures Links(nodes, edges, rest[i], rest[i + 1]) {
        assert Links(nodes, edges, path[i + 1], path[i + 1 + 1]);
      }
    }
    if Links(nodes, edges, x, rest[0]) && Chain(nodes, edges, rest) {
      forall i | 0 <= i < |path| - 1 ensures Links(nodes, edges, path[i], path[i + 1]) {
        if i > 0 { assert Links(nodes, edges, rest[i - 1], rest[i - 1 + 1]); }
      }
    }
  }

  lemma {:induction false} WalkIsChain(nodes: seq<Node>, edges: seq<PolicyEdge>, x: Key, p: seq<Key>, y: Key)
    ensures Walk(Shape(nodes, edges), x, p, y) <==> ChainFrom(nodes, edges, [x] + p, x, y)
    decreases |p|
  {
    hide Shape, Links, Edge;
    if p == [] {
      assert Chain(nodes, edges, [x] + p);
    } else {
      LinksAre(nodes, edges, x, p[0]);
      WalkIsChain(nodes, edges, p[0], p[1..], y);
      ChainCons(nodes, edges, x, p);
      assert [p[0]] + p[1..] == p;
      hide Chain;
    }
  }

  lemma {:induction false} ReachIsChain(nodes: seq<Node>, edges: seq<PolicyEdge>, x: Key, y: Key)
    ensures Reach(Shape(nodes, edges), x, y) <==> exists path :: ChainFrom(nodes, edges, path, x, y)
  {
    hide Shape, Walk, Chain;
    if p :| Walk(Shape(nodes, edges), x, p, y) { WalkIsChain(nodes, edges, x, p, y); }
    if path :| ChainFrom(nodes, edges, path, x, y) {
      assert path == [x] + path[1..];
      WalkIsChain(nodes, edges, x, path[1..], y);
    }
  }

  lemma {:induction false} StartsAre(nodes: seq<Node>, edges: seq<PolicyEdge>)
    ensures var g, into := Shape(nodes, edges), Incoming(nodes, edges);
            && (forall k :: k in Starts(g, into) <==> IsStart(nodes, edges, k))
            && (forall k :: k in Islands(g, into) <==> Isolated(nodes, edges, k))
            && (forall k :: k in Terminals(g) <==> k in Keys(nodes) && !HasOut(nodes, edges, k))
  {
    var g, into := Shape(nodes, edges), Incoming(nodes, edges);
    assert g.Keys == into.Keys == Keys(nodes);
    hide Shape, Incoming, Links;
    forall k | k in Keys(nodes)
      ensures (g[k] == [] <==> !HasOut(nodes, edges, k)) && (into[k] == [] <==> !HasIn(nodes, edges, k))
    {
      ShapeEnds(nodes, edges, k);
    }
    forall k ensures HasOut(nodes, edges, k) ==> k in Keys(nodes) { OutIsKey(nodes, edges, k); }
  }

  lemma {:induction false} OutIsKey(nodes: seq<Node>, edges: seq<PolicyEdge>, k: Key)
    ensures HasOut(nodes, edges, k) ==> k in Keys(nodes)
  {
  }

  lemma {:induction false} ReachedAre(nodes: seq<Node>, edges: seq<PolicyEdge>)
    ensures var g, into := Shape(nodes, edges), Incoming(nodes, edges);
            forall k :: k in ReachedFrom(g, Starts(g, into)) <==> Reached(nodes, edges, k)
  {
    var g, into := Shape(nodes, edges), Incoming(nodes, edges);
    var starts := Starts(g, into);
    StartsAre(nodes, edges);
    ShapeTotal(nodes, edges);
    assert g.Keys == Keys(nodes);
    hide Shape, Incoming, Links, Starts, Islands, IsStart, ChainFrom;
    forall k ensures k in ReachedFrom(g, starts) <==> Reached(nodes, edges, k) {
      if k in ReachedFrom(g, starts) {
        var s :| s in starts && Reach(g, s, k);
        ReachIsChain(nodes, edges, s, k);
      }
      if Reached(nodes, edges, k) {
        var s, path :| IsStart(nodes, edges, s) && ChainFrom(nodes, edges, path, s, k);
        ReachIsChain(nodes, edges, s, k);
        StartIsKey(nodes, edges, s);
        ClosedReach(g, g.Keys, s, k);
        assert FromStart(g, starts, k);
      }
    }
  }

  lemma {:induction false} StartIsKey(nodes: seq<Node>, edges: seq<PolicyEdge>, k: Key)
    requires IsStart(nodes, edges, k)
    ensures k in Keys(nodes)
  {
    OutIsKey(nodes, edges, k);
  }

  /** The finding on the graph as a whole, if one is due. */
  ghost function WholeGraph(nodes: seq<Node>, edges: seq<PolicyEdge>): seq<Issue> {
    if nodes == [] then [EmptyGraph]
    else if |Keys(nodes)| == 1 then []
    else if !HasStart(nodes, edges) then [NoStartNode]
    else if forall k :: Reached(nodes, edges, k) ==> HasOut(nodes, edges, k) then [NoReachableTerminal]
    else []
  }

  ghost predicate Unreached(nodes: seq<Node>, edges: seq<PolicyEdge>, k: Key) {
    HasStart(nodes, edges) && k in Keys(nodes) && !Isolated(nodes, edges, k) && !Reached(nodes, edges, k)
  }

  lemma {:induction false} FindingsByCase(g: Graph, into: Graph, islands: seq<Issue>, others: seq<Issue>)
    requires g.Keys == into.Keys && islands == Unreachables(Sorted(Islands(g, into)))
    requires others == Unreachables(Sorted(g.Keys - ReachedFrom(g, Starts(g, into)) - Islands(g, into)))
    ensures g.Keys == {} ==> ReachabilityFindings(g, into) == [EmptyGraph]
    ensures |g.Keys| == 1 ==> ReachabilityFindings(g, into) == []
    ensures |g.Keys| >= 2 && Starts(g, into) == {} ==> ReachabilityFindings(g, into) == islands + [NoStartNode]
    ensures |g.Keys| >= 2 && Starts(g, into) != {} ==>
              ReachabilityFindings(g, into) == islands + others
                + (if Terminals(g) * ReachedFrom(g, Starts(g, into)) == {} then [NoReachableTerminal] else [])
  {
    hide Islands, Starts, ReachedFrom, Terminals, Sorted, Unreachables;
  }

  lemma {:induction false} ShapeKeys(nodes: seq<Node>, edges: seq<PolicyEdge>)
    ensures Shape(nodes, edges).Keys == Incoming(nodes, edges).Keys == Keys(nodes)
    ensures nodes == [] <==> Keys(nodes) == {}
  {
    if nodes != [] { assert nodes[0].key in Keys(nodes); }
  }

  lemma {:induction false} FindingsSplit(nodes: seq<Node>, edges: seq<PolicyEdge>, islands: seq<Issue>,
                                         others: seq<Issue>)
    requires var g, into := Shape(nodes, edges), Incoming(nodes, edges);
             && g.Keys == into.Keys
             && islands == Unreachables(Sorted(Islands(g, into)))
             && others == Unreachables(Sorted(g.Keys - ReachedFrom(g, Starts(g, into)) - Islands(g, into)))
    ensures ReachabilityFindings(Shape(nodes, edges), Incoming(nodes, edges)) ==
            (if |Keys(nodes)| >= 2 then islands else [])
            + (if |Keys(nodes)| >= 2 && HasStart(nodes, edges) then others else [])
            + WholeGraph(nodes, edges)
  {
    hide Shape, Incoming, Islands, Starts, ReachedFrom, Terminals, Sorted, HasStart, Reached, HasOut, Unreachables;
    hide ReachabilityFindings, Keys;
    ShapeKeys(nodes, edges);
    FindingsByCase(Shape(nodes, edges), Incoming(nodes, edges), islands, others);
    WholeGraphFindings(nodes, edges);
    assert islands + [] == islands;
  }

  /** The list itself, in terms of nodes and edges: the isolated keys and then the unreached
      ones, each sorted, and at most one finding on the whole graph. */
  lemma {:induction false} ReachabilityList(nodes: seq<Node>, edges: seq<PolicyEdge>)
    returns (isolated: seq<Key>, unreached: seq<Key>)
    ensures Increasing(isolated) && Increasing(unreached)
    ensures forall k :: k in isolated <==> |Keys(nodes)| >= 2 && Isolated(nodes, edges, k)
    ensures forall k :: k in unreached <==> |Keys(nodes)| >= 2 && Unreached(nodes, edges, k)
    ensures ReachabilityFindings(Shape(nodes, edges), Incoming(nodes, edges)) ==
            Unreachables(isolated) + Unreachables(unreached) + WholeGraph(nodes, edges)
  {
    var g, into := Shape(nodes, edges), Incoming(nodes, edges);
    var islands, others := Islands(g, into), g.Keys - ReachedFrom(g, Starts(g, into)) - Islands(g, into);
    ShapeKeys(nodes, edges);
    FindingsSplit(nodes, edges, Unreachables(Sorted(islands)), Unreachables(Sorted(others)));
    IslandsAndOthers(nodes, edges);
    SortedElements(islands);
    SortedElements(others);
    isolated := if |Keys(nodes)| >= 2 then Sorted(islands) else [];
    unreached := if |Keys(nodes)| >= 2 && HasStart(nodes, edges) then Sorted(others) else [];
    hide Shape, Incoming, Islands, Starts, ReachedFrom, Sorted, Isolated, HasStart, Reached, Keys;
    hide ReachabilityFindings, WholeGraph;
    assert Unreachables([]) == [];
  }

  lemma {:induction false} WholeGraphFindings(nodes: seq<Node>, edges: seq<PolicyEdge>)
    ensures var g, into := Shape(nodes, edges), Incoming(nodes, edges);
            && (Starts(g, into) == {} <==> !HasStart(nodes, edges))
            && (Terminals(g) * ReachedFrom(g, Starts(g, into)) == {} <==>
                forall k :: Reached(nodes, edges, k) ==> HasOut(nodes, edges, k))
  {
    var g, into := Shape(nodes, edges), Incoming(nodes, edges);
    var starts, reached := Starts(g, into), ReachedFrom(g, Starts(g, into));
    StartsAre(nodes, edges);
    ReachedAre(nodes, edges);
    assert reached <= Keys(nodes);
    hide Shape, Incoming, Starts, ReachedFrom, Terminals, IsStart, Reached, HasOut;
    if starts != {} { var k :| k in starts; }
    if k :| Reached(nodes, edges, k) && !HasOut(nodes, edges, k) { assert k in Terminals(g) * reached; }
  }

  lemma {:induction false} IslandsAndOthers(nodes: seq<Node>, edges: seq<PolicyEdge>)
    ensures var g, into := Shape(nodes, edges), Incoming(nodes, edges);
            && (forall k :: k in Islands(g, into) <==> Isolated(nodes, edges, k))
            && (forall k :: k in g.Keys - ReachedFrom(g, Starts(g, into)) - Islands(g, into) <==>
                  k in Keys(nodes) && !Isolated(nodes, edges, k) && !Reached(nodes, edges, k))
  {
    StartsAre(nodes, edges);
    ReachedAre(nodes, edges);
    hide Islands, Starts, ReachedFrom, Isolated, Reached;
  }

  /** A reachability finding is made exactly when it is due. */
  lemma {:induction false} ReachabilityMeaning(nodes: seq<Node>, edges: seq<PolicyEdge>, s: Issue)
    ensures s in ReachabilityFindings(Shape(nodes, edges), Incoming(nodes, edges)) <==>
            ReachabilityFinding(nodes, edges, s)
  {
    hide Shape, Incoming, ReachabilityFindings, Reached, HasStart, Isolated, HasOut, HasIn, Unreachables, Keys;
    hide Unreached, Increasing, WholeGraph;
    var isolated, unreached := ReachabilityList(nodes, edges);
    UnreachablesOf(isolated);
    UnreachablesOf(unreached);
    WholeGraphMeaning(nodes, edges, s);
    if s.UnreachableNode? { UnreachableMeaning(nodes, edges, s.key); }
  }

  lemma {:induction false} WholeGraphMeaning(nodes: seq<Node>, edges: seq<PolicyEdge>, s: Issue)
    ensures s in WholeGraph(nodes, edges) <==> !s.UnreachableNode? && ReachabilityFinding(nodes, edges, s)
  {
    hide Reached, HasStart, HasOut, HasIn, Keys;
    ShapeKeys(nodes, edges);
    NoStartIs(nodes, edges);
  }

  lemma {:induction false} UnreachableMeaning(nodes: seq<Node>, edges: seq<PolicyEdge>, k: Key)
    ensures |Keys(nodes)| >= 2 && (Isolated(nodes, edges, k) || Unreached(nodes, edges, k)) <==>
            ReachabilityFinding(nodes, edges, UnreachableNode(k))
  {
    hide Reached, HasStart, HasOut, HasIn, Keys;
  }

  lemma {:induction false} NoStartIs(nodes: seq<Node>, edges: seq<PolicyEdge>)
    ensures !HasStart(nodes, edges) <==> forall k :: HasOut(nodes, edges, k) ==> HasIn(nodes, edges, k)
  {
    hide HasOut, HasIn;
    if k :| HasOut(nodes, edges, k) && !HasIn(nodes, edges, k) { assert IsStart(nodes, edges, k); }
  }

  /** No reachability finding is due: with two nodes or more, there is a start node, and the
      start nodes have chains to every node, one without links out of it among them. */
  ghost predicate Accessible(nodes: seq<Node>, edges: seq<PolicyEdge>) {
    && nodes != []
    && (|Keys(nodes)| >= 2 ==>
          && HasStart(nodes, edges)
          && (forall k :: k in Keys(nodes) ==> Reached(nodes, edges, k))
          && exists k :: Reached(nodes, edges, k) && !HasOut(nodes, edges, k))
  }

  lemma {:induction false} IsolatedUnreached(nodes: seq<Node>, edges: seq<PolicyEdge>, k: Key)
    requires Isolated(nodes, edges, k)
    ensures !Reached(nodes, edges, k)
  {
    if Reached(nodes, edges, k) {
      var s, path :| IsStart(nodes, edges, s) && ChainFrom(nodes, edges, path, s, k);
      if |path| > 1 {
        var i := |path| - 2;
        assert Links(nodes, edges, path[i], path[i + 1]);
        assert HasIn(nodes, edges, k);
      }
    }
  }

  lemma {:induction false} AccessibleIff(nodes: seq<Node>, edges: seq<PolicyEdge>)
    ensures ReachabilityFindings(Shape(nodes, edges), Incoming(nodes, edges)) == [] <==> Accessible(nodes, edges)
  {
    hide Shape, Incoming, ReachabilityFindings, Reached, HasStart, Isolated, HasOut, HasIn, Keys, Increasing;
    hide Accessible, Unreached, WholeGraph, Unreachables;
    var isolated, unreached := ReachabilityList(nodes, edges);
    if isolated != [] { assert isolated[0] in isolated; }
    if unreached != [] { assert unreached[0] in unreached; }
    AccessibleMeans(nodes, edges);
  }

  lemma {:induction false} AccessibleMeans(nodes: seq<Node>, edges: seq<PolicyEdge>)
    ensures Accessible(nodes, edges) <==>
            && WholeGraph(nodes, edges) == []
            && (|Keys(nodes)| >= 2 ==> forall k :: !Isolated(nodes, edges, k) && !Unreached(nodes, edges, k))
  {
    hide Reached, HasStart, HasOut, HasIn, Keys;
    ShapeKeys(nodes, edges);
    forall k ensures Isolated(nodes, edges, k) ==> !Reached(nodes, edges, k) && k in Keys(nodes) {
      if Isolated(nodes, edges, k) { IsolatedUnreached(nodes, edges, k); }
    }
    hide Isolated;
    if k :| k in Keys(nodes) && HasStart(nodes, edges) && !Reached(nodes, edges, k) {
      assert Isolated(nodes, edges, k) || Unreached(nodes, edges, k);
    }
  }

  lemma {:induction false} UnreachablesOf(ks: seq<Key>)
    ensures forall s :: s in Unreachables(ks) <==> s.UnreachableNode? && s.key in ks
  {
    forall s ensures s in Unreachables(ks) <==> s.UnreachableNode? && s.key in ks {
      if s.UnreachableNode? && s.key in ks {
        var j :| 0 <= j < |ks| && ks[j] == s.key;
        assert Unreachables(ks)[j] == s;
      }
    }
  }

  /** On an acyclic graph with a start node a terminal is always reached. */
  lemma {:induction false} AcyclicReachesTerminal(outAdj: Graph, incomingAdj: Graph)
    requires outAdj.Keys == incomingAdj.Keys && Total(outAdj) && Acyclic(outAdj)
    ensures NoReachableTerminal !in ReachabilityFindings(outAdj, incomingAdj)
  {
    var starts := Starts(outAdj, incomingAdj);
    var reached := ReachedFrom(outAdj, starts);
    UnreachablesIn(Islands(outAdj, incomingAdj));
    UnreachablesIn(outAdj.Keys - reached - Islands(outAdj, incomingAdj));
    if starts != {} {
      var s :| s in starts;
      ReachRefl(outAdj, s);
      assert FromStart(outAdj, starts, s);
      assert Closed(outAdj, reached) by {
        forall x, y | x in reached && Edge(outAdj, x, y) ensures y in reached {
          var a :| a in starts && Reach(outAdj, a, x);
          ReachThenEdge(outAdj, a, x, y);
          assert FromStart(outAdj, starts, y);
        }
      }
      assert s in reached;
      var t := AcyclicHasSink(outAdj, reached);
      assert t in Terminals(outAdj) * reached;
    }
  }

  // ----- Cycles without an exit -----

  /** The nodes that can be reached from `x` and reach it back. */
  ghost function Class(g: Graph, x: Key): set<Key> {
    set y | y in g.Keys && Mutual(g, x, y)
  }

  /** Node `y` leaves the cycle through `x`: a person, or a bounded retry with a fallback outside. */
  ghost predicate ExitAt(nodes: seq<Node>, g: Graph, x: Key, y: Key)
    requires y in Keys(nodes)
  {
    var n := NodeByKey(nodes, y);
    || n.nodeType == Human
    || (n.maxAttempts.Some? && n.maxAttempts.value > 0 && n.fallback.Some? && n.fallback.value !in Class(g, x))
  }

  ghost predicate HasExit(nodes: seq<Node>, g: Graph, x: Key)
    requires g.Keys == Keys(nodes)
  {
    exists y :: y in Class(g, x) && ExitAt(nodes, g, x, y)
  }

  /** `x` lies on a cycle whose mutual-reachability class offers no exit. */
  ghost predicate Unbounded(nodes: seq<Node>, g: Graph, x: Key)
    requires g.Keys == Keys(nodes)
  {
    x in g && ReachPlus(g, x, x) && !HasExit(nodes, g, x)
  }

  function SetOf(c: seq<Key>): set<Key> {
    set k | k in c
  }

  lemma {:induction false} ComponentIsClass(g: Graph, comps: seq<seq<Key>>, i: nat, x: Key)
    requires Decomposition(g, comps) && Emitted(comps) == g.Keys
    requires i < |comps| && x in comps[i]
    ensures SetOf(comps[i]) == Class(g, x)
  {
    forall y ensures y in comps[i] <==> y in Class(g, x) {
      if y in comps[i] {
        SameComponentIffMutual(g, comps, i, i, x, y);
        assert comps[i] in comps && y in Emitted(comps);
      }
      if y in Class(g, x) {
        var c :| c in comps && y in c;
        var j :| 0 <= j < |comps| && comps[j] == c;
        SameComponentIffMutual(g, comps, i, j, x, y);
      }
    }
  }

  lemma {:induction false} ReachPlusBack(g: Graph, x: Key, y: Key)
    requires ReachPlus(g, x, y) && Reach(g, y, x)
    ensures ReachPlus(g, x, x)
  {
    var z :| Edge(g, x, z) && Reach(g, z, y);
    ReachTrans(g, z, y, x);
  }

  predicate IsCycle(g: Graph, c: seq<Key>)
    requires c != [] && c[0] in g
  {
    |c| > 1 || c[0] in g[c[0]]
  }

  /** A component passes the cycle test exactly when its nodes lie on cycles. */
  lemma {:induction false} IsCycleIffReachPlus(g: Graph, comps: seq<seq<Key>>, i: nat, x: Key)
    requires Total(g) && Decomposition(g, comps) && Emitted(comps) == g.Keys
    requires i < |comps| && x in comps[i] && comps[i] != [] && comps[i][0] in g
    ensures IsCycle(g, comps[i]) <==> ReachPlus(g, x, x)
  {
    var c := comps[i];
    assert Component(g, c);
    if |c| > 1 {
      var y := if c[0] == x then c[1] else c[0];
      assert y != x && y in c;
      assert Reach(g, x, y) && Reach(g, y, x);
      ReachSplit(g, x, y);
      ReachPlusBack(g, x, y);
    } else {
      assert c == [x];
      if x in g[x] {
        ReachRefl(g, x);
        assert Edge(g, x, x);
      }
      if ReachPlus(g, x, x) {
        var z :| Edge(g, x, z) && Reach(g, z, x);
        ReachEdge(g, x, z);
        ComponentIsClass(g, comps, i, x);
        assert z in Class(g, x);
        assert z in c;
      }
    }
  }

  predicate ExitNode(n: Node, compSet: set<Key>) {
    || n.nodeType == Human
    || (n.maxAttempts.Some? && n.maxAttempts.value > 0 && n.fallback.Some? && n.fallback.value !in compSet)
  }

  method HasValidExit(nodes: seq<Node>, component: seq<Key>) returns (validExit: bool)
    requires forall k :: k in component ==> k in Keys(nodes)
    ensures validExit <==> exists k :: k in component && ExitNode(NodeByKey(nodes, k), SetOf(component))
  {
    var compSet := SetOf(component);
    validExit := false;
    for i := 0 to |component|
      invariant forall j :: 0 <= j < i ==> !ExitNode(NodeByKey(nodes, component[j]), compSet)
    {
      if ExitNode(NodeByKey(nodes, component[i]), compSet) {
        assert component[i] in component;
        return true;
      }
    }
  }

  /** The test on a component decides `Unbounded` for each of its nodes. */
  lemma {:induction false} ComponentVerdict(nodes: seq<Node>, g: Graph, comps: seq<seq<Key>>, i: nat, x: Key)
    requires Total(g) && Decomposition(g, comps) && Emitted(comps) == g.Keys == Keys(nodes)
    requires i < |comps| && x in comps[i] && comps[i] != [] && comps[i][0] in g
    requires forall k :: k in comps[i] ==> k in Keys(nodes)
    ensures Unbounded(nodes, g, x) <==>
            IsCycle(g, comps[i]) && !exists k :: k in comps[i] && ExitNode(NodeByKey(nodes, k), SetOf(comps[i]))
    ensures SetOf(comps[i]) == Class(g, x)
  {
    IsCycleIffReachPlus(g, comps, i, x);
    ComponentIsClass(g, comps, i, x);
    assert comps[i] in comps;
    forall k ensures k in comps[i] <==> k in Class(g, x) {
      assert k in comps[i] <==> k in SetOf(comps[i]);
    }
    forall k | k in comps[i] ensures ExitNode(NodeByKey(nodes, k), SetOf(comps[i])) <==> ExitAt(nodes, g, x, k) {
    }
  }

  /** The body of the component loop: does this component deserve a finding? */
  method IsUnbounded(nodes: seq<Node>, outAdj: Graph, component: seq<Key>, ghost comps: seq<seq<Key>>, ghost i: nat)
    returns (unbounded: bool)
    requires Total(outAdj) && Decomposition(outAdj, comps) && Emitted(comps) == outAdj.Keys == Keys(nodes)
    requires i < |comps| && comps[i] == component
    ensures component != []
    ensures forall x :: x in component ==> (unbounded <==> Unbounded(nodes, outAdj, x))
    ensures forall x :: x in component ==> SetOf(component) == Class(outAdj, x)
  {
    hide Decomposition, Total, Unbounded, Class, Emitted;
    ComponentKeys(outAdj, comps, i);
    forall x | x in component
      ensures Unbounded(nodes, outAdj, x) <==>
              && IsCycle(outAdj, component)
              && !exists k :: k in component && ExitNode(NodeByKey(nodes, k), SetOf(component))
      ensures SetOf(component) == Class(outAdj, x)
    {
      ComponentVerdict(nodes, outAdj, comps, i, x);
    }
    unbounded := IsCycle(outAdj, component);
    if unbounded {
      var validExit := HasValidExit(nodes, component);
      unbounded := !validExit;
    }
  }

  /** Each finding is the class of an unbounded node. */
  ghost predicate Justified(nodes: seq<Node>, g: Graph, s: Issue)
    requires g.Keys == Keys(nodes)
  {
    exists x :: Unbounded(nodes, g, x) && s == UnboundedCycle(Sorted(Class(g, x)))
  }

  ghost predicate Deserves(nodes: seq<Node>, g: Graph, c: seq<Key>)
    requires g.Keys == Keys(nodes)
  {
    c != [] && Unbounded(nodes, g, c[0])
  }

  /** The unbounded components in the order they were emitted, each with its keys sorted. */
  ghost function CycleFindings(nodes: seq<Node>, g: Graph, comps: seq<seq<Key>>): seq<Issue>
    requires g.Keys == Keys(nodes)
  {
    if comps == [] then []
    else
      var c := comps[|comps| - 1];
      CycleFindings(nodes, g, comps[..|comps| - 1])
      + (if Deserves(nodes, g, c) then [UnboundedCycle(Sorted(SetOf(c)))] else [])
  }

  lemma {:induction false} CycleFindingsIn(nodes: seq<Node>, g: Graph, comps: seq<seq<Key>>, s: Issue)
    requires g.Keys == Keys(nodes)
    ensures s in CycleFindings(nodes, g, comps) <==>
            exists c :: c in comps && Deserves(nodes, g, c) && s == UnboundedCycle(Sorted(SetOf(c)))
  {
    hide Deserves;
    if comps != [] {
      var init, last := comps[..|comps| - 1], comps[|comps| - 1];
      CycleFindingsIn(nodes, g, init, s);
      assert forall c :: c in comps <==> c in init || c == last;
    }
  }

  /** Different components are reported by different keys. */
  lemma {:induction false} ApartFindings(c: seq<Key>, d: seq<Key>)
    requires d != [] && forall x :: x in c ==> x !in d
    ensures Sorted(SetOf(c)) != Sorted(SetOf(d))
  {
    SortedElements(SetOf(c));
    SortedElements(SetOf(d));
    assert d[0] in SetOf(d) && d[0] !in SetOf(c);
  }

  lemma {:induction false} CycleFindingsOnce(nodes: seq<Node>, g: Graph, comps: seq<seq<Key>>)
    requires g.Keys == Keys(nodes) && Disjoint(comps)
    ensures Distinct(CycleFindings(nodes, g, comps))
  {
    if comps != [] {
      var n := |comps| - 1;
      var init, last := comps[..n], comps[n];
      assert Disjoint(init) by {
        forall i, j | 0 <= i < j < n ensures Apart(init, i, j) { assert Apart(comps, i, j); }
      }
      CycleFindingsOnce(nodes, g, init);
      if Deserves(nodes, g, last) {
        var s := UnboundedCycle(Sorted(SetOf(last)));
        CycleFindingsIn(nodes, g, init, s);
        forall c | c in init ensures Sorted(SetOf(c)) != Sorted(SetOf(last)) {
          var i :| 0 <= i < n && init[i] == c;
          assert Apart(comps, i, n);
          ApartFindings(c, last);
        }
        DistinctConcat(CycleFindings(nodes, g, init), [s]);
      }
    }
  }

  /** The reported components are the classes of the unbounded nodes. */
  lemma {:induction false} CycleMeaning(nodes: seq<Node>, g: Graph, comps: seq<seq<Key>>)
    requires Total(g) && Decomposition(g, comps) && Emitted(comps) == g.Keys == Keys(nodes)
    ensures forall s :: s in CycleFindings(nodes, g, comps) <==> Justified(nodes, g, s)
    ensures CycleFindings(nodes, g, comps) == [] <==> forall x :: !Unbounded(nodes, g, x)
  {
    var findings := CycleFindings(nodes, g, comps);
    hide CycleFindings, Unbounded, Class, Sorted, Total, Emitted;
    forall s ensures s in findings <==> Justified(nodes, g, s) {
      CycleFindingsIn(nodes, g, comps, s);
      if s in findings {
        var c :| c in comps && Deserves(nodes, g, c) && s == UnboundedCycle(Sorted(SetOf(c)));
        var i :| 0 <= i < |comps| && comps[i] == c;
        ComponentIsClass(g, comps, i, c[0]);
      }
      if Justified(nodes, g, s) {
        var x :| Unbounded(nodes, g, x) && s == UnboundedCycle(Sorted(Class(g, x)));
        ClassReported(nodes, g, comps, x);
      }
    }
    if findings != [] { assert findings[0] in findings; }
    if x :| Unbounded(nodes, g, x) { assert UnboundedCycle(Sorted(Class(g, x))) in findings; }
  }

  lemma {:induction false} ClassReported(nodes: seq<Node>, g: Graph, comps: seq<seq<Key>>, x: Key)
    requires Total(g) && Decomposition(g, comps) && Emitted(comps) == g.Keys == Keys(nodes) && Unbounded(nodes, g, x)
    ensures exists c :: c in comps && Deserves(nodes, g, c) && SetOf(c) == Class(g, x)
  {
    UnboundedEmitted(nodes, g, comps, x);
    var i :| 0 <= i < |comps| && x in comps[i];
    ComponentKeys(g, comps, i);
    var c := comps[i];
    assert c[0] in c && c in comps;
    ComponentVerdict(nodes, g, comps, i, x);
    ComponentVerdict(nodes, g, comps, i, c[0]);
  }

  /** `comps` are the components as the search emitted them. */
  method CycleIssues(nodes: seq<Node>, outAdj: Graph) returns (issues: seq<Issue>, ghost comps: seq<seq<Key>>)
    requires Total(outAdj) && outAdj.Keys == Keys(nodes)
    ensures Decomposition(outAdj, comps) && Emitted(comps) == outAdj.Keys
    ensures issues == CycleFindings(nodes, outAdj, comps) && Distinct(issues)
    ensures forall s :: s in issues <==> Justified(nodes, outAdj, s)
    ensures issues == [] <==> forall x :: !Unbounded(nodes, outAdj, x)
  {
    hide Total, Unbounded, Sorted, Class, Emitted, Components, Disjoint, Ordered, Distinct, Justified;
    issues := [];
    var emitted := TarjanSccs(outAdj);
    comps := emitted;
    for i := 0 to |emitted|
      invariant issues == CycleFindings(nodes, outAdj, emitted[..i])
    {
      assert emitted[..i + 1][..i] == emitted[..i];
      var unbounded := IsUnbounded(nodes, outAdj, emitted[i], emitted, i);
      assert emitted[i][0] in emitted[i];
      if unbounded {
        issues := issues + [UnboundedCycle(Sorted(SetOf(emitted[i])))];
      }
    }
    assert emitted[..|emitted|] == emitted;
    CycleFindingsOnce(nodes, outAdj, comps);
    CycleMeaning(nodes, outAdj, comps);
  }

  lemma {:induction false} ComponentKeys(g: Graph, comps: seq<seq<Key>>, i: nat)
    requires Decomposition(g, comps) && Emitted(comps) == g.Keys && i < |comps|
    ensures comps[i] != [] && forall k :: k in comps[i] ==> k in g.Keys
  {
    assert Component(g, comps[i]);
    forall k | k in comps[i] ensures k in Emitted(comps) { assert comps[i] in comps; }
  }

  lemma {:induction false} UnboundedEmitted(nodes: seq<Node>, g: Graph, comps: seq<seq<Key>>, x: Key)
    requires Emitted(comps) == g.Keys == Keys(nodes) && Unbounded(nodes, g, x)
    ensures exists j :: 0 <= j < |comps| && x in comps[j]
  {
    assert x in Emitted(comps);
    var c :| c in comps && x in c;
  }

  // ----- Contracts along edges -----

  ghost predicate Mismatch(nodes: seq<Node>, edges: seq<PolicyEdge>, x: Key, y: Key, f: Field)
  {
    && (exists e :: e in edges && e.from == x && e.to == y)
    && x in Keys(nodes) && y in Keys(nodes)
    && f in NodeByKey(nodes, x).outputContract && f in NodeByKey(nodes, y).inputContract
    && NodeByKey(nodes, x).outputContract[f] != NodeByKey(nodes, y).inputContract[f]
  }

  /** The fields, in the given order, on which the two contracts differ. */
  function Differing(fields: seq<Field>, a: Node, b: Node): seq<Field> {
    if fields == [] then []
    else
      var f := fields[|fields| - 1];
      Differing(fields[..|fields| - 1], a, b)
      + (if f in a.outputContract && f in b.inputContract && a.outputContract[f] != b.inputContract[f] then [f] else [])
  }

  function MismatchesAt(e: PolicyEdge, fields: seq<Field>): (r: seq<Issue>)
    ensures |r| == |fields| && forall i :: 0 <= i < |r| ==> r[i] == IoTypeMismatch(e.from, e.to, fields[i])
  {
    seq(|fields|, i requires 0 <= i < |fields| => IoTypeMismatch(e.from, e.to, fields[i]))
  }

  function SharedFields(a: Node, b: Node): seq<Field> {
    Sorted(a.outputContract.Keys * b.inputContract.Keys)
  }

  function EdgeMismatches(nodes: seq<Node>, e: PolicyEdge): seq<Issue>
    requires Resolved(nodes, e)
  {
    var a, b := NodeByKey(nodes, e.from), NodeByKey(nodes, e.to);
    MismatchesAt(e, Differing(SharedFields(a, b), a, b))
  }

  /** The mismatches of each edge in turn, its fields sorted. */
  function IoFindings(nodes: seq<Node>, edges: seq<PolicyEdge>): seq<Issue>
    requires forall e :: e in edges ==> Resolved(nodes, e)
  {
    if edges == [] then []
    else
      var e := edges[|edges| - 1];
      assert e in edges && forall d :: d in edges[..|edges| - 1] ==> d in edges;
      IoFindings(nodes, edges[..|edges| - 1]) + EdgeMismatches(nodes, e)
  }

  lemma {:induction false} DifferingIn(fields: seq<Field>, a: Node, b: Node, f: Field)
    ensures f in Differing(fields, a, b) <==>
            f in fields && f in a.outputContract && f in b.inputContract && a.outputContract[f] != b.inputContract[f]
  {
    if fields != [] {
      DifferingIn(fields[..|fields| - 1], a, b, f);
      assert f in fields <==> f in fields[..|fields| - 1] || f == fields[|fields| - 1];
    }
  }

  lemma {:induction false} MismatchesAtIn(e: PolicyEdge, fields: seq<Field>, s: Issue)
    ensures s in MismatchesAt(e, fields) <==>
            s.IoTypeMismatch? && s.from == e.from && s.to == e.to && s.field in fields
  {
    if s.IoTypeMismatch? && s.from == e.from && s.to == e.to && s.field in fields {
      var i :| 0 <= i < |fields| && fields[i] == s.field;
      assert MismatchesAt(e, fields)[i] == s;
    }
  }

  ghost predicate MismatchOn(nodes: seq<Node>, e: PolicyEdge, s: Issue)
    requires Resolved(nodes, e)
  {
    && s.IoTypeMismatch? && s.from == e.from && s.to == e.to
    && s.field in NodeByKey(nodes, e.from).outputContract && s.field in NodeByKey(nodes, e.to).inputContract
    && NodeByKey(nodes, e.from).outputContract[s.field] != NodeByKey(nodes, e.to).inputContract[s.field]
  }

  lemma {:induction false} EdgeMismatchesIn(nodes: seq<Node>, e: PolicyEdge, s: Issue)
    requires Resolved(nodes, e)
    ensures s in EdgeMismatches(nodes, e) <==> MismatchOn(nodes, e, s)
  {
    var a, b := NodeByKey(nodes, e.from), NodeByKey(nodes, e.to);
    MismatchesAtIn(e, Differing(SharedFields(a, b), a, b), s);
    if s.IoTypeMismatch? {
      DifferingIn(SharedFields(a, b), a, b, s.field);
      SortedElements(a.outputContract.Keys * b.inputContract.Keys);
    }
  }

  lemma {:induction false} IoFindingsIn(nodes: seq<Node>, edges: seq<PolicyEdge>, s: Issue)
    requires forall e :: e in edges ==> Resolved(nodes, e)
    ensures s in IoFindings(nodes, edges) <==> exists e :: e in edges && MismatchOn(nodes, e, s)
  {
    hide MismatchOn, Resolved, EdgeMismatches;
    if edges != [] {
      var init, e := edges[..|edges| - 1], edges[|edges| - 1];
      assert forall d :: d in edges <==> d in init || d == e;
      IoFindingsIn(nodes, init, s);
      EdgeMismatchesIn(nodes, e, s);
    }
  }

  lemma {:induction false} IoMeaning(nodes: seq<Node>, edges: seq<PolicyEdge>)
    requires forall e :: e in edges ==> Resolved(nodes, e)
    ensures forall s :: s in IoFindings(nodes, edges) <==>
                        s.IoTypeMismatch? && Mismatch(nodes, edges, s.from, s.to, s.field)
    ensures IoFindings(nodes, edges) == [] <==> forall x, y, f :: !Mismatch(nodes, edges, x, y, f)
  {
    var findings := IoFindings(nodes, edges);
    forall s ensures s in findings <==> s.IoTypeMismatch? && Mismatch(nodes, edges, s.from, s.to, s.field) {
      IoFindingsIn(nodes, edges, s);
      if s.IoTypeMismatch? && Mismatch(nodes, edges, s.from, s.to, s.field) {
        var e :| e in edges && e.from == s.from && e.to == s.to;
        assert MismatchOn(nodes, e, s);
      }
    }
    hide IoFindings, Mismatch;
    if findings != [] { assert findings[0] in findings; }
    if x, y, f :| Mismatch(nodes, edges, x, y, f) { assert IoTypeMismatch(x, y, f) in findings; }
  }

  method FieldMismatches(a: Node, b: Node) returns (fields: seq<Field>)
    ensures fields == Differing(SharedFields(a, b), a, b)
  {
    var shared := SharedFields(a, b);
    SortedElements(a.outputContract.Keys * b.inputContract.Keys);
    fields := [];
    for i := 0 to |shared|
      invariant fields == Differing(shared[..i], a, b)
    {
      var f := shared[i];
      assert shared[..i + 1][..i] == shared[..i];
      assert f in shared;
      if a.outputContract[f] != b.inputContract[f] {
        fields := fields + [f];
      }
    }
    assert shared[..|shared|] == shared;
  }

  method IoTypeMismatchIssues(nodes: seq<Node>, cleanEdges: seq<PolicyEdge>) returns (issues: seq<Issue>)
    requires forall e :: e in cleanEdges ==> Resolved(nodes, e)
    ensures issues == IoFindings(nodes, cleanEdges)
    ensures forall s :: s in issues <==> s.IoTypeMismatch? && Mismatch(nodes, cleanEdges, s.from, s.to, s.field)
    ensures issues == [] <==> forall x, y, f :: !Mismatch(nodes, cleanEdges, x, y, f)
  {
    hide Mismatch, NodeByKey, Differing, SharedFields;
    issues := [];
    for i := 0 to |cleanEdges|
      invariant forall e :: e in cleanEdges[..i] ==> Resolved(nodes, e)
      invariant issues == IoFindings(nodes, cleanEdges[..i])
    {
      var e := cleanEdges[i];
      assert e in cleanEdges;
      assert cleanEdges[..i + 1][..i] == cleanEdges[..i] && cleanEdges[..i + 1][i] == e;
      assert forall d :: d in cleanEdges[..i + 1] ==> d in cleanEdges;
      var fields := FieldMismatches(NodeByKey(nodes, e.from), NodeByKey(nodes, e.to));
      issues := issues + MismatchesAt(e, fields);
    }
    assert cleanEdges[..|cleanEdges|] == cleanEdges;
    IoMeaning(nodes, cleanEdges);
  }

  // ----- The whole check -----

  /** What a graph without findings satisfies. */
  ghost predicate CleanStructure(nodes: seq<Node>, edges: seq<PolicyEdge>) {
    var g := Shape(nodes, edges);
    && ReferencesResolve(nodes, edges)
    && Accessible(nodes, edges)
    && (forall x :: !Unbounded(nodes, g, x))
    && (forall x, y, f :: !Mismatch(nodes, CleanEdges(edges, Keys(nodes)), x, y, f))
  }

  lemma {:induction false} AdjacencyIsShape(nodes: seq<Node>, edges: seq<PolicyEdge>, outAdj: Graph, incomingAdj: Graph)
    requires Lists(outAdj, incomingAdj, Keys(nodes), AllEdges(nodes, edges))
    ensures outAdj == Shape(nodes, edges) && incomingAdj == Incoming(nodes, edges)
    ensures Total(outAdj) && outAdj.Keys == incomingAdj.Keys == Keys(nodes)
  {
    ShapeTotal(nodes, edges);
  }

  /** What each finding means. */
  ghost predicate Finding(nodes: seq<Node>, edges: seq<PolicyEdge>, s: Issue) {
    match s
    case DanglingReference(k) => DanglesAt(nodes, edges, k)
    case UnboundedCycle(_) => Justified(nodes, Shape(nodes, edges), s)
    case IoTypeMismatch(x, y, f) => Mismatch(nodes, CleanEdges(edges, Keys(nodes)), x, y, f)
    case _ => ReachabilityFinding(nodes, edges, s)
  }

  /** All findings in order, given the components in the order the search emitted them. */
  ghost function StructureFindings(nodes: seq<Node>, edges: seq<PolicyEdge>, comps: seq<seq<Key>>): seq<Issue> {
    var g := Shape(nodes, edges);
    var cleanEdges := CleanEdges(edges, Keys(nodes));
    assert forall e :: e in cleanEdges ==> Resolved(nodes, e) by {
      forall e | e in cleanEdges ensures Resolved(nodes, e) { CleanEdgesIn(edges, Keys(nodes), e); }
    }
    DanglingFindings(nodes, edges) + ReachabilityFindings(g, Incoming(nodes, edges)) + CycleFindings(nodes, g, comps)
    + IoFindings(nodes, cleanEdges)
  }

  method ValidateGraphStructure(nodes: seq<Node>, edges: seq<PolicyEdge>)
    returns (issues: seq<Issue>, ghost comps: seq<seq<Key>>)
    ensures Decomposition(Shape(nodes, edges), comps) && Emitted(comps) == Keys(nodes)
    ensures issues == StructureFindings(nodes, edges, comps)
    ensures forall s :: s in issues <==> Finding(nodes, edges, s)
    ensures issues == [] <==> CleanStructure(nodes, edges)
  {
    hide ReferencesResolve, ReachabilityFindings, Accessible, Unbounded, Mismatch, Shape, Incoming, CleanEdges, Lists;
    hide DanglesAt, DanglingFindings, IoFindings, CycleFindings, Decomposition, Emitted;
    var dangling := DanglingReferenceIssues(nodes, edges);
    var cleanEdges := CleanEdges(edges, Keys(nodes));
    forall e | e in cleanEdges ensures Resolved(nodes, e) { CleanEdgesIn(edges, Keys(nodes), e); }
    var outAdj, incomingAdj := BuildAdjacency(nodes, cleanEdges);
    AdjacencyIsShape(nodes, edges, outAdj, incomingAdj);
    var reachability := ReachabilityIssues(outAdj, incomingAdj);
    var cycles;
    cycles, comps := CycleIssues(nodes, outAdj);
    var mismatches := IoTypeMismatchIssues(nodes, cleanEdges);
    issues := dangling + reachability + cycles + mismatches;
    AccessibleIff(nodes, edges);
    forall s ensures s in issues <==> Finding(nodes, edges, s) {
      ReachabilityMeaning(nodes, edges, s);
      assert s in issues <==> s in dangling || s in reachability || s in cycles || s in mismatches;
    }
  }
}
