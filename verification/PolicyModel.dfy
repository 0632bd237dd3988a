/** Nodes and edges of a policy graph, as the validator and the simulator read them. */
module PolicyModel {
  import opened Common
  import opened Graphs

  type Label = nat
  type Field = nat
  type Value = nat
  type Role = nat

  /** The empty text, which is a label but counts as none where the code tests for truth. */
  const EMPTY_LABEL: Label := 0

  datatype NodeType = Human | Rule | Gate | DataQuality | Ml | Hybrid

  /** `None` stands for a missing key or a value that is not an object. */
  datatype TestCase = TestCase(
    input: Option<map<Field, Value>>,
    expectedOutput: Option<map<Field, Value>>,
    covers: Option<Label>
  )

  /** `maxAttempts` is the integer `max_attempts` of the retry policy, if there is one. */
  datatype Node = Node(
    key: Key,
    nodeType: NodeType,
    fallback: Option<Key>,
    maxAttempts: Option<int>,
    inputContract: map<Field, Value>,
    outputContract: map<Field, Value>,
    testCases: seq<TestCase>,
    reasonCodes: seq<nat>,
    financialImpact: bool,
    requiredRole: Option<Role>
  )

  datatype PolicyEdge = PolicyEdge(from: Key, to: Key, condition: Option<Label>)

  function Keys(nodes: seq<Node>): set<Key> {
    set n | n in nodes :: n.key
  }

  /** `{n["node_key"]: n for n in nodes}[key]`: the last node with the key. */
  function NodeByKey(nodes: seq<Node>, key: Key): (n: Node)
    requires key in Keys(nodes)
    ensures n in nodes && n.key == key
  {
    var last := nodes[|nodes| - 1];
    if last.key == key then last
    else
      assert nodes == nodes[..|nodes| - 1] + [last];
      NodeByKey(nodes[..|nodes| - 1], key)
  }

  lemma {:induction false} LastWithKey(nodes: seq<Node>, i: nat)
    requires i < |nodes| && forall j :: i < j < |nodes| ==> nodes[j].key != nodes[i].key
    ensures nodes[i].key in Keys(nodes) && NodeByKey(nodes, nodes[i].key) == nodes[i]
  {
    var n := |nodes| - 1;
    assert nodes[i] in nodes;
    if i < n {
      LastWithKey(nodes[..n], i);
      assert nodes == nodes[..n] + [nodes[n]];
    }
  }

  // ----- The shape of the graph: explicit edges plus fallbacks -----

  predicate Resolved(nodes: seq<Node>, e: PolicyEdge) {
    e.from in Keys(nodes) && e.to in Keys(nodes)
  }

  /** The targets of the edges out of `k`, in list order. */
  function Targets(edges: seq<PolicyEdge>, k: Key): seq<Key> {
    if edges == [] then []
    else
      var e := edges[|edges| - 1];
      Targets(edges[..|edges| - 1], k) + (if e.from == k then [e.to] else [])
  }

  function Sources(edges: seq<PolicyEdge>, k: Key): seq<Key> {
    if edges == [] then []
    else
      var e := edges[|edges| - 1];
      Sources(edges[..|edges| - 1], k) + (if e.to == k then [e.from] else [])
  }

  /** The resolvable fallbacks as implicit edges. */
  function FallbackEdges(nodes: seq<Node>, keys: set<Key>): seq<PolicyEdge> {
    if nodes == [] then []
    else
      var n := nodes[|nodes| - 1];
      FallbackEdges(nodes[..|nodes| - 1], keys) +
      (if n.fallback.Some? && n.fallback.value in keys then [PolicyEdge(n.key, n.fallback.value, None)] else [])
  }

  function CleanEdges(edges: seq<PolicyEdge>, keys: set<Key>): seq<PolicyEdge> {
    if edges == [] then []
    else
      var e := edges[|edges| - 1];
      CleanEdges(edges[..|edges| - 1], keys) + (if e.from in keys && e.to in keys then [e] else [])
  }

  function AllEdges(nodes: seq<Node>, edges: seq<PolicyEdge>): seq<PolicyEdge> {
    CleanEdges(edges, Keys(nodes)) + FallbackEdges(nodes, Keys(nodes))
  }

  function Shape(nodes: seq<Node>, edges: seq<PolicyEdge>): Graph {
    map k | k in Keys(nodes) :: Targets(AllEdges(nodes, edges), k)
  }

  function Incoming(nodes: seq<Node>, edges: seq<PolicyEdge>): Graph {
    map k | k in Keys(nodes) :: Sources(AllEdges(nodes, edges), k)
  }

  lemma {:induction false} TargetsIn(edges: seq<PolicyEdge>, k: Key, y: Key)
    ensures y in Targets(edges, k) <==> exists e :: e in edges && e.from == k && e.to == y
  {
    if edges != [] {
      var e := edges[|edges| - 1];
      TargetsIn(edges[..|edges| - 1], k, y);
      assert forall d :: d in edges <==> d in edges[..|edges| - 1] || d == e;
    }
  }

  lemma {:induction false} SourcesIn(edges: seq<PolicyEdge>, k: Key, x: Key)
    ensures x in Sources(edges, k) <==> exists e :: e in edges && e.to == k && e.from == x
  {
    if edges != [] {
      var e := edges[|edges| - 1];
      SourcesIn(edges[..|edges| - 1], k, x);
      assert forall d :: d in edges <==> d in edges[..|edges| - 1] || d == e;
    }
  }

  lemma {:induction false} CleanEdgesIn(edges: seq<PolicyEdge>, keys: set<Key>, e: PolicyEdge)
    ensures e in CleanEdges(edges, keys) <==> e in edges && e.from in keys && e.to in keys
  {
    if edges != [] {
      CleanEdgesIn(edges[..|edges| - 1], keys, e);
      assert e in edges <==> e in edges[..|edges| - 1] || e == edges[|edges| - 1];
    }
  }

  lemma {:induction false} FallbackEdgesIn(nodes: seq<Node>, keys: set<Key>, e: PolicyEdge)
    ensures e in FallbackEdges(nodes, keys) <==>
            e.condition == None && e.to in keys && exists n :: n in nodes && n.key == e.from && n.fallback == Some(e.to)
  {
    if nodes != [] {
      FallbackEdgesIn(nodes[..|nodes| - 1], keys, e);
      assert forall n :: n in nodes <==> n in nodes[..|nodes| - 1] || n == nodes[|nodes| - 1];
    }
  }

  ghost predicate ExplicitEdge(edges: seq<PolicyEdge>, x: Key, y: Key) {
    exists e :: e in edges && e.from == x && e.to == y
  }

  ghost predicate Fallback(nodes: seq<Node>, x: Key, y: Key) {
    exists n :: n in nodes && n.key == x && n.fallback == Some(y)
  }

  /** What an edge of the shape is. */
  lemma {:induction false} ShapeEdge(nodes: seq<Node>, edges: seq<PolicyEdge>, x: Key, y: Key)
    ensures Edge(Shape(nodes, edges), x, y) <==>
            x in Keys(nodes) && y in Keys(nodes) && (ExplicitEdge(edges, x, y) || Fallback(nodes, x, y))
    ensures y in Incoming(nodes, edges) && x in Incoming(nodes, edges)[y] <==> Edge(Shape(nodes, edges), x, y)
  {
    var keys := Keys(nodes);
    var all := AllEdges(nodes, edges);
    TargetsIn(all, x, y);
    SourcesIn(all, y, x);
    assert (exists e :: e in all && e.from == x && e.to == y) <==>
           x in keys && y in keys && (ExplicitEdge(edges, x, y) || Fallback(nodes, x, y)) by {
      if e :| e in all && e.from == x && e.to == y {
        CleanEdgesIn(edges, keys, e);
        FallbackEdgesIn(nodes, keys, e);
      }
      if x in keys && y in keys && ExplicitEdge(edges, x, y) {
        var e :| e in edges && e.from == x && e.to == y;
        CleanEdgesIn(edges, keys, e);
        assert e in all;
      }
      if x in keys && y in keys && Fallback(nodes, x, y) {
        FallbackEdgesIn(nodes, keys, PolicyEdge(x, y, None));
        assert PolicyEdge(x, y, None) in all;
      }
    }
  }

  lemma {:induction false} ShapeTotal(nodes: seq<Node>, edges: seq<PolicyEdge>)
    ensures Total(Shape(nodes, edges))
  {
    forall x, y | Edge(Shape(nodes, edges), x, y) ensures y in Keys(nodes) {
      ShapeEdge(nodes, edges, x, y);
    }
  }
}
