/** Directed graphs as adjacency lists, walks, reachability and closed sets. */
module Graphs {
  import opened Common

  // Node keys are compared only for equality and by `sorted`, so any totally
  // ordered type serves; natural numbers stand for the text keys.
  type Key = nat

  type Graph = map<Key, seq<Key>>

  predicate Edge(g: Graph, x: Key, y: Key) {
    x in g && y in g[x]
  }

  /** `p` lists the nodes visited after `x`, ending in `y`. */
  ghost predicate Walk(g: Graph, x: Key, p: seq<Key>, y: Key)
    decreases |p|
  {
    if p == [] then x == y
    else Edge(g, x, p[0]) && Walk(g, p[0], p[1..], y)
  }

  ghost predicate Reach(g: Graph, x: Key, y: Key) {
    exists p :: Walk(g, x, p, y)
  }

  /** `x` gets back to `y` by at least one edge. */
  ghost predicate ReachPlus(g: Graph, x: Key, y: Key) {
    exists z :: Edge(g, x, z) && Reach(g, z, y)
  }

  ghost predicate Mutual(g: Graph, x: Key, y: Key) {
    Reach(g, x, y) && Reach(g, y, x)
  }

  ghost predicate Acyclic(g: Graph) {
    forall x :: !ReachPlus(g, x, x)
  }

  ghost predicate Closed(g: Graph, s: set<Key>) {
    forall x, y :: x in s && Edge(g, x, y) ==> y in s
  }

  /** Every edge stays inside the keys of the graph. */
  ghost predicate Total(g: Graph) {
    Closed(g, g.Keys)
  }

  lemma {:induction false} ReachRefl(g: Graph, x: Key)
    ensures Reach(g, x, x)
  {
    assert Walk(g, x, [], x);
  }

  lemma {:induction false} ReachEdge(g: Graph, x: Key, y: Key)
    requires Edge(g, x, y)
    ensures Reach(g, x, y)
  {
    assert Walk(g, y, [y][1..], y);
    assert Walk(g, x, [y], y);
  }

  lemma {:induction false} WalkConcat(g: Graph, x: Key, p: seq<Key>, y: Key, q: seq<Key>, z: Key)
    requires Walk(g, x, p, y) && Walk(g, y, q, z)
    ensures Walk(g, x, p + q, z)
    decreases |p|
  {
    if p == [] {
      assert p + q == q;
    } else {
      WalkConcat(g, p[0], p[1..], y, q, z);
      assert (p + q)[1..] == p[1..] + q;
    }
  }

  lemma {:induction false} ReachTrans(g: Graph, x: Key, y: Key, z: Key)
    requires Reach(g, x, y) && Reach(g, y, z)
    ensures Reach(g, x, z)
  {
    var p :| Walk(g, x, p, y);
    var q :| Walk(g, y, q, z);
    WalkConcat(g, x, p, y, q, z);
  }

  lemma {:induction false} ReachPlusReach(g: Graph, x: Key, y: Key)
    requires ReachPlus(g, x, y)
    ensures Reach(g, x, y)
  {
    var z :| Edge(g, x, z) && Reach(g, z, y);
    ReachEdge(g, x, z);
    ReachTrans(g, x, z, y);
  }

  /** Reaching another node takes an edge. */
  lemma {:induction false} ReachSplit(g: Graph, x: Key, y: Key)
    requires Reach(g, x, y)
    ensures x == y || ReachPlus(g, x, y)
  {
    var p :| Walk(g, x, p, y);
    if p != [] {
      assert Walk(g, p[0], p[1..], y);
    }
  }

  lemma {:induction false} ReachThenEdge(g: Graph, x: Key, y: Key, z: Key)
    requires Reach(g, x, y) && Edge(g, y, z)
    ensures Reach(g, x, z)
  {
    ReachEdge(g, y, z);
    ReachTrans(g, x, y, z);
  }

  lemma {:induction false} ClosedWalk(g: Graph, s: set<Key>, x: Key, p: seq<Key>, y: Key)
    requires Closed(g, s) && x in s && Walk(g, x, p, y)
    ensures y in s
    decreases |p|
  {
    if p != [] {
      ClosedWalk(g, s, p[0], p[1..], y);
    }
  }

  /** Nothing reachable from a closed set lies outside it. */
  lemma {:induction false} ClosedReach(g: Graph, s: set<Key>, x: Key, y: Key)
    requires Closed(g, s) && x in s && Reach(g, x, y)
    ensures y in s
  {
    var p :| Walk(g, x, p, y);
    ClosedWalk(g, s, x, p, y);
  }

  /** The part of the graph that `x` can reach. */
  ghost function ReachSet(g: Graph, x: Key): set<Key>
  {
    set y | y in g.Keys && Reach(g, x, y)
  }

  ghost function PlusSet(g: Graph, x: Key): set<Key>
  {
    set y | y in g.Keys && ReachPlus(g, x, y)
  }

  /** A finite non-empty closed part of an acyclic graph holds a node without outgoing edges. */
  lemma {:induction false} AcyclicHasSink(g: Graph, s: set<Key>) returns (t: Key)
    requires Acyclic(g) && Closed(g, s) && s != {} && s <= g.Keys
    ensures t in s && g[t] == []
    decreases |s|
  {
    var x :| x in s;
    if g[x] == [] {
      t := x;
    } else {
      var later := s * PlusSet(g, x);
      var y := g[x][0];
      assert Edge(g, x, y);
      ReachRefl(g, y);
      assert ReachPlus(g, x, y);
      assert x !in later;
      assert Closed(g, later) by {
        forall a, b | a in later && Edge(g, a, b) ensures b in later {
          var z :| Edge(g, x, z) && Reach(g, z, a);
          ReachThenEdge(g, z, a, b);
          assert ReachPlus(g, x, b);
        }
      }
      assert |later| < |s| by {
        assert later <= s - {x};
        SubsetCard(later, s - {x});
      }
      t := AcyclicHasSink(g, later);
    }
  }
}
