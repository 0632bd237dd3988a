/**
  The mutable search of `_tarjan_sccs` (packages/algorithm/policy_validator.py:147-185):
  the closed-over counter, stack and dictionaries are fields, `strongconnect` a method.
*/
module SccSearch {
  import opened Common
  import opened Graphs
  import opened Tarjan

  lemma {:induction false} StackDistinct(s: Search)
    requires StackOrder(s)
    ensures Distinct(s.stack)
  {
    forall i, j | 0 <= i < j < |s.stack| ensures s.stack[i] != s.stack[j] {
      assert Below(s, i, j);
    }
  }

  lemma {:induction false} ScanningDistinct(g: Graph, s0: Search, s: Search, gray: set<Key>, v: Key, i: nat, low: nat)
    requires Scanning(g, s0, s, gray, v, i, low)
    ensures Distinct(s.stack)
  {
    StackDistinct(s);
  }

  /** With no call open the stack is empty, so every visited node has been emitted. */
  lemma {:induction false} SearchDone(g: Graph, s: Search)
    requires Running(g, s, {}) && s.index.Keys == g.Keys
    ensures Decomposition(g, s.result) && Emitted(s.result) == g.Keys
  {
    assert s.stack == [] by {
      if s.stack != [] {
        var a := Anchor(g, s, {}, s.stack[0]);
      }
    }
  }

  class SccFinder {
    const g: Graph
    var counter: nat
    var stack: seq<Key>
    var lowlink: map<Key, nat>
    var index: map<Key, nat>
    var onStack: map<Key, bool>
    var result: seq<seq<Key>>

    ghost function Now(): Search
      reads this
    {
      Search(index, stack, result)
    }

    /** The dictionaries agree with each other and with the stack. */
    ghost predicate Consistent()
      reads this
    {
      && index.Keys <= g.Keys
      && lowlink.Keys == index.Keys
      && Newest(Now(), counter)
      && (forall x :: x in stack <==> x in onStack && onStack[x])
    }

    constructor (g: Graph)
      ensures this.g == g && Consistent() && Now() == Search(map[], [], [])
    {
      this.g := g;
      counter := 0;
      stack, result := [], [];
      lowlink, index, onStack := map[], map[], map[];
    }

    method PopComponent(v: Key, ghost k: nat) returns (component: seq<Key>)
      requires k < |stack| && stack[k] == v && Distinct(stack)
      requires forall x :: x in stack <==> x in onStack && onStack[x]
      modifies `stack, `onStack
      ensures stack == old(stack)[..k]
      ensures component != [] && Distinct(component)
      ensures forall x :: x in component <==> x in old(stack)[k..]
      ensures forall x :: x in stack <==> x in onStack && onStack[x]
    {
      component := [];
      ghost var n := |stack|;
      while true
        invariant k < |stack| <= n && stack == old(stack)[..|stack|]
        invariant |component| == n - |stack|
        invariant forall i :: 0 <= i < |component| ==> component[i] == old(stack)[n - 1 - i]
        invariant forall x :: x in stack <==> x in onStack && onStack[x]
        decreases |stack|
      {
        var w := stack[|stack| - 1];
        ghost var before := stack;
        stack := stack[..|stack| - 1];
        assert forall x :: x in before <==> x in stack || x == w;
        assert w !in stack;
        onStack := onStack[w := false];
        component := component + [w];
        if w == v { break; }
      }
      assert forall i :: 0 <= i < n - k ==> old(stack)[k..][i] == component[n - k - 1 - i];
    }

    /** The opening statements of `strongconnect`. */
    method Open(v: Key, ghost gray: set<Key>)
      requires Consistent() && Running(g, Now(), gray) && v in g && v !in index
      requires forall a :: a in gray ==> Reach(g, a, v)
      modifies this
      ensures Consistent() && index.Keys == old(index.Keys) + {v}
      ensures v in lowlink && Scanning(g, old(Now()), Now(), gray, v, 0, lowlink[v])
      ensures lowlink == old(lowlink)[v := lowlink[v]]
    {
      hide Running, LowComplete, LowSound;
      OpenStep(g, Now(), gray, v, counter);
      index := index[v := counter];
      lowlink := lowlink[v := counter];
      counter := counter + 1;
      stack := stack + [v];
      onStack := onStack[v := true];
    }

    /** The closing statements of `strongconnect`: emit a component or leave `v` stacked. */
    method Close(v: Key, ghost s0: Search, ghost gray: set<Key>)
      requires Consistent() && v in g && v in lowlink
      requires Scanning(g, s0, Now(), gray, v, |g[v]|, lowlink[v])
      modifies `stack, `onStack, `result
      ensures Consistent()
      ensures Returned(g, s0, Now(), gray, v, lowlink[v])
    {
      hide Running, LowComplete, LowSound;
      if lowlink[v] == index[v] {
        ghost var s := Now();
        assert stack[|s0.stack|] == v;
        ScanningDistinct(g, s0, s, gray, v, |g[v]|, lowlink[v]);
        var component := PopComponent(v, |s0.stack|);
        result := result + [component];
        PopStep(g, s0, s, gray, v, component);
      } else {
        KeepStep(g, s0, Now(), gray, v, lowlink[v]);
      }
    }

    ghost predicate LowlinksKept(before: map<Key, nat>)
      reads this
    {
      forall x :: x in before ==> x in lowlink && lowlink[x] == before[x]
    }

    /** `strongconnect`: `gray` holds the nodes whose calls are still open. */
    method StrongConnect(v: Key, ghost gray: set<Key>)
      requires Total(g) && Consistent() && Running(g, Now(), gray) && v in g && v !in index
      requires forall a :: a in gray ==> Reach(g, a, v)
      modifies this
      ensures Consistent()
      ensures v in lowlink && Returned(g, old(Now()), Now(), gray, v, lowlink[v])
      ensures LowlinksKept(old(lowlink))
      decreases g.Keys - index.Keys, 0
    {
      hide Running, LowComplete, LowSound;
      ghost var s0 := Now();
      Open(v, gray);
      var i := 0;
      while i < |g[v]|
        invariant Consistent() && v in lowlink && i <= |g[v]|
        invariant Scanning(g, s0, Now(), gray, v, i, lowlink[v])
        invariant LowlinksKept(old(lowlink))
      {
        ScanSuccessor(v, i, s0, gray);
        i := i + 1;
      }
      Close(v, s0, gray);
    }

    /** The body of the successor loop. */
    method ScanSuccessor(v: Key, i: nat, ghost s0: Search, ghost gray: set<Key>)
      requires Total(g) && Consistent() && v in g && v in lowlink && i < |g[v]|
      requires Scanning(g, s0, Now(), gray, v, i, lowlink[v])
      requires forall a :: a in gray ==> Reach(g, a, v)
      modifies this
      ensures Consistent() && v in lowlink
      ensures Scanning(g, s0, Now(), gray, v, i + 1, lowlink[v])
      ensures forall x :: x in old(lowlink) && x != v ==> x in lowlink && lowlink[x] == old(lowlink)[x]
      decreases g.Keys - index.Keys, 1
    {
      hide Running, LowComplete, LowSound;
      var w := g[v][i];
      ghost var s := Now();
      if w !in index {
        forall a | a in gray + {v} ensures Reach(g, a, w) { GrayReach(g, gray, v, w, a); }
        StrongConnect(w, gray + {v});
        CallStep(g, s0, s, Now(), gray, v, i, lowlink[v], lowlink[w]);
        lowlink := lowlink[v := Min(lowlink[v], lowlink[w])];
      } else if w in onStack && onStack[w] {
        BackStep(g, s0, s, gray, v, i, lowlink[v]);
        lowlink := lowlink[v := Min(lowlink[v], index[w])];
      } else {
        SkipStep(g, s0, s, gray, v, i, lowlink[v]);
      }
    }
  }

  lemma {:induction false} GrayReach(g: Graph, gray: set<Key>, v: Key, w: Key, a: Key)
    requires forall a :: a in gray ==> Reach(g, a, v)
    requires a in gray + {v} && Edge(g, v, w)
    ensures Reach(g, a, w)
  {
    ReachRefl(g, v);
    ReachThenEdge(g, a, v, w);
  }

  method TarjanSccs(g: Graph) returns (result: seq<seq<Key>>)
    requires Total(g)
    ensures Decomposition(g, result)
    ensures Emitted(result) == g.Keys
  {
    hide Running, Returned, Decomposition, Emitted, Sorted, Total, SccFinder.LowlinksKept;
    var finder := new SccFinder(g);
    var keys := Sorted(g.Keys);
    SortedElements(g.Keys);
    EmptySearch(g);
    var i := 0;
    while i < |keys|
      invariant i <= |keys| && finder.g == g && fresh(finder)
      invariant finder.Consistent() && Running(g, finder.Now(), {})
      invariant forall j :: 0 <= j < i ==> keys[j] in finder.index
    {
      var v := keys[i];
      assert v in keys;
      if v !in finder.index {
        ghost var s := finder.Now();
        finder.StrongConnect(v, {});
        ReturnedRunning(g, s, finder.Now(), v, finder.lowlink[v]);
      }
      i := i + 1;
    }
    result := finder.result;
    assert finder.index.Keys == g.Keys by {
      forall x | x in g.Keys ensures x in finder.index { assert x in keys; }
    }
    SearchDone(g, finder.Now());
  }

  lemma {:induction false} EmptySearch(g: Graph)
    ensures Running(g, Search(map[], [], []), {})
  {
  }

  lemma {:induction false} ReturnedRunning(g: Graph, s0: Search, s: Search, v: Key, low: nat)
    requires Returned(g, s0, s, {}, v, low)
    ensures Running(g, s, {}) && Extends(s0, s) && v in s.index
  {
  }
}
