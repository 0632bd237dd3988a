/**
  Strongly connected components by Tarjan's algorithm
  (packages/algorithm/policy_validator.py, `_tarjan_sccs`).

  `Search` is a snapshot of the four mutable structures; `SccSearch` holds and updates
  them. The lemmas about snapshots carry the whole argument, the methods only call them.
*/
module Tarjan {
  import opened Common
  import opened Graphs

  datatype Search = Search(
    index: map<Key, nat>,
    stack: seq<Key>,
    result: seq<seq<Key>>
  )

  /** The nodes of the components emitted so far. */
  ghost function Emitted(result: seq<seq<Key>>): set<Key> {
    set c, x | c in result && x in c :: x
  }

  // ----- What a finished search promises -----

  /** Any two members reach each other. */
  ghost predicate StronglyConnected(g: Graph, c: seq<Key>) {
    forall x, y {:trigger Reach(g, x, y)} :: x in c && y in c ==> Reach(g, x, y)
  }

  /** A component is a non-empty, duplicate-free, strongly connected list. */
  ghost predicate Component(g: Graph, c: seq<Key>) {
    c != [] && Distinct(c) && StronglyConnected(g, c)
  }

  ghost predicate Components(g: Graph, result: seq<seq<Key>>) {
    forall c :: c in result ==> Component(g, c)
  }

  ghost predicate Apart(result: seq<seq<Key>>, i: int, j: int)
    requires 0 <= i < j < |result|
  {
    forall x :: x in result[i] ==> x !in result[j]
  }

  ghost predicate Disjoint(result: seq<seq<Key>>) {
    forall i, j {:trigger Apart(result, i, j)} :: 0 <= i < j < |result| ==> Apart(result, i, j)
  }

  /** No edge leaves a component for one emitted later. */
  ghost predicate Ordered(g: Graph, result: seq<seq<Key>>) {
    forall k :: 0 <= k <= |result| ==> Closed(g, Emitted(result[..k]))
  }

  ghost predicate Decomposition(g: Graph, result: seq<seq<Key>>) {
    Components(g, result) && Disjoint(result) && Ordered(g, result)
  }

  /** Components are exactly the classes of mutual reachability. */
  lemma {:induction false} SameComponentIffMutual(g: Graph, result: seq<seq<Key>>, i: nat, j: nat, x: Key, y: Key)
    requires Decomposition(g, result)
    requires i < |result| && j < |result| && x in result[i] && y in result[j]
    ensures i == j <==> Mutual(g, x, y)
  {
    assert Component(g, result[i]);
    if i < j {
      LaterUnreachable(g, result, i, j, x, y);
    } else if j < i {
      LaterUnreachable(g, result, j, i, y, x);
    }
  }

  /** Nothing in a component reaches a component emitted later. */
  lemma {:induction false} LaterUnreachable(g: Graph, result: seq<seq<Key>>, i: nat, j: nat, x: Key, y: Key)
    requires Decomposition(g, result)
    requires i < j < |result| && x in result[i] && y in result[j]
    ensures !Reach(g, x, y)
  {
    var sofar := result[..j];
    assert Closed(g, Emitted(sofar));
    assert result[i] == sofar[i] && result[i] in sofar;
    forall c | c in sofar ensures y !in c {
      var k :| 0 <= k < j && result[k] == c;
      assert Apart(result, k, j);
    }
    if Reach(g, x, y) {
      ClosedReach(g, Emitted(sofar), x, y);
    }
  }

  /** An edge leads into the same component or one emitted earlier. */
  lemma {:induction false} EdgesGoBack(g: Graph, result: seq<seq<Key>>, i: nat, j: nat, x: Key, y: Key)
    requires Decomposition(g, result)
    requires i < |result| && j < |result| && x in result[i] && y in result[j] && Edge(g, x, y)
    ensures j <= i
  {
    if i < j {
      LaterUnreachable(g, result, i, j, x, y);
      ReachEdge(g, x, y);
    }
  }

  // ----- The invariant of a running search; `gray` holds the open calls -----

  ghost predicate Below(s: Search, i: int, j: int)
    requires 0 <= i < j < |s.stack|
  {
    && s.stack[i] in s.index && s.stack[j] in s.index
    && s.index[s.stack[i]] < s.index[s.stack[j]]
  }

  ghost predicate StackOrder(s: Search) {
    && (forall x :: x in s.stack ==> x in s.index)
    && (forall i, j {:trigger Below(s, i, j)} :: 0 <= i < j < |s.stack| ==> Below(s, i, j))
  }

  ghost predicate Visited(s: Search) {
    && (forall x :: x in s.index <==> x in s.stack || x in Emitted(s.result))
    && (forall x :: x in s.stack ==> x !in Emitted(s.result))
  }

  /** A node whose call has returned has only visited successors. */
  ghost predicate NoBlackToWhite(g: Graph, s: Search, gray: set<Key>) {
    forall x, y :: x in s.index && x !in gray && Edge(g, x, y) ==> y in s.index
  }

  /** On the stack, every node reaches every node above it. */
  ghost predicate StackReach(g: Graph, s: Search)
    requires StackOrder(s)
  {
    forall x, y {:trigger Reach(g, x, y)} :: x in s.stack && y in s.stack && s.index[x] <= s.index[y] ==> Reach(g, x, y)
  }

  ghost predicate Anchored(g: Graph, s: Search, gray: set<Key>, x: Key)
    requires StackOrder(s) && x in s.stack
  {
    exists a :: a in gray && a in s.stack && s.index[a] <= s.index[x] && Reach(g, x, a)
  }

  ghost predicate Running(g: Graph, s: Search, gray: set<Key>) {
    && StackOrder(s)
    && Visited(s)
    && (forall x :: x in gray ==> x in s.stack)
    && NoBlackToWhite(g, s, gray)
    && StackReach(g, s)
    && (forall x {:trigger Anchored(g, s, gray, x)} :: x in s.stack ==> Anchored(g, s, gray, x))
    && Decomposition(g, s.result)
  }

  /** `t` is a later snapshot than `s`: nothing visited, stacked or emitted is lost. */
  ghost predicate Extends(s: Search, t: Search) {
    && (forall x :: x in s.index ==> x in t.index && t.index[x] == s.index[x])
    && s.stack <= t.stack
    && s.result <= t.result
  }

  /** `low` names a stacked node that `v` reaches. */
  ghost predicate LowSound(g: Graph, s: Search, v: Key, low: nat) {
    exists y :: y in s.stack && y in s.index && s.index[y] == low && Reach(g, v, y)
  }

  /** No edge of a node above `floor` goes below `low` on the stack. */
  ghost predicate LowComplete(g: Graph, s: Search, floor: nat, low: nat)
    requires StackOrder(s)
  {
    forall x, y :: x in s.stack && s.index[x] >= floor && Edge(g, x, y) && y in s.stack ==> s.index[y] >= low
  }

  ghost predicate Newest(s: Search, n: nat) {
    forall x :: x in s.index ==> s.index[x] < n
  }

  /** `v` is the first node visited after `s0`. */
  ghost predicate Since(s0: Search, s: Search, v: Key)
    requires v in s.index
  {
    && Newest(s0, s.index[v])
    && (forall x :: x in s.index && x !in s0.index ==> s.index[x] >= s.index[v])
  }

  /** The state at the top of the successor loop of `v`, with `i` successors handled. */
  ghost predicate Scanning(g: Graph, s0: Search, s: Search, gray: set<Key>, v: Key, i: nat, low: nat) {
    && v in g && i <= |g[v]| && v in s.index && v !in s0.index && v !in gray
    && Running(g, s, gray + {v})
    && Extends(s0, s)
    && s0.stack + [v] <= s.stack
    && Since(s0, s, v)
    && (forall a :: a in gray ==> a in s0.index)
    && low <= s.index[v]
    && LowSound(g, s, v, low)
    && LowComplete(g, s, s.index[v] + 1, low)
    && (forall j :: 0 <= j < i ==> g[v][j] in s.index)
    && (forall j :: 0 <= j < i && g[v][j] in s.stack ==> s.index[g[v][j]] >= low)
  }

  /** The state after the call on `v` has returned with lowlink `low`. */
  ghost predicate Returned(g: Graph, s0: Search, s: Search, gray: set<Key>, v: Key, low: nat) {
    && Running(g, s, gray)
    && Extends(s0, s)
    && v in s.index && v !in s0.index
    && Since(s0, s, v)
    && low <= s.index[v]
    && LowComplete(g, s, s.index[v], low)
    && (if v in s.stack then LowSound(g, s, v, low) else low == s.index[v])
  }

  // ----- Steps -----

  /** Opening the call on `v`: index it and push it. */
  ghost function Opened(s: Search, v: Key, n: nat): Search {
    Search(s.index[v := n], s.stack + [v], s.result)
  }

  lemma {:induction false} OpenOrder(s: Search, v: Key, n: nat)
    requires StackOrder(s) && Visited(s) && v !in s.index && Newest(s, n)
    ensures StackOrder(Opened(s, v, n)) && Visited(Opened(s, v, n))
  {
    var t := Opened(s, v, n);
    assert forall x :: x in t.stack <==> x in s.stack || x == v;
    forall i, j | 0 <= i < j < |t.stack| ensures Below(t, i, j) {
      assert t.stack[i] == s.stack[i] && s.stack[i] in s.stack;
      if j < |s.stack| { assert Below(s, i, j); }
    }
  }

  lemma {:induction false} Anchor(g: Graph, s: Search, gray: set<Key>, x: Key) returns (a: Key)
    requires StackOrder(s) && x in s.stack && Anchored(g, s, gray, x)
    ensures a in gray && a in s.stack && s.index[a] <= s.index[x] && Reach(g, x, a)
  {
    a :| a in gray && a in s.stack && s.index[a] <= s.index[x] && Reach(g, x, a);
  }

  lemma {:induction false} OpenReach(g: Graph, s: Search, gray: set<Key>, v: Key, n: nat)
    requires Running(g, s, gray) && v !in s.index && Newest(s, n)
    requires forall a :: a in gray ==> Reach(g, a, v)
    requires StackOrder(Opened(s, v, n))
    ensures StackReach(g, Opened(s, v, n))
  {
    var t := Opened(s, v, n);
    forall x, y | x in t.stack && y in t.stack && t.index[x] <= t.index[y]
      ensures Reach(g, x, y)
    {
      if x == v {
        assert y == v;
        ReachRefl(g, v);
      } else if y == v {
        var a := Anchor(g, s, gray, x);
        ReachTrans(g, x, a, v);
      }
    }
  }

  lemma {:induction false} OpenAnchors(g: Graph, s: Search, gray: set<Key>, v: Key, n: nat)
    requires Running(g, s, gray) && v !in s.index && Newest(s, n)
    requires StackOrder(Opened(s, v, n))
    ensures forall x :: x in Opened(s, v, n).stack ==> Anchored(g, Opened(s, v, n), gray + {v}, x)
  {
    var t := Opened(s, v, n);
    assert v in t.stack;
    ReachRefl(g, v);
    forall x | x in t.stack ensures Anchored(g, t, gray + {v}, x) {
      if x != v {
        var a := Anchor(g, s, gray, x);
        assert a in gray + {v} && a in t.stack && t.index[a] <= t.index[x];
      }
    }
  }

  lemma {:induction false} OpenStep(g: Graph, s: Search, gray: set<Key>, v: Key, n: nat)
    requires Running(g, s, gray) && v in g && v !in s.index && Newest(s, n)
    requires forall a :: a in gray ==> Reach(g, a, v)
    ensures Scanning(g, s, Opened(s, v, n), gray, v, 0, n)
  {
    var t := Opened(s, v, n);
    assert Running(g, t, gray + {v}) by {
      OpenOrder(s, v, n);
      OpenReach(g, s, gray, v, n);
      OpenAnchors(g, s, gray, v, n);
      assert NoBlackToWhite(g, t, gray + {v});
    }
    assert LowSound(g, t, v, n) by {
      assert v in t.stack;
      ReachRefl(g, v);
    }
    assert LowComplete(g, t, n + 1, n);
    assert Extends(s, t);
    assert v !in gray;
  }

  // ----- One successor `w` of `v` -----

  lemma {:induction false} SkipStep(g: Graph, s0: Search, s: Search, gray: set<Key>, v: Key, i: nat, low: nat)
    requires Scanning(g, s0, s, gray, v, i, low) && i < |g[v]|
    requires g[v][i] in s.index && g[v][i] !in s.stack
    ensures Scanning(g, s0, s, gray, v, i + 1, low)
  {
  }

  lemma {:induction false} LowerSound(g: Graph, s: Search, v: Key, a: nat, b: nat)
    requires LowSound(g, s, v, a) && LowSound(g, s, v, b)
    ensures LowSound(g, s, v, Min(a, b))
  {
  }

  lemma {:induction false} BackStep(g: Graph, s0: Search, s: Search, gray: set<Key>, v: Key, i: nat, low: nat)
    requires Scanning(g, s0, s, gray, v, i, low) && i < |g[v]|
    requires g[v][i] in s.stack
    ensures Scanning(g, s0, s, gray, v, i + 1, Min(low, s.index[g[v][i]]))
  {
    var w := g[v][i];
    assert LowSound(g, s, v, s.index[w]) by {
      ReachEdge(g, v, w);
    }
    LowerSound(g, s, v, low, s.index[w]);
  }

  lemma {:induction false} EmittedGrows(r: seq<seq<Key>>, q: seq<seq<Key>>)
    requires r <= q
    ensures Emitted(r) <= Emitted(q)
  {
    forall x | x in Emitted(r) ensures x in Emitted(q) {
      var c :| c in r && x in c;
      assert c in q;
    }
  }

  /** A stacked node that was already visited was already stacked. */
  lemma {:induction false} OldOnStack(s: Search, t: Search, x: Key)
    requires Visited(s) && Visited(t) && Extends(s, t)
    requires x in s.index && x in t.stack
    ensures x in s.stack
  {
    EmittedGrows(s.result, t.result);
  }

  lemma {:induction false} CallLowComplete(g: Graph, s0: Search, s: Search, t: Search, gray: set<Key>, v: Key, i: nat,
                                           low: nat, lw: nat)
    requires Scanning(g, s0, s, gray, v, i, low) && i < |g[v]|
    requires Returned(g, s, t, gray + {v}, g[v][i], lw)
    ensures v in t.index && LowComplete(g, t, t.index[v] + 1, Min(low, lw))
  {
    var w := g[v][i];
    forall x, y | x in t.stack && t.index[x] >= t.index[v] + 1 && Edge(g, x, y) && y in t.stack
      ensures t.index[y] >= Min(low, lw)
    {
      if t.index[x] < t.index[w] {
        assert x in s.index;
        OldOnStack(s, t, x);
        assert x !in gray + {v};
        assert y in s.index;
        OldOnStack(s, t, y);
      }
    }
  }

  lemma {:induction false} CallStep(g: Graph, s0: Search, s: Search, t: Search, gray: set<Key>, v: Key, i: nat,
                                    low: nat, lw: nat)
    requires Scanning(g, s0, s, gray, v, i, low) && i < |g[v]|
    requires Returned(g, s, t, gray + {v}, g[v][i], lw)
    ensures Scanning(g, s0, t, gray, v, i + 1, Min(low, lw))
  {
    hide Running, LowComplete, LowSound, Min;
    CallLowComplete(g, s0, s, t, gray, v, i, low, lw);
    CallLowSound(g, s, t, gray, v, g[v][i], low, lw);
    CallSuccessors(g, s0, s, t, gray, v, i, low, lw);
    MinBelow(low, lw);
  }

  lemma {:induction false} MinBelow(a: nat, b: nat)
    ensures Min(a, b) <= a && Min(a, b) <= b
  {
  }

  lemma {:induction false} CallLowSound(g: Graph, s: Search, t: Search, gray: set<Key>, v: Key, w: Key, low: nat,
                                        lw: nat)
    requires LowSound(g, s, v, low) && Edge(g, v, w)
    requires Returned(g, s, t, gray + {v}, w, lw)
    requires v in s.index && low <= s.index[v]
    ensures LowSound(g, t, v, Min(low, lw))
  {
    if low <= lw {
      var y :| y in s.stack && y in s.index && s.index[y] == low && Reach(g, v, y);
      assert y in t.stack;
    } else {
      assert v in s.index && w !in s.index && w in t.stack;
      var y :| y in t.stack && y in t.index && t.index[y] == lw && Reach(g, w, y);
      ReachEdge(g, v, w);
      ReachTrans(g, v, w, y);
    }
  }

  /** The successors handled so far are visited, and none lies below the new `low`. */
  lemma {:induction false} CallSuccessors(g: Graph, s0: Search, s: Search, t: Search, gray: set<Key>, v: Key, i: nat,
                                          low: nat, lw: nat)
    requires Scanning(g, s0, s, gray, v, i, low) && i < |g[v]|
    requires Returned(g, s, t, gray + {v}, g[v][i], lw)
    ensures forall j :: 0 <= j < i + 1 ==>
              g[v][j] in t.index && (g[v][j] in t.stack ==> t.index[g[v][j]] >= Min(low, lw))
  {
    hide StackOrder, Visited, NoBlackToWhite, StackReach, Anchored, Decomposition, LowComplete, LowSound;
    forall j | 0 <= j < i + 1 ensures g[v][j] in t.index && (g[v][j] in t.stack ==> t.index[g[v][j]] >= Min(low, lw)) {
      if g[v][j] in t.stack {
        if j < i {
          OldOnStack(s, t, g[v][j]);
        } else {
          assert Edge(g, v, g[v][i]);
          CallTarget(g, s, t, gray, v, g[v][i], lw);
        }
      }
    }
  }

  lemma {:induction false} CallTarget(g: Graph, s: Search, t: Search, gray: set<Key>, v: Key, w: Key, lw: nat)
    requires Returned(g, s, t, gray + {v}, w, lw) && w in t.stack
    ensures t.index[w] >= lw
  {
  }

  // ----- Closing the call on `v` -----

  /** Cutting the stack at `v` cuts it by visiting index. */
  lemma {:induction false} Segment(s: Search, k: nat, v: Key)
    requires StackOrder(s) && k < |s.stack| && s.stack[k] == v
    ensures forall x :: x in s.stack[k..] <==> x in s.stack && s.index[x] >= s.index[v]
    ensures forall x :: x in s.stack[..k] <==> x in s.stack && s.index[x] < s.index[v]
    ensures forall x :: x in s.stack && s.index[x] == s.index[v] ==> x == v
  {
    forall i | 0 <= i < |s.stack|
      ensures s.stack[i] in s.index && (i < k <==> s.index[s.stack[i]] < s.index[v])
      ensures i != k ==> s.index[s.stack[i]] != s.index[v]
    {
      if i < k { assert Below(s, i, k); }
      if k < i { assert Below(s, k, i); }
    }
    forall x ensures x in s.stack[k..] <==> x in s.stack && s.index[x] >= s.index[v] {
      if x in s.stack {
        var i :| 0 <= i < |s.stack| && s.stack[i] == x;
        if i >= k { assert s.stack[k..][i - k] == x; }
      }
    }
    forall x ensures x in s.stack[..k] <==> x in s.stack && s.index[x] < s.index[v] {
      if x in s.stack {
        var i :| 0 <= i < |s.stack| && s.stack[i] == x;
        if i < k { assert s.stack[..k][i] == x; }
      }
    }
  }

  lemma {:induction false} CloseColors(g: Graph, s0: Search, s: Search, gray: set<Key>, v: Key, low: nat)
    requires v in g && Scanning(g, s0, s, gray, v, |g[v]|, low)
    ensures NoBlackToWhite(g, s, gray)
  {
    forall x, y | x in s.index && x !in gray && Edge(g, x, y) ensures y in s.index {
      if x == v {
        var j :| 0 <= j < |g[v]| && g[v][j] == y;
      }
    }
  }

  /** Nothing from `v` upward has an edge below `low`. */
  lemma {:induction false} CloseLow(g: Graph, s0: Search, s: Search, gray: set<Key>, v: Key, low: nat)
    requires v in g && Scanning(g, s0, s, gray, v, |g[v]|, low)
    ensures LowComplete(g, s, s.index[v], low)
  {
    Segment(s, |s0.stack|, v);
    forall x, y | x in s.stack && s.index[x] >= s.index[v] && Edge(g, x, y) && y in s.stack
      ensures s.index[y] >= low
    {
      if s.index[x] == s.index[v] {
        assert x == v;
        var j :| 0 <= j < |g[v]| && g[v][j] == y;
      }
    }
  }

  lemma {:induction false} KeepAnchor(g: Graph, s: Search, gray: set<Key>, v: Key, low: nat, x: Key)
    requires Running(g, s, gray + {v}) && v in s.stack
    requires LowSound(g, s, v, low) && low < s.index[v]
    requires x in s.stack
    ensures Anchored(g, s, gray, x)
  {
    var a := Anchor(g, s, gray + {v}, x);
    if a == v {
      var y :| y in s.stack && y in s.index && s.index[y] == low && Reach(g, v, y);
      var b := Anchor(g, s, gray + {v}, y);
      assert b in gray;
      ReachTrans(g, x, v, y);
      ReachTrans(g, x, y, b);
    } else {
      assert a in gray;
    }
  }

  lemma {:induction false} KeepStep(g: Graph, s0: Search, s: Search, gray: set<Key>, v: Key, low: nat)
    requires v in g && Scanning(g, s0, s, gray, v, |g[v]|, low)
    requires low < s.index[v]
    ensures Returned(g, s0, s, gray, v, low)
  {
    assert v in s.stack by { assert s.stack[|s0.stack|] == v; }
    assert Running(g, s, gray) by {
      CloseColors(g, s0, s, gray, v, low);
      forall x | x in s.stack ensures Anchored(g, s, gray, x) {
        KeepAnchor(g, s, gray, v, low, x);
      }
    }
    CloseLow(g, s0, s, gray, v, low);
  }

  /** Popping `v` and everything above it as one component. */
  ghost function Popped(s: Search, k: nat, c: seq<Key>): Search
    requires k <= |s.stack|
  {
    Search(s.index, s.stack[..k], s.result + [c])
  }

  ghost predicate PoppedFrom(s: Search, k: nat, c: seq<Key>)
    requires k <= |s.stack|
  {
    && Distinct(c) && c != []
    && (forall x :: x in c <==> x in s.stack[k..])
  }

  lemma {:induction false} EmittedAppend(r: seq<seq<Key>>, c: seq<Key>)
    ensures Emitted(r + [c]) == Emitted(r) + (set x | x in c)
  {
    forall x ensures x in Emitted(r + [c]) <==> x in Emitted(r) || x in c {
      if x in Emitted(r) {
        var d :| d in r && x in d;
        assert d in r + [c];
      }
      if x in c { assert c in r + [c]; }
    }
  }

  lemma {:induction false} PopClosed(g: Graph, s0: Search, s: Search, gray: set<Key>, v: Key, c: seq<Key>)
    requires v in g && v in s.index && Scanning(g, s0, s, gray, v, |g[v]|, s.index[v])
    requires |s0.stack| <= |s.stack| && PoppedFrom(s, |s0.stack|, c)
    ensures Closed(g, Emitted(s.result + [c]))
  {
    EmittedAppend(s.result, c);
    CloseColors(g, s0, s, gray, v, s.index[v]);
    CloseLow(g, s0, s, gray, v, s.index[v]);
    Segment(s, |s0.stack|, v);
    assert Closed(g, Emitted(s.result)) by {
      assert s.result[..|s.result|] == s.result;
    }
    forall x, y | x in Emitted(s.result + [c]) && Edge(g, x, y) ensures y in Emitted(s.result + [c]) {
      if x !in Emitted(s.result) {
        assert x in s.stack && s.index[x] >= s.index[v];
        assert x !in gray;
        assert y in s.index;
      }
    }
  }

  lemma {:induction false} PopConnected(g: Graph, s0: Search, s: Search, gray: set<Key>, v: Key, c: seq<Key>)
    requires v in g && v in s.index && Scanning(g, s0, s, gray, v, |g[v]|, s.index[v])
    requires |s0.stack| <= |s.stack| && PoppedFrom(s, |s0.stack|, c)
    ensures StronglyConnected(g, c)
  {
    Segment(s, |s0.stack|, v);
    assert v in s.stack by { assert s.stack[|s0.stack|] == v; }
    PopClosed(g, s0, s, gray, v, c);
    EmittedAppend(s.result, c);
    forall x | x in c ensures Mutual(g, x, v) {
      assert x in s.stack && s.index[v] <= s.index[x];
      var a := Anchor(g, s, gray + {v}, x);
      ClosedReach(g, Emitted(s.result + [c]), x, a);
      assert a in c;
      assert a == v;
      assert Reach(g, v, x);
    }
    forall x, y | x in c && y in c ensures Reach(g, x, y) {
      assert Mutual(g, x, v) && Mutual(g, y, v);
      ReachTrans(g, x, v, y);
    }
  }

  lemma {:induction false} PopDecomposition(g: Graph, s0: Search, s: Search, gray: set<Key>, v: Key, c: seq<Key>)
    requires v in g && v in s.index && Scanning(g, s0, s, gray, v, |g[v]|, s.index[v])
    requires |s0.stack| <= |s.stack| && PoppedFrom(s, |s0.stack|, c)
    ensures Decomposition(g, s.result + [c])
  {
    var r := s.result + [c];
    PopConnected(g, s0, s, gray, v, c);
    PopClosed(g, s0, s, gray, v, c);
    forall k | 0 <= k <= |r| ensures Closed(g, Emitted(r[..k])) {
      if k <= |s.result| {
        assert r[..k] == s.result[..k];
      } else {
        assert r[..k] == r;
      }
    }
    forall i, j | 0 <= i < j < |r| ensures Apart(r, i, j) {
      if j < |s.result| {
        assert Apart(s.result, i, j);
      } else {
        assert r[i] == s.result[i] && r[i] in s.result;
        forall x | x in r[i] ensures x !in c {
          assert x in Emitted(s.result);
        }
      }
    }
  }

  lemma {:induction false} PopShape(s: Search, k: nat, v: Key, c: seq<Key>)
    requires StackOrder(s) && Visited(s) && k < |s.stack| && s.stack[k] == v
    requires PoppedFrom(s, k, c)
    ensures StackOrder(Popped(s, k, c)) && Visited(Popped(s, k, c))
  {
    var t := Popped(s, k, c);
    Segment(s, k, v);
    EmittedAppend(s.result, c);
    forall i, j | 0 <= i < j < |t.stack| ensures Below(t, i, j) { assert Below(s, i, j); }
    forall x | x in t.stack ensures x !in Emitted(t.result) { assert x in s.stack; }
    forall x | x in s.index ensures x in t.stack || x in Emitted(t.result) {
      if x in s.stack { assert x in s.stack[..k] || x in s.stack[k..]; }
    }
  }

  lemma {:induction false} PopAnchors(g: Graph, s0: Search, s: Search, gray: set<Key>, v: Key, c: seq<Key>)
    requires v in g && v in s.index && Scanning(g, s0, s, gray, v, |g[v]|, s.index[v])
    requires |s0.stack| <= |s.stack| && StackOrder(Popped(s, |s0.stack|, c))
    ensures forall a :: a in gray ==> a in Popped(s, |s0.stack|, c).stack
    ensures forall x :: x in Popped(s, |s0.stack|, c).stack ==> Anchored(g, Popped(s, |s0.stack|, c), gray, x)
  {
    var t := Popped(s, |s0.stack|, c);
    Segment(s, |s0.stack|, v);
    forall x | x in t.stack ensures Anchored(g, t, gray, x) {
      var a := Anchor(g, s, gray + {v}, x);
      assert a in gray && a in t.stack;
    }
  }

  lemma {:induction false} PopRunning(g: Graph, s0: Search, s: Search, gray: set<Key>, v: Key, c: seq<Key>)
    requires v in g && v in s.index && Scanning(g, s0, s, gray, v, |g[v]|, s.index[v])
    requires |s0.stack| <= |s.stack| && PoppedFrom(s, |s0.stack|, c)
    ensures Running(g, Popped(s, |s0.stack|, c), gray)
  {
    var k := |s0.stack|;
    var t := Popped(s, k, c);
    assert StackOrder(t) && Visited(t) by { PopShape(s, k, v, c); }
    assert NoBlackToWhite(g, t, gray) by { CloseColors(g, s0, s, gray, v, s.index[v]); }
    assert Decomposition(g, t.result) by { PopDecomposition(g, s0, s, gray, v, c); }
    assert StackReach(g, t) by {
      forall x, y | x in t.stack && y in t.stack && t.index[x] <= t.index[y] ensures Reach(g, x, y) {
        assert x in s.stack && y in s.stack;
      }
    }
    PopAnchors(g, s0, s, gray, v, c);
  }

  lemma {:induction false} PopStep(g: Graph, s0: Search, s: Search, gray: set<Key>, v: Key, c: seq<Key>)
    requires v in g && v in s.index && Scanning(g, s0, s, gray, v, |g[v]|, s.index[v])
    requires |s0.stack| <= |s.stack| && PoppedFrom(s, |s0.stack|, c)
    ensures Returned(g, s0, Popped(s, |s0.stack|, c), gray, v, s.index[v])
  {
    var t := Popped(s, |s0.stack|, c);
    assert Running(g, t, gray) by { PopRunning(g, s0, s, gray, v, c); }
    assert t.stack == s0.stack;
    assert Extends(s0, t);
    Segment(s, |s0.stack|, v);
  }
}
