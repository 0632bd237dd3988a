/** Shared value types and the ordered listing of a finite set (Python's `sorted(set)`). */
module Common {

  datatype Option<+T> = None | Some(value: T)

  ghost predicate Increasing(s: seq<nat>) {
    forall i, j :: 0 <= i < j < |s| ==> s[i] < s[j]
  }

  ghost predicate IsLeast(m: nat, s: set<nat>) {
    m in s && forall k :: k in s ==> m <= k
  }

  /** A non-empty set of natural numbers has a least element. */
  lemma {:induction false} LeastExists(s: set<nat>)
    requires s != {}
    ensures exists m :: IsLeast(m, s)
  {
    var x :| x in s;
    if s - {x} != {} {
      LeastExists(s - {x});
      var m :| IsLeast(m, s - {x});
      forall k | k in s ensures Min(x, m) <= k {
        assert k == x || k in s - {x};
      }
      assert IsLeast(Min(x, m), s);
    } else {
      forall k | k in s ensures x <= k {
        assert k == x || k in s - {x};
      }
      assert IsLeast(x, s);
    }
  }

  function Least(s: set<nat>): (m: nat)
    requires s != {}
    ensures IsLeast(m, s)
  {
    LeastExists(s);
    assert exists m :: m in s && forall k :: k in s ==> m <= k by {
      var m :| IsLeast(m, s);
    }
    var m :| m in s && forall k :: k in s ==> m <= k;
    m
  }

  /** The elements of a set in increasing order: Python's `sorted`. */
  function Sorted(s: set<nat>): seq<nat> {
    if s == {} then [] else [Least(s)] + Sorted(s - {Least(s)})
  }

  lemma {:induction false} SortedCons(s: set<nat>, m: nat, rest: seq<nat>)
    requires IsLeast(m, s) && Increasing(rest) && |rest| == |s - {m}|
    requires forall k :: k in rest <==> k in s - {m}
    ensures forall k :: k in [m] + rest <==> k in s
    ensures |[m] + rest| == |s|
    ensures Increasing([m] + rest)
  {
    forall k ensures k in [m] + rest <==> k in s {
      assert k in [m] + rest <==> k == m || k in rest;
    }
    forall j | 0 <= j < |rest| ensures m < rest[j] {
      assert rest[j] in rest && rest[j] in s - {m};
    }
  }

  lemma {:induction false} SortedElements(s: set<nat>)
    ensures forall k :: k in Sorted(s) <==> k in s
    ensures |Sorted(s)| == |s|
    ensures Increasing(Sorted(s))
  {
    hide Increasing;
    if s != {} {
      SortedElements(s - {Least(s)});
      SortedCons(s, Least(s), Sorted(s - {Least(s)}));
    } else {
      EmptyIncreasing();
    }
  }

  lemma {:induction false} EmptyIncreasing()
    ensures Increasing([])
  {
  }

  function Min(a: nat, b: nat): nat { if b < a then b else a }

  lemma {:induction false} SubsetCard<T>(a: set<T>, b: set<T>)
    requires a <= b
    ensures |a| <= |b|
    ensures |a| == |b| ==> a == b
    decreases a
  {
    if a != {} {
      var x :| x in a;
      SubsetCard(a - {x}, b - {x});
      if |a| == |b| {
        assert a == (a - {x}) + {x} && b == (b - {x}) + {x};
      }
    }
  }

  /** `r` lists the elements of `s` that are kept, in order; `at` says where they stand. */
  ghost predicate Picks<T>(s: seq<T>, r: seq<T>, at: seq<nat>, keep: T -> bool) {
    && |at| == |r| && Increasing(at)
    && (forall i :: 0 <= i < |at| ==> at[i] < |s| && s[at[i]] == r[i])
    && (forall j: nat :: j < |s| ==> (keep(s[j]) <==> j in at))
  }

  lemma {:induction false} PicksNext<T>(s: seq<T>, r: seq<T>, at: seq<nat>, keep: T -> bool) returns (at': seq<nat>)
    requires s != [] && keep.requires(s[|s| - 1])
    requires Picks(s[..|s| - 1], r, at, keep)
    ensures Picks(s, r + (if keep(s[|s| - 1]) then [s[|s| - 1]] else []), at', keep)
  {
    var n := |s| - 1;
    at' := at + (if keep(s[n]) then [n] else []);
    assert forall j :: j in at' <==> j in at || (keep(s[n]) && j == n);
    assert forall i :: 0 <= i < |at| ==> at[i] < n;
    assert forall j: nat :: j in at ==> j < n;
  }

  /** Where the elements with a property stand. */
  ghost function Places<T>(s: seq<T>, holds: T -> bool): set<nat> {
    set i: nat | i < |s| && holds(s[i])
  }

  lemma {:induction false} PlacesNext<T>(s: seq<T>, holds: T -> bool)
    requires s != []
    ensures |Places(s, holds)| == |Places(s[..|s| - 1], holds)| + (if holds(s[|s| - 1]) then 1 else 0)
  {
    var n := |s| - 1;
    if holds(s[n]) {
      assert Places(s, holds) == Places(s[..n], holds) + {n};
    } else {
      assert Places(s, holds) == Places(s[..n], holds);
    }
  }

  ghost predicate Distinct<T>(s: seq<T>) {
    forall i, j :: 0 <= i < j < |s| ==> s[i] != s[j]
  }

  lemma {:induction false} DistinctConcat<T>(a: seq<T>, b: seq<T>)
    requires Distinct(a) && Distinct(b) && forall x :: x in a ==> x !in b
    ensures Distinct(a + b)
  {
    forall i, j | 0 <= i < j < |a + b| ensures (a + b)[i] != (a + b)[j] {
      if i < |a| && j >= |a| { assert a[i] in a && b[j - |a|] in b; }
    }
  }

  /** Picking from what was picked. */
  lemma {:induction false} PicksTwice<T>(s: seq<T>, r: seq<T>, t: seq<T>, at: seq<nat>, again: seq<nat>,
                                         keep: T -> bool, more: T -> bool, both: T -> bool)
    returns (places: seq<nat>)
    requires Picks(s, r, at, keep) && Picks(r, t, again, more)
    requires forall x :: x in s ==> (both(x) <==> keep(x) && more(x))
    ensures Picks(s, t, places, both)
  {
    places := seq(|again|, i requires 0 <= i < |again| => at[again[i]]);
    forall j: nat | j < |s| ensures both(s[j]) <==> j in places {
      if both(s[j]) {
        var i :| 0 <= i < |at| && at[i] == j;
        assert more(r[i]) && i in again;
        var h :| 0 <= h < |again| && again[h] == i;
        assert places[h] == j;
      }
      if j in places {
        var h :| 0 <= h < |places| && places[h] == j;
        assert again[h] in again && at[again[h]] in at;
      }
    }
  }
}
