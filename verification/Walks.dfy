/** Walks in a functional graph: every node has at most one successor. */
module Walks {
  import opened Host

  /** The node n hops from x, if the walk gets that far. */
  function Hop<T>(next: map<T, T>, x: T, n: nat): Option<T> {
    if n == 0 then Some(x)
    else
      var y :- Hop(next, x, n - 1);
      Get(next, y)
  }

  ghost predicate Reaches<T>(next: map<T, T>, x: T, y: T, n: nat) {
    Hop(next, x, n) == Some(y)
  }

  /** No walk of between one and `limit` hops comes back to its start. */
  ghost predicate NoCycleWithin<T(!new)>(next: map<T, T>, limit: nat) {
    forall x: T, n: nat :: 1 <= n <= limit ==> !Reaches(next, x, x, n)
  }

  ghost predicate Acyclic<T(!new)>(next: map<T, T>) {
    forall x: T, n: nat :: 1 <= n ==> !Reaches(next, x, x, n)
  }

  lemma {:induction false} HopAdd<T>(next: map<T, T>, x: T, m: nat, n: nat)
    ensures Hop(next, x, m + n)
         == if Hop(next, x, m).None? then None else Hop(next, Hop(next, x, m).value, n)
  {
    if n > 0 {
      HopAdd(next, x, m, n - 1);
    }
  }

  /** A walk that gets n hops far passes through every shorter distance. */
  lemma HopPrefix<T>(next: map<T, T>, x: T, m: nat, n: nat)
    requires m <= n && Hop(next, x, n).Some?
    ensures Hop(next, x, m).Some?
  {
    HopAdd(next, x, m, n - m);
  }

  lemma HopOne<T>(next: map<T, T>, x: T)
    ensures Hop(next, x, 1) == Get(next, x)
  {
    assert Hop(next, x, 0) == Some(x);
  }

  /** Past a node without a successor there is nothing. */
  lemma WalkStops<T>(next: map<T, T>, x: T, end: T, n: nat)
    requires Reaches(next, x, end, n) && end !in next
    ensures forall i: nat :: i > n ==> Hop(next, x, i).None?
  {
    forall i: nat | i > n ensures Hop(next, x, i).None? {
      if Hop(next, x, i).Some? {
        HopPrefix(next, x, n + 1, i);
      }
    }
  }

  /** Two visits to one node are the two ends of a cycle. */
  lemma RepeatIsCycle<T>(next: map<T, T>, x: T, i: nat, j: nat)
    requires i < j && Hop(next, x, i).Some? && Hop(next, x, i) == Hop(next, x, j)
    ensures Reaches(next, Hop(next, x, i).value, Hop(next, x, i).value, j - i)
  {
    HopAdd(next, x, i, j - i);
  }

  /** Redirecting w does not disturb a walk that has not yet visited w. */
  lemma {:induction false} HopUnaffected<T>(next: map<T, T>, w: T, r: T, x: T, n: nat)
    requires forall i: nat :: i < n ==> !Reaches(next, x, w, i)
    ensures Hop(next[w := r], x, n) == Hop(next, x, n)
  {
    if n > 0 {
      HopUnaffected(next, w, r, x, n - 1);
      assert !Reaches(next, x, w, n - 1);
    }
  }

  /** If x reaches w at all within n hops, there is a first visit. */
  lemma {:induction false} FirstVisit<T>(next: map<T, T>, x: T, w: T, n: nat) returns (k: nat)
    requires Reaches(next, x, w, n)
    ensures k <= n && Reaches(next, x, w, k)
    ensures forall i: nat :: i < k ==> !Reaches(next, x, w, i)
  {
    if i: nat :| i < n && Reaches(next, x, w, i) {
      k := FirstVisit(next, x, w, i);
    } else {
      k := n;
    }
  }

  /** Adding or redirecting an edge w -> r closes no cycle of up to `limit` hops,
      provided r does not reach w in fewer than `limit` hops. */
  lemma EdgeKeepsNoCycle<T(!new)>(next: map<T, T>, w: T, r: T, limit: nat)
    requires NoCycleWithin(next, limit)
    requires forall j: nat :: j < limit ==> !Reaches(next, r, w, j)
    ensures NoCycleWithin(next[w := r], limit)
  {
    var next' := next[w := r];
    forall x: T, n: nat | 1 <= n <= limit ensures !Reaches(next', x, x, n) {
      assert !Reaches(next, x, x, n);
      if Reaches(next', x, x, n) {
        if i: nat :| i < n && Reaches(next, x, w, i) {
          // The walk passes w: turn it so that it starts with the new edge.
          var k := FirstVisit(next, x, w, i);
          HopUnaffected(next, w, r, x, k);
          HopAdd(next', x, k, n - k);
          HopAdd(next', w, n - k, k);
          assert Hop(next', w, n) == Some(w);
          HopAdd(next', w, 1, n - 1);
          HopOne(next', w);
          FirstReturn(next, w, r, n - 1);
        } else {
          HopUnaffected(next, w, r, x, n);
        }
      }
    }
  }

  /** If r comes back to w in the redirected graph, it already did before, no later. */
  lemma FirstReturn<T>(next: map<T, T>, w: T, r: T, n: nat)
    requires Reaches(next[w := r], r, w, n)
    ensures exists j: nat :: j <= n && Reaches(next, r, w, j)
  {
    var k := FirstVisit(next[w := r], r, w, n);
    if j: nat :| j < k && Reaches(next, r, w, j) {
    } else {
      HopUnaffected(next, w, r, r, k);
      assert Reaches(next, r, w, k);
    }
  }

  /** The new edge w -> r lies on a cycle exactly when r already reached w. */
  lemma EdgeClosesCycle<T(!new)>(next: map<T, T>, w: T, r: T, j: nat)
    requires Reaches(next, r, w, j)
    ensures !NoCycleWithin(next[w := r], j + 1)
  {
    var next' := next[w := r];
    var k := FirstVisit(next, r, w, j);
    HopUnaffected(next, w, r, r, k);
    HopAdd(next', w, 1, k);
    HopOne(next', w);
    assert Reaches(next', w, w, k + 1);
  }

  lemma EdgeKeepsAcyclic<T(!new)>(next: map<T, T>, w: T, r: T)
    requires Acyclic(next)
    requires forall j: nat :: !Reaches(next, r, w, j)
    ensures Acyclic(next[w := r])
  {
    var next' := next[w := r];
    forall x: T, n: nat | 1 <= n ensures !Reaches(next', x, x, n) {
      EdgeKeepsNoCycle(next, w, r, n);
    }
  }

  // -------------------------------------------------------------------------
  // Acyclic walks end
  // -------------------------------------------------------------------------

  /** The nodes a walk has left behind after n hops. */
  ghost function Visited<T(!new)>(next: map<T, T>, x: T, n: nat): (seen: set<T>)
    requires Acyclic(next) && Hop(next, x, n).Some?
    ensures seen <= next.Keys && |seen| == n
    ensures forall y :: y in seen <==> exists i: nat :: i < n && Reaches(next, x, y, i)
  {
    if n == 0 then {}
    else
      var before := Visited(next, x, n - 1);
      var y := Hop(next, x, n - 1).value;
      assert y !in before by {
        if y in before {
          var i: nat :| i < n - 1 && Reaches(next, x, y, i);
          RepeatIsCycle(next, x, i, n - 1);
        }
      }
      assert forall z, i: nat :: i < n && Reaches(next, x, z, i) ==> i < n - 1 || z == y;
      assert Reaches(next, x, y, n - 1);
      before + {y}
  }

  /** Without a cycle every walk stops after at most as many hops as there are edges. */
  lemma WalkEnds<T(!new)>(next: map<T, T>, x: T)
    requires Acyclic(next)
    ensures Hop(next, x, |next| + 1).None?
  {
    if Hop(next, x, |next| + 1).Some? {
      var seen := Visited(next, x, |next| + 1);
      SubsetCardinality(seen, next.Keys);
    }
  }

  lemma {:induction false} SubsetCardinality<T>(a: set<T>, b: set<T>)
    requires a <= b
    ensures |a| <= |b|
  {
    if a != {} {
      var x :| x in a;
      SubsetCardinality(a - {x}, b - {x});
    }
  }

  /** How many hops can be taken from x. */
  ghost function Height<T(!new)>(next: map<T, T>, x: T): (h: nat)
    requires Acyclic(next)
    ensures Hop(next, x, h).Some? && Hop(next, x, h + 1).None?
  {
    WalkEnds(next, x);
    HeightWithin(next, x, |next| + 1)
  }

  ghost function HeightWithin<T>(next: map<T, T>, x: T, bound: nat): (h: nat)
    requires Hop(next, x, bound).None?
    ensures h < bound && Hop(next, x, h).Some? && Hop(next, x, h + 1).None?
  {
    if Hop(next, x, bound - 1).Some? then bound - 1 else HeightWithin(next, x, bound - 1)
  }

  /** Each hop brings the end of the walk one closer. */
  lemma HeightDrops<T(!new)>(next: map<T, T>, x: T)
    requires Acyclic(next) && x in next
    ensures Height(next, x) == Height(next, next[x]) + 1
  {
    var h, k := Height(next, x), Height(next, next[x]);
    HopOne(next, x);
    HopAdd(next, x, 1, k);
    HopAdd(next, x, 1, k + 1);
    if h < k + 1 {
      HopPrefix(next, x, h + 1, k + 1);
    } else if h > k + 1 {
      HopPrefix(next, x, k + 2, h);
    }
  }
}
