/** Finite directed graphs over slot indexes, with reachability as the existence of a walk. */
module Graphs {

  type Graph = set<(nat, nat)>

  /** Step `k` of `p` is an edge. */
  ghost predicate Hop(g: Graph, p: seq<nat>, k: nat)
    requires k + 1 < |p|
  {
    (p[k], p[k + 1]) in g
  }

  ghost predicate Walk(g: Graph, p: seq<nat>) {
    p != [] && forall k: nat :: k < |p| - 1 ==> Hop(g, p, k)
  }

  ghost predicate WalkFromTo(g: Graph, p: seq<nat>, u: nat, v: nat) {
    Walk(g, p) && p[0] == u && p[|p| - 1] == v
  }

  /** `v` can be reached from `u` along zero or more edges of `g`. */
  ghost predicate Reach(g: Graph, u: nat, v: nat) {
    exists p :: WalkFromTo(g, p, u, v)
  }

  /** `s` is closed under the edges of `g`. */
  ghost predicate Closed(g: Graph, s: set<nat>) {
    forall e :: e in g && e.0 in s ==> e.1 in s
  }

  lemma ReachRefl(g: Graph, u: nat)
    ensures Reach(g, u, u)
  {
    assert WalkFromTo(g, [u], u, u);
  }

  lemma ReachEdge(g: Graph, u: nat, v: nat)
    requires (u, v) in g
    ensures Reach(g, u, v)
  {
    assert Hop(g, [u, v], 0);
    assert WalkFromTo(g, [u, v], u, v);
  }

  lemma ReachTrans(g: Graph, u: nat, v: nat, w: nat)
    requires Reach(g, u, v) && Reach(g, v, w)
    ensures Reach(g, u, w)
  {
    var p :| WalkFromTo(g, p, u, v);
    var q :| WalkFromTo(g, q, v, w);
    var r := p + q[1..];
    forall k: nat | k < |r| - 1
      ensures Hop(g, r, k)
    {
      if k < |p| - 1 {
        assert Hop(g, p, k);
      } else {
        assert Hop(g, q, k - |p| + 1);
      }
    }
    assert r[|r| - 1] == w;
    assert WalkFromTo(g, r, u, w);
  }

  lemma WalkTail(g: Graph, p: seq<nat>)
    requires Walk(g, p) && |p| > 1
    ensures Walk(g, p[1..])
  {
    var q := p[1..];
    forall k: nat | k < |q| - 1
      ensures Hop(g, q, k)
    {
      assert Hop(g, p, k + 1);
    }
  }

  /** A walk that starts in a closed set never leaves it. */
  lemma {:induction false} WalkStaysIn(g: Graph, s: set<nat>, p: seq<nat>)
    requires Closed(g, s) && Walk(g, p) && p[0] in s
    ensures p[|p| - 1] in s
    decreases |p|
  {
    if |p| > 1 {
      assert Hop(g, p, 0);
      var q := p[1..];
      WalkTail(g, p);
      WalkStaysIn(g, s, q);
    }
  }

  lemma ReachStaysIn(g: Graph, s: set<nat>, u: nat, v: nat)
    requires Closed(g, s) && u in s && Reach(g, u, v)
    ensures v in s
  {
    var p :| WalkFromTo(g, p, u, v);
    WalkStaysIn(g, s, p);
  }

  /** A non-empty walk has a first edge. */
  lemma ReachFirstEdge(g: Graph, u: nat, v: nat) returns (w: nat)
    requires Reach(g, u, v) && u != v
    ensures (u, w) in g && Reach(g, w, v)
  {
    var p :| WalkFromTo(g, p, u, v);
    assert |p| > 1;
    w := p[1];
    assert Hop(g, p, 0);
    var q := p[1..];
    WalkTail(g, p);
    assert WalkFromTo(g, q, w, v);
  }

  /** A non-empty walk has a last edge. */
  lemma ReachLastEdge(g: Graph, u: nat, v: nat) returns (w: nat)
    requires Reach(g, u, v) && u != v
    ensures (w, v) in g && Reach(g, u, w)
  {
    var p :| WalkFromTo(g, p, u, v);
    assert |p| > 1;
    var q := p[..|p| - 1];
    w := p[|p| - 2];
    assert Hop(g, p, |p| - 2);
    forall k: nat | k < |q| - 1 ensures Hop(g, q, k) { assert Hop(g, p, k); }
    assert WalkFromTo(g, q, u, w);
  }

  lemma ReachMonotone(g: Graph, h: Graph, u: nat, v: nat)
    requires g <= h && Reach(g, u, v)
    ensures Reach(h, u, v)
  {
    var p :| WalkFromTo(g, p, u, v);
    forall k: nat | k < |p| - 1 ensures Hop(h, p, k) { assert Hop(g, p, k); }
    assert WalkFromTo(h, p, u, v);
  }

  /** The nodes below `n` that reach `v`. */
  ghost function Ancestors(g: Graph, n: nat, v: nat): set<nat> {
    set a: nat | a < n && Reach(g, a, v)
  }

  lemma AncestorsMonotone(g: Graph, n: nat, a: nat, v: nat)
    requires Reach(g, a, v)
    ensures Ancestors(g, n, a) <= Ancestors(g, n, v)
  {
    forall b | b in Ancestors(g, n, a)
      ensures b in Ancestors(g, n, v)
    {
      ReachTrans(g, b, a, v);
    }
  }

  lemma ProperSubsetIsSmaller(a: set<nat>, b: set<nat>, x: nat)
    requires a <= b && x in b && x !in a
    ensures |a| < |b|
  {
    assert b == a + (b - a);
    assert x in b - a;
    assert |b| == |a| + |b - a|;
  }

  /** Above every node `v` lies a source component: some `s` reaches `v`, and everything that
      reaches `s` is reached back from `s`. */
  lemma {:induction false} SourceAbove(g: Graph, n: nat, v: nat) returns (s: nat)
    requires v < n
    requires forall e :: e in g ==> e.0 < n
    ensures s < n && Reach(g, s, v)
    ensures forall a: nat :: Reach(g, a, s) ==> Reach(g, s, a)
    decreases |Ancestors(g, n, v)|
  {
    ReachRefl(g, v);
    if a: nat :| Reach(g, a, v) && !Reach(g, v, a) {
      assert a < n by { var w := ReachFirstEdge(g, a, v); }
      AncestorsMonotone(g, n, a, v);
      ReachRefl(g, v);
      assert v in Ancestors(g, n, v) && v !in Ancestors(g, n, a);
      ProperSubsetIsSmaller(Ancestors(g, n, a), Ancestors(g, n, v), v);
      s := SourceAbove(g, n, a);
      ReachTrans(g, s, a, v);
    } else {
      s := v;
    }
  }
}
