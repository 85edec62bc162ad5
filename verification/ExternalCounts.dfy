/** The external-reference test of the cycle pass: summing root counts, edge counts and internal
    records per component decides whether anything outside refers into it. */
module ExternalCounts {
  import opened Graphs
  import opened Cells
  import opened Tarjan

  // ---- sums over a component ------------------------------------------------------------------

  /** The sum of `f` over the nodes of `vs` with id `s`, in list order. */
  ghost function ListSum(f: nat -> int, vs: seq<nat>, scc: seq<nat>, s: nat): int
    requires forall k :: 0 <= k < |vs| ==> vs[k] < |scc|
  {
    if vs == [] then 0
    else
      var v := vs[|vs| - 1];
      ListSum(f, vs[..|vs| - 1], scc, s) + if scc[v] == s then f(v) else 0
  }

  /** The sum of `f` over the nodes below `n` with id `s`. */
  ghost function RangeSum(f: nat -> int, scc: seq<nat>, s: nat, n: nat): int
    requires n <= |scc|
  {
    if n == 0 then 0
    else RangeSum(f, scc, s, n - 1) + if scc[n - 1] == s then f(n - 1) else 0
  }

  lemma {:induction false} RangeSumSame(f: nat -> int, f': nat -> int, scc: seq<nat>, s: nat, n: nat)
    requires n <= |scc| && forall i: nat :: i < n && scc[i] == s ==> f(i) == f'(i)
    ensures RangeSum(f, scc, s, n) == RangeSum(f', scc, s, n)
  {
    if n > 0 { RangeSumSame(f, f', scc, s, n - 1); }
  }

  lemma {:induction false} RangeSumNone(f: nat -> int, scc: seq<nat>, s: nat, n: nat)
    requires n <= |scc| && forall i: nat :: i < n ==> scc[i] != s
    ensures RangeSum(f, scc, s, n) == 0
  {
    if n > 0 { RangeSumNone(f, scc, s, n - 1); }
  }

  lemma {:induction false} RangeSumUpdate(f: nat -> int, scc: seq<nat>, scc': seq<nat>, s: nat, n: nat, v: nat)
    requires v < n <= |scc| == |scc'| && scc[v] != s && scc'[v] == s
    requires forall i: nat :: i < n && i != v ==> scc'[i] == scc[i]
    ensures RangeSum(f, scc', s, n) == RangeSum(f, scc, s, n) + f(v)
  {
    if v == n - 1 {
      RangeSumPrefix(f, scc, scc', s, n - 1);
    } else {
      RangeSumUpdate(f, scc, scc', s, n - 1, v);
    }
  }

  lemma {:induction false} RangeSumPrefix(f: nat -> int, scc: seq<nat>, scc': seq<nat>, s: nat, n: nat)
    requires n <= |scc| == |scc'| && forall i: nat :: i < n ==> scc'[i] == scc[i]
    ensures RangeSum(f, scc', s, n) == RangeSum(f, scc, s, n)
  {
    if n > 0 { RangeSumPrefix(f, scc, scc', s, n - 1); }
  }

  /** Summing in list order is summing over the slots with that id. */
  lemma {:induction false} ListIsRange(f: nat -> int, vs: seq<nat>, scc: seq<nat>, s: nat)
    requires s != UNVISITED && forall k :: 0 <= k < |vs| ==> vs[k] < |scc|
    requires forall j, k :: 0 <= j < k < |vs| ==> vs[j] != vs[k]
    requires forall v: nat :: v < |scc| ==> (v in vs <==> scc[v] != UNVISITED)
    ensures ListSum(f, vs, scc, s) == RangeSum(f, scc, s, |scc|)
    decreases |vs|
  {
    if vs == [] {
      RangeSumNone(f, scc, s, |scc|);
    } else {
      var us, v := vs[..|vs| - 1], vs[|vs| - 1];
      assert vs == us + [v];
      var scc0 := scc[v := UNVISITED];
      forall w: nat | w < |scc| ensures w in us <==> scc0[w] != UNVISITED {
        assert w in vs <==> w in us || w == v;
      }
      ListIsRange(f, us, scc0, s);
      ListSumSame(f, us, scc, scc0, s);
      if scc[v] == s {
        RangeSumUpdate(f, scc0, scc, s, |scc|, v);
      } else {
        RangeSumOther(f, scc0, scc, s, |scc|);
      }
    }
  }

  lemma {:induction false} ListSumSame(f: nat -> int, vs: seq<nat>, scc: seq<nat>, scc': seq<nat>, s: nat)
    requires |scc| == |scc'|
    requires forall k :: 0 <= k < |vs| ==> vs[k] < |scc| && scc[vs[k]] == scc'[vs[k]]
    ensures ListSum(f, vs, scc, s) == ListSum(f, vs, scc', s)
    decreases |vs|
  {
    if vs != [] { ListSumSame(f, vs[..|vs| - 1], scc, scc', s); }
  }

  lemma {:induction false} RangeSumOther(f: nat -> int, scc: seq<nat>, scc': seq<nat>, s: nat, n: nat)
    requires n <= |scc| == |scc'| && forall i: nat :: i < n ==> (scc'[i] == s <==> scc[i] == s)
    ensures RangeSum(f, scc', s, n) == RangeSum(f, scc, s, n)
  {
    if n > 0 { RangeSumOther(f, scc, scc', s, n - 1); }
  }

  lemma {:induction false} SumZeroIff(f: nat -> int, scc: seq<nat>, s: nat, n: nat)
    requires n <= |scc| && forall i: nat :: i < n && scc[i] == s ==> f(i) >= 0
    ensures RangeSum(f, scc, s, n) >= 0
    ensures RangeSum(f, scc, s, n) == 0 <==> forall i: nat :: i < n && scc[i] == s ==> f(i) == 0
  {
    if n > 0 { SumZeroIff(f, scc, s, n - 1); }
  }

  // ---- records into a component ---------------------------------------------------------------

  /** How many records of `outs` lead into the component `s`, as the pass counts them. */
  function CountInto(pool: seq<Slot>, outs: seq<Handle>, scc: seq<nat>, s: nat): nat
    requires |pool| == |scc|
  {
    if outs == [] then 0
    else
      var t := outs[|outs| - 1];
      CountInto(pool, outs[..|outs| - 1], scc, s) + if Valid(pool, t) && scc[t.index] == s then 1 else 0
  }

  /** The same number, counted by target. */
  ghost function Hits(pool: seq<Slot>, outs: seq<Handle>, scc: seq<nat>, s: nat, n: nat): nat
    requires |pool| == |scc| && n <= |pool|
  {
    if n == 0 then 0
    else
      Hits(pool, outs, scc, s, n - 1) +
      if scc[n - 1] == s then multiset(outs)[Current(pool, n - 1)] else 0
  }

  lemma {:induction false} HitsEmpty(pool: seq<Slot>, scc: seq<nat>, s: nat, n: nat)
    requires |pool| == |scc| && n <= |pool|
    ensures Hits(pool, [], scc, s, n) == 0
  {
    if n > 0 { HitsEmpty(pool, scc, s, n - 1); }
  }

  lemma {:induction false} HitsAppend(pool: seq<Slot>, outs: seq<Handle>, t: Handle, scc: seq<nat>, s: nat, n: nat)
    requires |pool| == |scc| && n <= |pool| && Valid(pool, t)
    ensures Hits(pool, outs + [t], scc, s, n) ==
            Hits(pool, outs, scc, s, n) + if t.index < n && scc[t.index] == s then 1 else 0
  {
    if n > 0 {
      HitsAppend(pool, outs, t, scc, s, n - 1);
      assert multiset(outs + [t]) == multiset(outs) + multiset{t};
      assert Current(pool, n - 1) == t <==> t.index == n - 1;
    }
  }

  lemma {:induction false} CountIsHits(pool: seq<Slot>, outs: seq<Handle>, scc: seq<nat>, s: nat)
    requires |pool| == |scc| && forall t :: t in outs ==> Valid(pool, t)
    ensures CountInto(pool, outs, scc, s) == Hits(pool, outs, scc, s, |pool|)
    decreases |outs|
  {
    if outs == [] {
      HitsEmpty(pool, scc, s, |pool|);
    } else {
      var us, t := outs[..|outs| - 1], outs[|outs| - 1];
      assert outs == us + [t] && t in outs;
      CountIsHits(pool, us, scc, s);
      HitsAppend(pool, us, t, scc, s, |pool|);
    }
  }

  lemma {:induction false} HitsZeroIff(pool: seq<Slot>, outs: seq<Handle>, scc: seq<nat>, s: nat, n: nat)
    requires |pool| == |scc| && n <= |pool|
    ensures Hits(pool, outs, scc, s, n) == 0 <==>
            forall i: nat :: i < n && scc[i] == s ==> Current(pool, i) !in outs
  {
    if n > 0 {
      HitsZeroIff(pool, outs, scc, s, n - 1);
      assert Current(pool, n - 1) in outs <==> multiset(outs)[Current(pool, n - 1)] > 0 by {
        assert Current(pool, n - 1) in outs <==> Current(pool, n - 1) in multiset(outs);
      }
    }
  }

  // ---- swapping the order of summation --------------------------------------------------------

  /** Records from rows below `rows` into component members below `n`, counted by target. */
  ghost function ByTarget(h: Heap, scc: seq<nat>, s: nat, rows: nat, n: nat): nat
    requires |h.pool| == |h.tab| == |scc| && rows <= |scc| && n <= |scc|
  {
    if n == 0 then 0
    else ByTarget(h, scc, s, rows, n - 1) + if scc[n - 1] == s then In(h.tab, Current(h.pool, n - 1), rows) else 0
  }

  /** The same, counted by source: rows inside the component, and rows outside it. */
  ghost function Inside(h: Heap, scc: seq<nat>, s: nat, rows: nat): nat
    requires |h.pool| == |h.tab| == |scc| && rows <= |scc|
  {
    if rows == 0 then 0
    else Inside(h, scc, s, rows - 1) +
         if scc[rows - 1] == s then Hits(h.pool, h.tab[rows - 1].outs, scc, s, |scc|) else 0
  }

  ghost function Outside(h: Heap, scc: seq<nat>, s: nat, rows: nat): nat
    requires |h.pool| == |h.tab| == |scc| && rows <= |scc|
  {
    if rows == 0 then 0
    else Outside(h, scc, s, rows - 1) +
         if scc[rows - 1] == s then 0 else Hits(h.pool, h.tab[rows - 1].outs, scc, s, |scc|)
  }

  lemma {:induction false} ByTargetRow(h: Heap, scc: seq<nat>, s: nat, rows: nat, n: nat)
    requires |h.pool| == |h.tab| == |scc| && 0 < rows <= |scc| && n <= |scc|
    ensures ByTarget(h, scc, s, rows, n) ==
            ByTarget(h, scc, s, rows - 1, n) + Hits(h.pool, h.tab[rows - 1].outs, scc, s, n)
  {
    if n > 0 { ByTargetRow(h, scc, s, rows, n - 1); }
  }

  lemma {:induction false} ByTargetNone(h: Heap, scc: seq<nat>, s: nat, n: nat)
    requires |h.pool| == |h.tab| == |scc| && n <= |scc|
    ensures ByTarget(h, scc, s, 0, n) == 0
  {
    if n > 0 { ByTargetNone(h, scc, s, n - 1); }
  }

  lemma {:induction false} CountTwoWays(h: Heap, scc: seq<nat>, s: nat, rows: nat)
    requires |h.pool| == |h.tab| == |scc| && rows <= |scc|
    ensures ByTarget(h, scc, s, rows, |scc|) == Inside(h, scc, s, rows) + Outside(h, scc, s, rows)
  {
    if rows == 0 {
      ByTargetNone(h, scc, s, |scc|);
    } else {
      CountTwoWays(h, scc, s, rows - 1);
      ByTargetRow(h, scc, s, rows, |scc|);
    }
  }

  lemma {:induction false} OutsideZeroIff(h: Heap, scc: seq<nat>, s: nat, rows: nat)
    requires |h.pool| == |h.tab| == |scc| && rows <= |scc|
    ensures Outside(h, scc, s, rows) == 0 <==>
            forall j: nat :: j < rows && scc[j] != s ==> Hits(h.pool, h.tab[j].outs, scc, s, |scc|) == 0
  {
    if rows > 0 { OutsideZeroIff(h, scc, s, rows - 1); }
  }

  // ---- the test -------------------------------------------------------------------------------

  ghost function RootOf(h: Heap): nat -> int { (i: nat) => if i < |h.tab| then h.tab[i].root else 0 }

  ghost function EdgeOf(h: Heap): nat -> int { (i: nat) => if i < |h.tab| then h.tab[i].edge else 0 }

  ghost function InternalOf(h: Heap, scc: seq<nat>, s: nat): nat -> int
    requires |h.pool| == |scc|
  {
    (i: nat) => if i < |h.tab| then CountInto(h.pool, h.tab[i].outs, scc, s) else 0
  }

  lemma {:induction false} EdgeSumByTarget(h: Heap, scc: seq<nat>, s: nat, n: nat)
    requires TableOk(h.pool, h.tab) && |h.tab| == |scc| && n <= |scc|
    requires forall i: nat :: i < |scc| && scc[i] == s ==> h.pool[i].live
    ensures RangeSum(EdgeOf(h), scc, s, n) == ByTarget(h, scc, s, |scc|, n)
  {
    if n > 0 {
      EdgeSumByTarget(h, scc, s, n - 1);
      if scc[n - 1] == s { assert RowOk(h.pool, h.tab, n - 1); }
    }
  }

  lemma {:induction false} InternalSumInside(h: Heap, scc: seq<nat>, s: nat, n: nat)
    requires TableOk(h.pool, h.tab) && |h.tab| == |scc| && n <= |scc|
    ensures RangeSum(InternalOf(h, scc, s), scc, s, n) == Inside(h, scc, s, n)
  {
    if n > 0 {
      InternalSumInside(h, scc, s, n - 1);
      assert h.pool[n - 1].live ==> RowOk(h.pool, h.tab, n - 1);
      CountIsHits(h.pool, h.tab[n - 1].outs, scc, s);
    }
  }

  /** Zero root sum and edge sum equal to internal records: exactly when the component holds no
      root and no edge enters it from outside. */
  lemma ExternalTest(h: Heap, vs: seq<nat>, scc: seq<nat>, s: nat)
    requires TableOk(h.pool, h.tab) && |h.tab| == |scc| && s != UNVISITED
    requires forall k :: 0 <= k < |vs| ==> vs[k] < |scc|
    requires forall j, k :: 0 <= j < k < |vs| ==> vs[j] != vs[k]
    requires forall v: nat :: v < |scc| ==> (v in vs <==> scc[v] != UNVISITED)
    requires forall i: nat :: i < |scc| && scc[i] == s ==> h.pool[i].live
    ensures ListSum(RootOf(h), vs, scc, s) == 0 <==>
            forall i: nat :: i < |scc| && scc[i] == s ==> h.tab[i].root == 0
    ensures ListSum(EdgeOf(h), vs, scc, s) == ListSum(InternalOf(h, scc, s), vs, scc, s) <==>
            forall x :: x in Edges(h.pool, h.tab) && scc[x.1] == s ==> scc[x.0] == s
  {
    ListIsRange(RootOf(h), vs, scc, s);
    ListIsRange(EdgeOf(h), vs, scc, s);
    ListIsRange(InternalOf(h, scc, s), vs, scc, s);
    forall i: nat | i < |scc| && scc[i] == s ensures RootOf(h)(i) >= 0 {
      assert RowOk(h.pool, h.tab, i);
    }
    SumZeroIff(RootOf(h), scc, s, |scc|);
    assert forall i: nat :: i < |scc| ==> RootOf(h)(i) == h.tab[i].root;
    EdgeSumByTarget(h, scc, s, |scc|);
    InternalSumInside(h, scc, s, |scc|);
    CountTwoWays(h, scc, s, |scc|);
    OutsideZeroIff(h, scc, s, |scc|);
    OutsideEdges(h, scc, s);
  }

  lemma OutsideEdges(h: Heap, scc: seq<nat>, s: nat)
    requires TableOk(h.pool, h.tab) && |h.tab| == |scc|
    requires forall i: nat :: i < |scc| && scc[i] == s ==> h.pool[i].live
    ensures (forall j: nat :: j < |scc| && scc[j] != s ==> Hits(h.pool, h.tab[j].outs, scc, s, |scc|) == 0) <==>
            forall x :: x in Edges(h.pool, h.tab) && scc[x.1] == s ==> scc[x.0] == s
  {
    forall j: nat ensures j < |scc| ==> (Hits(h.pool, h.tab[j].outs, scc, s, |scc|) == 0 <==>
        forall i: nat :: i < |scc| && scc[i] == s ==> Current(h.pool, i) !in h.tab[j].outs)
    {
      if j < |scc| { HitsZeroIff(h.pool, h.tab[j].outs, scc, s, |scc|); }
    }
    if forall j: nat :: j < |scc| && scc[j] != s ==> Hits(h.pool, h.tab[j].outs, scc, s, |scc|) == 0 {
      forall x | x in Edges(h.pool, h.tab) && scc[x.1] == s ensures scc[x.0] == s {
        EdgeIff(h.pool, h.tab, x.0, x.1);
      }
    }
    if forall x :: x in Edges(h.pool, h.tab) && scc[x.1] == s ==> scc[x.0] == s {
      forall j: nat, i: nat | j < |scc| && scc[j] != s && i < |scc| && scc[i] == s
        ensures Current(h.pool, i) !in h.tab[j].outs
      {
        EdgeIff(h.pool, h.tab, j, i);
      }
    }
  }
}
