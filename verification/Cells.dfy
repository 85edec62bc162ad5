/** Slots, versioned handles and reference-table rows: the data every collector layer shares. */
module Cells {
  import opened Graphs

  const MAX_GEN: nat := 0xFFFF_FFFF

  /** A slot index plus the generation the slot had when the handle was made. */
  datatype Handle = Handle(index: nat, gen: nat)

  datatype Slot = Slot(gen: nat, live: bool)

  /** One reference-table row: root count, incoming-edge count, outgoing records (newest first). */
  datatype Row = Row(root: int, edge: int, outs: seq<Handle>)

  const EMPTY_ROW := Row(0, 0, [])

  datatype Heap = Heap(pool: seq<Slot>, tab: seq<Row>)

  predicate LiveAt(pool: seq<Slot>, i: nat) {
    i < |pool| && pool[i].live
  }

  predicate Valid(pool: seq<Slot>, h: Handle) {
    LiveAt(pool, h.index) && pool[h.index].gen == h.gen
  }

  function Current(pool: seq<Slot>, i: nat): Handle
    requires i < |pool|
  {
    Handle(i, pool[i].gen)
  }

  /** A freed slot moves to the next generation; at the last generation it is retired as it is. */
  function Freed(s: Slot): Slot {
    Slot(if s.gen == MAX_GEN then s.gen else s.gen + 1, false)
  }

  /** The number of records in rows below `n` whose target is `h`. */
  ghost function In(tab: seq<Row>, h: Handle, n: nat): nat
    requires n <= |tab|
  {
    if n == 0 then 0 else In(tab, h, n - 1) + multiset(tab[n - 1].outs)[h]
  }

  /** No record has a dead endpoint, counts are never negative, a dead slot's row is empty, and the
      edge count of a live cell is the number of records that target its current generation. */
  ghost predicate TableOk(pool: seq<Slot>, tab: seq<Row>) {
    && |pool| == |tab|
    && (forall i :: 0 <= i < |pool| && !pool[i].live ==> tab[i] == EMPTY_ROW)
    && (forall i :: 0 <= i < |pool| && pool[i].live ==> RowOk(pool, tab, i))
  }

  ghost predicate RowOk(pool: seq<Slot>, tab: seq<Row>, i: nat)
    requires |pool| == |tab| && i < |pool|
  {
    && tab[i].root >= 0
    && tab[i].edge == In(tab, Current(pool, i), |tab|)
    && forall t :: t in tab[i].outs ==> Valid(pool, t)
  }

  /** The graph of recorded edges between live cells. */
  ghost function Edges(pool: seq<Slot>, tab: seq<Row>): Graph {
    set u: nat, t | u < |tab| && t in tab[u].outs && Valid(pool, t) :: (u, t.index)
  }

  lemma EdgeIff(pool: seq<Slot>, tab: seq<Row>, u: nat, v: nat)
    requires u < |tab| && v < |pool|
    ensures (u, v) in Edges(pool, tab) <==>
            pool[v].live && Current(pool, v) in tab[u].outs
  {
    if pool[v].live && Current(pool, v) in tab[u].outs {
      assert Valid(pool, Current(pool, v));
    }
  }

  lemma EdgeEnds(pool: seq<Slot>, tab: seq<Row>, u: nat, v: nat)
    requires TableOk(pool, tab) && (u, v) in Edges(pool, tab)
    ensures LiveAt(pool, u) && LiveAt(pool, v) && Current(pool, v) in tab[u].outs
    ensures tab[u].outs != [] && tab[v].edge > 0
  {
    EdgeIff(pool, tab, u, v);
    InAtLeast(tab, Current(pool, v), |tab|, u);
  }

  lemma {:induction false} InAtLeast(tab: seq<Row>, h: Handle, n: nat, j: nat)
    requires j < n <= |tab|
    ensures In(tab, h, n) >= multiset(tab[j].outs)[h]
  {
    if j < n - 1 {
      InAtLeast(tab, h, n - 1, j);
    }
  }

  lemma {:induction false} InPositive(tab: seq<Row>, h: Handle, n: nat) returns (j: nat)
    requires n <= |tab| && In(tab, h, n) > 0
    ensures j < n && h in tab[j].outs
  {
    if multiset(tab[n - 1].outs)[h] > 0 {
      assert h in multiset(tab[n - 1].outs);
      j := n - 1;
    } else {
      j := InPositive(tab, h, n - 1);
    }
  }

  /** A live cell with a positive edge count has an incoming edge. */
  lemma HasPredecessor(pool: seq<Slot>, tab: seq<Row>, v: nat) returns (u: nat)
    requires TableOk(pool, tab) && LiveAt(pool, v) && tab[v].edge > 0
    ensures (u, v) in Edges(pool, tab)
  {
    u := InPositive(tab, Current(pool, v), |tab|);
    EdgeIff(pool, tab, u, v);
  }

  /** Counting only depends on the record multisets of the rows. */
  lemma {:induction false} InSame(tab: seq<Row>, tab': seq<Row>, h: Handle, n: nat)
    requires n <= |tab| && n <= |tab'|
    requires forall j :: 0 <= j < n ==> multiset(tab[j].outs)[h] == multiset(tab'[j].outs)[h]
    ensures In(tab, h, n) == In(tab', h, n)
  {
    if n > 0 {
      InSame(tab, tab', h, n - 1);
    }
  }

  /** Replacing one row changes the count by the difference of that row. */
  lemma {:induction false} InUpdate(tab: seq<Row>, tab': seq<Row>, h: Handle, n: nat, j: nat)
    requires j < n <= |tab| && n <= |tab'|
    requires forall k :: 0 <= k < n && k != j ==>
               multiset(tab[k].outs)[h] == multiset(tab'[k].outs)[h]
    ensures In(tab', h, n) ==
            In(tab, h, n) - multiset(tab[j].outs)[h] + multiset(tab'[j].outs)[h]
  {
    if j == n - 1 {
      InSame(tab, tab', h, n - 1);
    } else {
      InUpdate(tab, tab', h, n - 1, j);
    }
  }
}
