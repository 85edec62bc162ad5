/** The machine's heap together with the collector that looks after it: every barrier call, with
    whatever the collector frees on the way. */
module CollectedHeaps {
  import opened VmState
  import opened ObjectStores
  import R = ReferenceCounting
  import B = Backends
  import T = Tarjan

  /** The collector the machine runs with. */
  datatype Backend = Counting(arc: R.ArcBackend) | Collecting(aarc: B.AarcBackend)

  /** A heap of dead slots of which the collector knows nothing. */
  function Blank(n: nat): Memory {
    Memory(seq(n, _ => DEAD), multiset{}, seq(n, _ => multiset{}))
  }

  class CollectedHeap {
    const store: ObjectStore
    const gc: Backend
    ghost const Repr: set<object>
    ghost var mem: Memory

    /** The collector's counts, or its engine's rows, stand for `mem`, but for the `hole`, and its
        objects are the machine's. */
    ghost predicate Ready(hole: Hole)
      reads this, Repr
    {
      && {this, store} <= Repr && mem.heap == store.objs
      && match gc
         case Counting(a) => a in Repr && a.store == store && a.Valid(hole) && a.Mem() == mem
         case Collecting(b) =>
           && {b, b.engine, b.engine.detector} <= Repr
           && b.store == store && b.Valid() && b.Mem() == mem
    }

    constructor Counted(store: ObjectStore)
      requires store.Valid() && forall i :: 0 <= i < |store.objs| ==> store.objs[i] == DEAD
      ensures Ready(None) && this.store == store && gc.Counting? && fresh(Repr - {store}) && mem == Blank(|store.objs|)
    {
      this.store := store;
      var a := new R.ArcBackend(store);
      gc := Counting(a);
      Repr := {this, store, a};
      mem := Memory(store.objs, multiset{}, seq(|store.objs|, _ => multiset{}));
      new;
      assert mem == Blank(|store.objs|) by { assert mem.heap == Blank(|store.objs|).heap; }
    }

    constructor Traced(store: ObjectStore, due: (nat, nat) -> bool)
      requires store.Valid() && 0 < store.cap <= |store.objs| < T.UNVISITED
      requires forall i :: 0 <= i < |store.objs| ==> store.objs[i] == DEAD
      ensures Ready(None) && this.store == store && gc.Collecting? && fresh(Repr - {store}) && mem == Blank(|store.objs|)
    {
      this.store := store;
      var b := new B.AarcBackend(store, due);
      gc := Collecting(b);
      Repr := {this, store, b, b.engine, b.engine.detector};
      mem := Memory(store.objs, multiset{}, seq(|store.objs|, _ => multiset{}));
      new;
      assert mem == Blank(|store.objs|) by { assert mem.heap == Blank(|store.objs|).heap; }
    }

    /** If the cycle collector has just scanned, nothing is left of any stranded component around `h`. */
    ghost predicate FreesWith(h: nat, m: Memory, f: set<nat>)
      reads if gc.Collecting? then {gc.aarc} else {}
    {
      gc.Collecting? ==> gc.aarc.FreesWith(h, m, f)
    }

    method RootAdd(h: nat) returns (ghost f: set<nat>)
      requires Ready(None) && Live(mem, h)
      modifies Repr
      ensures Ready(None)
      ensures var m := old(mem).(roots := old(mem).roots + multiset{h}); Collectible(m, f) && mem == Freed(m, f)
    {
      ghost var m := mem.(roots := mem.roots + multiset{h});
      match gc {
        case Counting(a) => a.RootAdd(h); FreedNothing(m); f := {};
        case Collecting(b) => f := b.RootAdd(h);
      }
      mem := Freed(m, f);
    }

    method RootRemove(h: nat) returns (ghost f: set<nat>)
      requires Ready(None) && Live(mem, h) && h in mem.roots
      modifies Repr
      ensures Ready(None)
      ensures var m := old(mem).(roots := old(mem).roots - multiset{h}); Collectible(m, f) && mem == Freed(m, f) && FreesWith(h, m, f)
    {
      ghost var m := mem.(roots := mem.roots - multiset{h});
      match gc {
        case Counting(a) => f := a.RootRemove(h);
        case Collecting(b) => f := b.RootRemove(h);
      }
      mem := Freed(m, f);
    }

    /** Give the edge in cell `k` of `b` up while the cell still shows it. */
    method EdgeRemove(b: nat, k: nat) returns (ghost f: set<nat>)
      requires Ready(None) && Live(mem, b) && k < |mem.heap[b].cells| && mem.heap[b].cells[k].Ref?
      requires b < |mem.edges| && mem.heap[b].cells[k].h in mem.edges[b]
      modifies Repr
      ensures Ready(At(b, k))
      ensures var t := old(mem).heap[b].cells[k].h; var m := Unedged(old(mem), b, t);
        Collectible(m, f) && mem == Freed(m, f) && FreesWith(t, m, f)
    {
      ghost var m := Unedged(mem, b, mem.heap[b].cells[k].h);
      match gc {
        case Counting(a) => f := a.EdgeRemove(b, k);
        case Collecting(c) => f := c.EdgeRemove(b, store.objs[b].cells[k].h);
      }
      mem := Freed(m, f);
    }

    /** Tell the collector of the edge now in cell `k` of `b`. */
    method EdgeAdd(b: nat, k: nat) returns (ghost f: set<nat>)
      requires Ready(At(b, k)) && Live(mem, b) && k < |mem.heap[b].cells|
      requires mem.heap[b].cells[k].Ref? && Live(mem, mem.heap[b].cells[k].h) && b < |mem.edges|
      modifies Repr
      ensures Ready(None)
      ensures var m := Edged(old(mem), b, old(mem).heap[b].cells[k].h); Collectible(m, f) && mem == Freed(m, f)
    {
      ghost var m := Edged(mem, b, mem.heap[b].cells[k].h);
      match gc {
        case Counting(a) => a.EdgeAdd(b, k); FreedNothing(m); f := {};
        case Collecting(c) => f := c.EdgeAdd(b, store.objs[b].cells[k].h);
      }
      mem := Freed(m, f);
    }

    method Write(b: nat, k: nat, v: Val)
      requires Ready(At(b, k)) && Live(mem, b) && k < |mem.heap[b].cells|
      modifies Repr
      ensures Ready(At(b, k)) && mem == Stored(old(mem), b, k, v)
    {
      match gc {
        case Counting(a) => a.CellWritten(b, k, v);
        case Collecting(c) => c.CellWritten(b, k, v);
      }
      mem := Stored(mem, b, k, v);
    }

    /** A cell without a reference may be a hole, and the other way round. */
    lemma PlainHole(b: nat, k: nat)
      requires Live(mem, b) && k < |mem.heap[b].cells| && !mem.heap[b].cells[k].Ref?
      ensures Ready(None) <==> Ready(At(b, k))
    {
      R.PlainScan(mem, b, k);
    }

    method Alloc(n: nat) returns (ok: bool, h: nat)
      requires Ready(None) && forall x: nat :: x in mem.roots ==> Live(mem, x)
      modifies Repr
      ensures Ready(None) && (ok <==> !old(store.Full()))
      ensures ok ==> Allocatable(old(mem).heap, h) && |old(mem).edges| == |old(mem).heap| && mem == Allocated(old(mem), h, n)
      ensures !ok ==> mem == old(mem) && store.Full()
    {
      ghost var m := mem;
      ok, h := store.Alloc(n);
      if ok {
        match gc {
          case Counting(a) => a.OnAlloc(h, n, m);
          case Collecting(b) => b.OnAlloc(h, n, m);
        }
        mem := Allocated(m, h, n);
      }
    }

    method Load(h: nat, k: nat) returns (ok: bool, v: Val)
      requires Ready(None)
      ensures ok <==> Live(mem, h) && k < |mem.heap[h].cells|
      ensures ok ==> v == mem.heap[h].cells[k]
    {
      ok := LiveIn(store.objs, h) && k < |store.objs[h].cells|;
      v := if ok then store.objs[h].cells[k] else ZERO;
    }

    method IsLive(h: nat) returns (ok: bool)
      requires mem.heap == store.objs
      ensures ok <==> Live(mem, h)
    {
      ok := LiveIn(store.objs, h);
    }
  }
}
