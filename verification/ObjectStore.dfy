/** The heap object the machine and its collector share: payloads, and the handles that are free. */
module ObjectStores {
  import opened VmState

  class ObjectStore {
    var objs: seq<Obj>
    var handles: seq<nat>
    const cap: nat

    /** Slot 0 is never used; a free handle is listed once and names a dead slot. */
    ghost predicate Valid()
      reads this
    {
      && |objs| > 0 && !objs[0].live
      && (forall i, j :: 0 <= i < j < |handles| ==> handles[i] != handles[j])
      && (forall i :: 0 <= i < |handles| ==> 0 < handles[i] < |objs| && !objs[handles[i]].live)
    }

    /** No handle is left and none may be added. */
    predicate Full()
      reads this
    {
      handles == [] && cap != 0 && |objs| >= cap
    }

    /** With a reservation the slot space is fixed; without one (0) it grows on demand. */
    constructor (reserved: nat)
      ensures Valid() && cap == reserved && |objs| == (if reserved > 1 then reserved else 1)
      ensures forall i :: 0 <= i < |objs| ==> objs[i] == DEAD
      ensures forall i: nat :: i in handles <==> 0 < i < |objs|
    {
      cap := reserved;
      var n := if reserved > 1 then reserved else 1;
      objs := seq(n, _ => DEAD);
      handles := seq(n - 1, i => i + 1);
      new;
      forall i: nat | 0 < i < |objs| ensures i in handles { assert handles[i - 1] == i; }
    }

    /** The last freed handle, or a new slot; refused only when the store is full. */
    method Alloc(n: nat) returns (ok: bool, h: nat)
      requires Valid()
      modifies this
      ensures Valid() && (ok <==> !old(Full()))
      ensures !ok ==> objs == old(objs) && Full()
      ensures ok ==> Allocatable(old(objs), h) && objs == AllocatedIn(old(objs), h, n)
      ensures cap != 0 && |old(objs)| >= cap ==> |objs| == |old(objs)|
    {
      h := 0;
      ok := !Full();
      if ok {
        if handles != [] {
          h := handles[|handles| - 1];
          handles := handles[..|handles| - 1];
        } else {
          h := |objs|;
        }
        objs := AllocatedIn(objs, h, n);
      }
    }

    method Free(h: nat)
      requires Valid() && LiveIn(objs, h)
      modifies this
      ensures Valid() && objs == old(objs)[h := DEAD]
    {
      objs := objs[h := DEAD];
      handles := handles + [h];
    }

    method Write(b: nat, k: nat, v: Val)
      requires Valid() && LiveIn(objs, b) && k < |objs[b].cells|
      modifies this`objs
      ensures Valid() && objs == StoredIn(old(objs), b, k, v)
    {
      objs := StoredIn(objs, b, k, v);
    }
  }
}
