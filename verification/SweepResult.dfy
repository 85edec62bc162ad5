/** What a sweep leaves is determined: every settled engine has exactly one swept pool and table. */
module SweepResults {
  import opened Graphs
  import opened Cells
  import opened EngineState
  import opened Coverage
  import opened Sweeping
  import opened CollectionEngines

  ghost function KeptPool(e: Engine): (p: seq<Slot>)
    requires e.Sized()
    ensures |p| == |e.pool|
  {
    seq(|e.pool|, i requires 0 <= i < |e.pool| => if e.pool[i].live && i !in Kept(e) then Freed(e.pool[i]) else e.pool[i])
  }

  /** The rows of the survivors, before their incoming edges have been counted again. */
  ghost function KeptRows(e: Engine): (t: seq<Row>)
    requires e.Sized()
    ensures |t| == |e.tab|
  {
    seq(|e.tab|, i requires 0 <= i < |e.tab| => if i in Kept(e) then e.tab[i] else EMPTY_ROW)
  }

  ghost function Recounted(e: Engine): (t: seq<Row>)
    requires e.Sized()
    ensures |t| == |e.tab|
  {
    seq(|e.tab|, i requires 0 <= i < |e.tab| && |KeptRows(e)| == |e.tab| == |e.pool| =>
      if i in Kept(e) then KeptRows(e)[i].(edge := In(KeptRows(e), Current(e.pool, i), |e.tab|)) else EMPTY_ROW)
  }

  /** Survivors keep identity, roots and records; their edges are counted again; all marks are gone. */
  ghost function SweptEngine(e: Engine): Engine
    requires e.Sized()
  {
    var none := seq(|e.tab|, _ => false);
    Engine(KeptPool(e), Recounted(e), none, none, [], [])
  }

  lemma RecountedIn(e: Engine, h: Handle)
    requires e.Sized()
    ensures In(Recounted(e), h, |e.tab|) == In(KeptRows(e), h, |e.tab|)
  {
    InSame(Recounted(e), KeptRows(e), h, |e.tab|);
  }

  lemma RecountedRow(e: Engine, i: nat)
    requires e.Sized() && TableOk(e.pool, e.tab) && i in Kept(e)
    ensures RowOk(KeptPool(e), Recounted(e), i)
  {
    RecountedIn(e, Current(e.pool, i));
    KeptClosed(e);
    assert RowOk(e.pool, e.tab, i);
    forall t | t in e.tab[i].outs ensures Valid(KeptPool(e), t) {
      EdgeIff(e.pool, e.tab, i, t.index);
      assert (i, t.index) in e.G();
    }
  }

  lemma RecountedTable(e: Engine)
    requires e.Sized() && TableOk(e.pool, e.tab)
    ensures TableOk(KeptPool(e), Recounted(e))
  {
    forall i | 0 <= i < |e.pool| && KeptPool(e)[i].live ensures RowOk(KeptPool(e), Recounted(e), i) {
      RecountedRow(e, i);
    }
  }

  lemma KeptSurvives(e: Engine)
    requires e.Sized()
    ensures Thinned(e, SweptEngine(e)) && forall u: nat :: SweptEngine(e).Live(u) <==> u in Kept(e)
  {
    var e' := SweptEngine(e);
    forall i: nat | i < |e.tab| ensures Survives(e, e', i) {}
    forall i: nat | i < |e.pool| ensures TurnedSlot(e.pool[i], e'.pool[i]) {}
  }

  /** Every settled engine can be swept: the specification of a sweep is met by some state. */
  lemma SweepExists(e: Engine)
    requires Settled(e)
    ensures Swept(e, SweptEngine(e)) && TurnedOver(e.pool, SweptEngine(e).pool)
  {
    RecountedTable(e);
    KeptSurvives(e);
    UnmarkedIsSettled(SweptEngine(e));
  }

  lemma UnmarkedIsSettled(e: Engine)
    requires e.Sized() && TableOk(e.pool, e.tab) && e.zeroStack == [] && e.suspectStack == []
    requires forall i :: 0 <= i < |e.tab| ==> !e.zeroMark[i] && !e.suspectMark[i]
    ensures Settled(e)
  {
  }

  /** And only by that one, but for the slots' generations. */
  lemma SweepIsUnique(e: Engine, e': Engine)
    requires Consistent(e) && Swept(e, e') && TurnedOver(e.pool, e'.pool)
    ensures e' == SweptEngine(e)
  {
    var t := SweptEngine(e);
    forall i: nat | i < |e.pool| ensures e'.pool[i] == t.pool[i] {
      assert TurnedSlot(e.pool[i], e'.pool[i]) && Survives(e, e', i);
      assert e'.Live(i) <==> i in Kept(e);
    }
    assert e'.pool == t.pool;
    forall i: nat | i < |e.tab| ensures e'.tab[i] == t.tab[i] { UniqueRow(e, e', i); }
    assert e'.tab == t.tab && e'.zeroMark == t.zeroMark && e'.suspectMark == t.suspectMark;
  }

  lemma UniqueRow(e: Engine, e': Engine, i: nat)
    requires Consistent(e) && Swept(e, e') && i < |e.tab| && e'.pool == KeptPool(e)
    ensures e'.tab[i] == SweptEngine(e).tab[i]
  {
    assert Survives(e, e', i) && (e'.Live(i) <==> i in Kept(e));
    if i in Kept(e) {
      var h := Current(e.pool, i);
      assert RowOk(e'.pool, e'.tab, i);
      forall j | 0 <= j < |e.tab| ensures multiset(e'.tab[j].outs)[h] == multiset(KeptRows(e)[j].outs)[h] {
        assert Survives(e, e', j) && (e'.Live(j) <==> j in Kept(e));
      }
      InSame(e'.tab, KeptRows(e), h, |e.tab|);
    }
  }
}
