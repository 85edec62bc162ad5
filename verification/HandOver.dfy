/** What a hand-over achieves: the frozen component arrives at the worker as it was, whatever the
    other threads do in between, and the operation that asked for it can go ahead. */
module HandOvers {
  import opened Graphs
  import opened Cells
  import opened EngineState
  import opened CollectionEngines
  import opened SweepResults
  import opened Regimes
  import opened Promotion

  // ---- freezing -------------------------------------------------------------------------------

  /** The pool and rows after the owner's sweep, with the tags from before the freeze. */
  function Unfrozen(s: World, s': World): World { s'.(tags := s.tags) }

  /** The cells a freeze step takes: what is connected to a surviving seed. */
  ghost function Picked(s: World, s': World, o: nat, seeds: seq<Handle>): set<nat> {
    ComponentOf(Unfrozen(s, s'), o, seeds)
  }

  ghost predicate FrozenExactly(s: World, s': World, o: nat, seeds: seq<Handle>)
    requires |s'.tags| == |s.tags|
  {
    forall i: nat :: i < |s.tags| ==> s'.tags[i] == if i in Picked(s, s', o, seeds) then Tag(Promoting, o) else s.tags[i]
  }

  /** A freeze changes exactly the tags of what is connected to a seed that survived the sweep. */
  ghost predicate Froze(s: World, s': World, o: nat, seeds: seq<Handle>) {
    && |s'.tags| == |s.tags| && FrozenExactly(s, s', o, seeds)
    && (forall h :: h in seeds && Mine(Unfrozen(s, s'), o, h.index) ==> h.index in Picked(s, s', o, seeds))
    && (forall i :: i in Picked(s, s', o, seeds) ==> Has(s', Frozen(o), i))
  }

  lemma FreezeTags(s: World, o: nat, seeds: seq<Handle>, s': World)
    requires Sized(s) && Acts(s, Freeze(o, seeds), s')
    ensures Froze(s, s', o, seeds)
  {
    var e :| SweptBy(s, LocalEngine(o), e) && s' == FrozenAfter(Became(s, LocalEngine(o), e), o, seeds);
    var s1 := Became(s, LocalEngine(o), e);
    SweptSized(s, LocalEngine(o), e);
    FrozenFrom(s, s1, o, seeds);
  }

  lemma SweptSized(s: World, k: nat, e: Engine)
    requires Sized(s) && k < |s.marks| && Swept(Whole(s, k), e)
    ensures Sized(Became(s, k, e))
  {
  }

  lemma FrozenFrom(s: World, s1: World, o: nat, seeds: seq<Handle>)
    requires Sized(s1) && s1.tags == s.tags
    ensures Froze(s, FrozenAfter(s1, o, seeds), o, seeds)
  {
    var s' := FrozenAfter(s1, o, seeds);
    SamePicked(s1, Unfrozen(s, s'), o, seeds);
    forall i: nat | i < |s.tags| ensures s'.tags[i] == if i in Picked(s, s', o, seeds) then Tag(Promoting, o) else s.tags[i] {
      if i in ComponentOf(s1, o, seeds) { ComponentIsMine(s1, o, seeds, i); }
    }
    forall i | i in Picked(s, s', o, seeds) ensures Has(s', Frozen(o), i) { ComponentIsMine(s1, o, seeds, i); }
    forall h | h in seeds && Mine(Unfrozen(s, s'), o, h.index) ensures h.index in Picked(s, s', o, seeds) {
      SeedIsPicked(s1, o, seeds, h);
    }
  }

  lemma SeedIsPicked(s: World, o: nat, seeds: seq<Handle>, h: Handle)
    requires Sized(s) && h in seeds && Mine(s, o, h.index)
    ensures h.index in ComponentOf(s, o, seeds)
  {
    assert h.index in Seeds(s, o, seeds);
    ReachRefl(Links(s, o), h.index);
    assert ReachedFrom(Links(s, o), Seeds(s, o, seeds), h.index);
  }

  /** The component depends on pool, rows and tags only. */
  lemma SamePicked(s: World, t: World, o: nat, seeds: seq<Handle>)
    requires t.pool == s.pool && t.tab == s.tab && t.tags == s.tags
    ensures ComponentOf(t, o, seeds) == ComponentOf(s, o, seeds)
  {
    assert forall i: nat :: Mine(t, o, i) == Mine(s, o, i);
    assert Links(t, o) == Links(s, o);
    assert Seeds(t, o, seeds) == Seeds(s, o, seeds);
  }

  // ---- committing -----------------------------------------------------------------------------

  /** A commit makes every frozen cell of the owner SHARED, and changes nothing else. */
  ghost predicate Committed(s: World, s': World, o: nat) {
    && |s'.tags| == |s.tags| && s' == s.(tags := s'.tags) && Home(s', Frozen(o)) == {}
    && forall i: nat :: i < |s.tags| ==> s'.tags[i] == if Has(s, Frozen(o), i) then Tag(Shared, o) else s.tags[i]
  }

  lemma CommitTags(s: World, o: nat, s': World)
    requires Struct(s) && Acts(s, Commit(o), s')
    ensures Committed(s, s', o)
  {
    forall i: nat | i < |s.tags| ensures s'.tags[i] == if Has(s, Frozen(o), i) then Tag(Shared, o) else s.tags[i] {
      if Has(s, Frozen(o), i) { FrozenTag(s.tags[i], o); }
    }
  }

  lemma FrozenTag(t: Tag, o: nat)
    requires AuthorityOf(t) == Frozen(o)
    ensures t == Tag(Promoting, o)
  {
  }

  // ---- in between -----------------------------------------------------------------------------

  /** A frozen cell stays as it is, row and slot and tag, until its owner's commit. */
  lemma FrozenStays(s: World, a: Action, s': World, o: nat, i: nat)
    requires Struct(s) && Acts(s, a, s') && Has(s, Frozen(o), i) && a != Commit(o)
    ensures i < |s'.tab| && i < |s'.pool| && i < |s'.tags|
    ensures s'.tab[i] == s.tab[i] && s'.pool[i] == s.pool[i] && s'.tags[i] == s.tags[i]
  {
    FrozenUntouched(s, o, i);
    ActWritesHome(s, a, s', i);
    FrozenTagStays(s, a, s', o, i);
  }

  lemma FrozenUntouched(s: World, o: nat, i: nat)
    requires Has(s, Frozen(o), i)
    ensures forall k: nat :: !CanTouch(s, k, i)
  {
  }

  lemma FrozenTagStays(s: World, a: Action, s': World, o: nat, i: nat)
    requires Struct(s) && Acts(s, a, s') && Has(s, Frozen(o), i) && a != Commit(o)
    ensures i < |s'.tags| && s'.tags[i] == s.tags[i]
  {
    FrozenTag(s.tags[i], o);
    match a
    case AllocLocal(_, _) =>
    case AllocShared(_, _) =>
    case LocalOp(_, _) =>
    case Submit(_) =>
    case WorkerOp(_) =>
    case SweepBy(_) =>
    case Freeze(o', seeds) =>
      FrozenTags(s, o', seeds, s', i);
    case Commit(o') => CommitTags(s, o', s');
  }

  lemma {:induction false} StaysFrozen(ss: seq<World>, acts: seq<Action>, n: nat, k: nat, o: nat, i: nat)
    requires Actions(ss, acts) && n <= k < |ss| && Has(ss[n], Frozen(o), i)
    requires forall j :: n <= j < k ==> acts[j] != Commit(o)
    ensures Has(ss[k], Frozen(o), i) && i < |ss[k].tab| && i < |ss[n].tab| && i < |ss[n].tags|
    ensures ss[k].tab[i] == ss[n].tab[i] && ss[k].pool[i] == ss[n].pool[i] && ss[k].tags[i] == ss[n].tags[i]
    decreases k
  {
    if n < k {
      StaysFrozen(ss, acts, n, k - 1, o, i);
      FrozenStep(ss, acts, k - 1, o, i);
    } else {
      AlwaysStruct(ss, acts, n);
    }
  }

  lemma FrozenStep(ss: seq<World>, acts: seq<Action>, k: nat, o: nat, i: nat)
    requires Actions(ss, acts) && k < |acts| && Has(ss[k], Frozen(o), i) && acts[k] != Commit(o)
    ensures Has(ss[k + 1], Frozen(o), i) && i < |ss[k].tab| && i < |ss[k + 1].tab| && i < |ss[k].tags|
    ensures ss[k + 1].tab[i] == ss[k].tab[i] && ss[k + 1].pool[i] == ss[k].pool[i] && ss[k + 1].tags[i] == ss[k].tags[i]
  {
    AlwaysStruct(ss, acts, k);
    assert ActAt(ss, acts, k);
    FrozenStays(ss[k], acts[k], ss[k + 1], o, i);
  }

  lemma FreezeAt(ss: seq<World>, acts: seq<Action>, n: nat)
    requires Actions(ss, acts) && n < |acts| && acts[n].Freeze?
    ensures Froze(ss[n], ss[n + 1], acts[n].o, acts[n].seeds)
  {
    assert ActAt(ss, acts, n);
    FreezeTags(ss[n], acts[n].o, acts[n].seeds, ss[n + 1]);
  }

  lemma CommitAt(ss: seq<World>, acts: seq<Action>, n: nat)
    requires Actions(ss, acts) && n < |acts| && acts[n].Commit?
    ensures Committed(ss[n], ss[n + 1], acts[n].o)
  {
    AlwaysStruct(ss, acts, n);
    assert ActAt(ss, acts, n);
    CommitTags(ss[n], acts[n].o, ss[n + 1]);
  }

  /** A cell as the worker takes it over: same slot, same row, SHARED. */
  ghost predicate Arrived(s: World, s': World, o: nat, i: nat) {
    && i < |s.pool| && i < |s.tab| && i < |s'.pool| && i < |s'.tab| && i < |s'.tags|
    && LiveAt(s'.pool, i) && s'.pool[i] == s.pool[i] && s'.tab[i] == s.tab[i] && s'.tags[i] == Tag(Shared, o)
  }

  ghost predicate AllArrived(s: World, s': World, o: nat, p: set<nat>) {
    forall i :: i in p ==> Arrived(s, s', o, i)
  }

  /** The owner freezes at step `n` and commits at step `m`, whatever the others do in between: every
      cell connected to a surviving seed arrives SHARED, with its row as it was frozen, no cell of the
      owner stays half way, and the commit changes no other tag. */
  lemma HandOverCompletes(ss: seq<World>, acts: seq<Action>, n: nat, m: nat)
    requires Actions(ss, acts) && n < m < |acts| && acts[n].Freeze? && acts[m] == Commit(acts[n].o)
    requires forall j :: n < j < m ==> acts[j] != acts[m]
    ensures Froze(ss[n], ss[n + 1], acts[n].o, acts[n].seeds)
    ensures AllArrived(ss[n + 1], ss[m + 1], acts[n].o, Picked(ss[n], ss[n + 1], acts[n].o, acts[n].seeds))
    ensures Committed(ss[m], ss[m + 1], acts[n].o)
  {
    var o, p := acts[n].o, Picked(ss[n], ss[n + 1], acts[n].o, acts[n].seeds);
    FreezeAt(ss, acts, n);
    CommitAt(ss, acts, m);
    var before, after := ss[n + 1], ss[m + 1];
    forall i | i in p ensures Arrived(before, after, o, i) { StaysFrozen(ss, acts, n + 1, m, o, i); }
  }

  /** An owner can freeze whenever it likes, and commit what it has frozen. */
  lemma HandOverPossible(s: World, o: nat, seeds: seq<Handle>) returns (s1: World, s2: World)
    requires Struct(s) && Frozen(o) < |s.marks|
    ensures Acts(s, Freeze(o, seeds), s1) && Sized(s1) && Acts(s1, Commit(o), s2)
  {
    var k := LocalEngine(o);
    WholeSettled(s, k);
    var e := SweptEngine(Whole(s, k));
    SweepExists(Whole(s, k));
    assert SweptBy(s, k, e);
    s1 := FrozenAfter(Became(s, k, e), o, seeds);
    ActKeeps(s, Freeze(o, seeds), s1);
    s2 := Retag(s1, Home(s1, Frozen(o)), Shared);
  }

  // ---- the operation that asked ---------------------------------------------------------------

  /** The cell of `h` lives from state `n` to state `m`. */
  ghost predicate Held(ss: seq<World>, n: nat, m: nat, h: Handle) {
    forall k: nat :: n <= k <= m ==> HeldAt(ss, k, h)
  }

  ghost predicate HeldAt(ss: seq<World>, k: nat, h: Handle) {
    k < |ss| && Sized(ss[k]) && Valid(ss[k].pool, h)
  }

  ghost function TagAt(ss: seq<World>, k: nat, h: Handle): Tag
    requires HeldAt(ss, k, h)
  {
    ss[k].tags[h.index]
  }

  lemma {:induction false} TagsRise(ss: seq<World>, acts: seq<Action>, n: nat, m: nat, h: Handle)
    requires Actions(ss, acts) && n <= m && Held(ss, n, m, h)
    ensures HeldAt(ss, n, h) && HeldAt(ss, m, h) && Rises(TagAt(ss, n, h), TagAt(ss, m, h))
    decreases m
  {
    assert HeldAt(ss, n, h) && HeldAt(ss, m, h);
    if n < m {
      assert Held(ss, n, m - 1, h);
      TagsRise(ss, acts, n, m - 1, h);
      AlwaysStruct(ss, acts, m - 1);
      assert ActAt(ss, acts, m - 1);
      TagsOnlyRise(ss[m - 1], acts[m - 1], ss[m], h);
    }
  }

  /** Between states `n` and `m` the owner of `h` freezes with `h` among the seeds at step `f` and
      commits at step `c`; or had frozen it before and commits. */
  ghost predicate Promotes(ss: seq<World>, acts: seq<Action>, n: nat, m: nat, h: Handle, f: nat, c: nat)
    requires HeldAt(ss, n, h)
  {
    var t := TagAt(ss, n, h);
    && n <= f <= c < m && c < |acts| && acts[c] == Commit(t.owner)
    && (t.regime == Promoting || (f < c && acts[f].Freeze? && acts[f].o == t.owner && h in acts[f].seeds))
  }

  /** A promotion makes its cell SHARED. */
  lemma PromotedIsShared(ss: seq<World>, acts: seq<Action>, n: nat, m: nat, h: Handle, f: nat, c: nat)
    requires Actions(ss, acts) && m < |ss| && Held(ss, n, m, h) && HeldAt(ss, n, h) && HeldAt(ss, m, h)
    requires Promotes(ss, acts, n, m, h, f, c)
    ensures TagAt(ss, m, h).regime == Shared
  {
    var o := TagAt(ss, n, h).owner;
    assert Held(ss, n, c, h) && Held(ss, c + 1, m, h) && HeldAt(ss, c, h) && HeldAt(ss, c + 1, h);
    if TagAt(ss, n, h).regime != Promoting { FreezeLifts(ss, acts, n, m, h, f, c); }
    TagsRise(ss, acts, n, c, h);
    CommitLifts(ss, acts, c, h);
    TagsRise(ss, acts, c + 1, m, h);
  }

  lemma CommitLifts(ss: seq<World>, acts: seq<Action>, c: nat, h: Handle)
    requires Actions(ss, acts) && c < |acts| && HeldAt(ss, c, h) && HeldAt(ss, c + 1, h)
    requires acts[c] == Commit(TagAt(ss, c, h).owner) && TagAt(ss, c, h).regime != Local
    ensures TagAt(ss, c + 1, h).regime == Shared
  {
    CommitAt(ss, acts, c);
  }

  lemma FreezeLifts(ss: seq<World>, acts: seq<Action>, n: nat, m: nat, h: Handle, f: nat, c: nat)
    requires Actions(ss, acts) && m < |ss| && Held(ss, n, m, h) && HeldAt(ss, n, h) && HeldAt(ss, c, h)
    requires n <= f < c < m && acts[f].Freeze? && acts[f].o == TagAt(ss, n, h).owner && h in acts[f].seeds
    ensures TagAt(ss, c, h).regime != Local && TagAt(ss, c, h).owner == TagAt(ss, n, h).owner
  {
    assert Held(ss, n, f, h) && Held(ss, f + 1, c, h) && HeldAt(ss, f, h) && HeldAt(ss, f + 1, h);
    TagsRise(ss, acts, n, f, h);
    FreezeAt(ss, acts, f);
    TagsRise(ss, acts, f + 1, c, h);
  }

  ghost function PickedEnd(ss: seq<World>, n: nat, src: Handle, dst: Handle, me: nat): Handle
    requires HeldAt(ss, n, src) && HeldAt(ss, n, dst)
  {
    if PicksSource(TagAt(ss, n, src), TagAt(ss, n, dst), me) then src else dst
  }

  ghost predicate MayGoAhead(ss: seq<World>, n: nat, src: Handle, dst: Handle, me: nat)
    requires HeldAt(ss, n, src) && HeldAt(ss, n, dst)
  {
    Ready(TagAt(ss, n, src), TagAt(ss, n, dst), me)
  }

  /** The promotion of the picked end is one of those of which two settle an operation. */
  lemma PickIsPromoted(ss: seq<World>, acts: seq<Action>, n: nat, m: nat, src: Handle, dst: Handle, me: nat, f: nat, c: nat)
    requires Actions(ss, acts) && n <= m < |ss| && Held(ss, n, m, src) && Held(ss, n, m, dst)
    requires HeldAt(ss, n, src) && HeldAt(ss, n, dst) && Promotes(ss, acts, n, m, PickedEnd(ss, n, src, dst, me), f, c)
    ensures HeldAt(ss, m, src) && HeldAt(ss, m, dst)
    ensures PromotedOnce(TagAt(ss, n, src), TagAt(ss, n, dst), me, TagAt(ss, m, src), TagAt(ss, m, dst))
  {
    TagsRise(ss, acts, n, m, src);
    TagsRise(ss, acts, n, m, dst);
    PromotedIsShared(ss, acts, n, m, PickedEnd(ss, n, src, dst, me), f, c);
  }

  /** An edge operation whose ends live on goes ahead after at most two promotions of the end its
      retry loop picks, whatever else the owners do meanwhile. */
  lemma EdgeOpSettles(ss: seq<World>, acts: seq<Action>, n: nat, m1: nat, m2: nat, src: Handle, dst: Handle, me: nat,
                      f1: nat, c1: nat, f2: nat, c2: nat)
    requires Actions(ss, acts) && n <= m1 <= m2 < |ss| && Held(ss, n, m2, src) && Held(ss, n, m2, dst)
    requires HeldAt(ss, n, src) && HeldAt(ss, n, dst) && HeldAt(ss, m1, src) && HeldAt(ss, m1, dst) && HeldAt(ss, m2, src) && HeldAt(ss, m2, dst)
    requires !MayGoAhead(ss, n, src, dst, me) && Promotes(ss, acts, n, m1, PickedEnd(ss, n, src, dst, me), f1, c1)
    requires !MayGoAhead(ss, m1, src, dst, me) ==> Promotes(ss, acts, m1, m2, PickedEnd(ss, m1, src, dst, me), f2, c2)
    ensures MayGoAhead(ss, m1, src, dst, me) || MayGoAhead(ss, m2, src, dst, me)
  {
    assert Held(ss, n, m1, src) && Held(ss, n, m1, dst) && Held(ss, m1, m2, src) && Held(ss, m1, m2, dst);
    PickIsPromoted(ss, acts, n, m1, src, dst, me, f1, c1);
    if !MayGoAhead(ss, m1, src, dst, me) { PickIsPromoted(ss, acts, m1, m2, src, dst, me, f2, c2); }
    TwoPromotionsSettle(TagAt(ss, n, src), TagAt(ss, n, dst), TagAt(ss, m1, src), TagAt(ss, m1, dst),
                        TagAt(ss, m2, src), TagAt(ss, m2, dst), me);
  }
}
