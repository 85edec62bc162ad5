/** What producers have to do, beyond being safe, for the worker's sweeps to be exact: store only into
    cells their own roots reach over edges of their own. */
module CutGrounds {
  import opened Graphs
  import opened Cells
  import opened EngineState
  import opened Coverage
  import opened Sweeping
  import opened CollectionEngines
  import opened Logs
  import opened Mirror
  import opened CutProtocol
  import opened CutRounds
  import opened FoldedLogs
  import F = Folding
  import FM = FoldMeaning
  import FE = FoldExactness
  import X = Exactness

  // ---- the producer's own ground --------------------------------------------------------------

  /** No other producer has taken more records from `x` to `y` than it had added. */
  ghost predicate Untaken(ps: seq<Producer>, p: nat, x: Handle, y: Handle)
    requires InOrder(ps)
  {
    forall q: nat :: q < |ps| && q != p ==> Lowest(ps[q].log, ps[q].head, x, y) >= 0
  }

  /** After its first `k` messages the producer has an edge from `x` to `y` of its own. */
  ghost predicate Firm(ps: seq<Producer>, p: nat, k: nat, x: Handle, y: Handle)
    requires InOrder(ps) && p < |ps| && k <= |ps[p].log|
  {
    NetEdge(ps[p].log[..k], x, y) > 0 && Untaken(ps, p, x, y)
  }

  ghost predicate FirmStep(ps: seq<Producer>, p: nat, k: nat, path: seq<Handle>, i: nat)
    requires InOrder(ps) && p < |ps| && k <= |ps[p].log| && i + 1 < |path|
  {
    Firm(ps, p, k, path[i], path[i + 1])
  }

  /** A path from a root of the producer over its own edges. */
  ghost predicate Ground(ps: seq<Producer>, p: nat, k: nat, path: seq<Handle>)
    requires InOrder(ps) && p < |ps| && k <= |ps[p].log|
  {
    && path != [] && NetRoot(ps[p].log[..k], path[0]) > 0
    && forall i: nat :: i < |path| - 1 ==> FirmStep(ps, p, k, path, i)
  }

  ghost predicate GroundTo(ps: seq<Producer>, p: nat, k: nat, path: seq<Handle>, a: Handle)
    requires InOrder(ps) && p < |ps| && k <= |ps[p].log|
  {
    Ground(ps, p, k, path) && path[|path| - 1] == a
  }

  /** The producer's test before it folds: every store of the batch goes into a cell on which it holds
      a root of its own, counting the whole batch's change on that cell if a root operation on it
      comes before the store, and none of it otherwise. */
  ghost predicate FoldTest(q: Producer)
    requires q.tail <= |q.log|
  {
    forall k: nat :: k < |q.log[q.tail..]| && q.log[q.tail..][k].EdgeAdd? ==> OwnRoots(q, q.log[q.tail..], k) > 0
  }

  ghost function OwnRoots(q: Producer, ms: seq<Msg>, k: nat): int
    requires q.tail <= |q.log| && k < |ms| && ms[k].EdgeAdd?
  {
    NetRoot(q.log[..q.tail], ms[k].a) + if FE.RootOpBefore(ms, ms[k].a, k) then NetRoot(ms, ms[k].a) else 0
  }

  /** A step an exact run may contain: stores go into cells the producer reaches over its own roots
      and edges, an edge is removed by its owner or when everything has been drained, and a batch is
      folded only if it passes the test. */
  ghost predicate ExactStep(s: World, a: Act) {
    && (a.FoldBatch? && a.p < |s.ps| && s.ps[a.p].tail <= |s.ps[a.p].log| ==> FoldTest(s.ps[a.p]))
    && (a.Stage? && a.p < |s.ps| && InOrder(s.ps) ==> ExactMsg(s, a.p, a.m))
  }

  ghost predicate ExactMsg(s: World, p: nat, m: Msg)
    requires p < |s.ps| && InOrder(s.ps)
  {
    match m
    case EdgeAdd(a, _) => exists path :: GroundTo(s.ps, p, |s.ps[p].log|, path, a)
    case EdgeRemove(a, b) => NetEdge(s.ps[p].log, a, b) > 0 || AllDrained(s.ps)
    case _ => true
  }

  /** In particular a root of its own on the source is enough. */
  lemma OwnRootIsGround(s: World, p: nat, a: Handle, b: Handle)
    requires p < |s.ps| && InOrder(s.ps) && NetRoot(s.ps[p].log, a) > 0
    ensures ExactMsg(s, p, EdgeAdd(a, b))
  {
    assert s.ps[p].log[..|s.ps[p].log|] == s.ps[p].log;
    assert GroundTo(s.ps, p, |s.ps[p].log|, [a], a);
  }

  // ---- what keeps a ground --------------------------------------------------------------------

  ghost predicate NoLower(q: Producer, q': Producer) {
    && q.head <= |q.log| && q'.head <= |q'.log|
    && forall x, y :: Lowest(q.log, q.head, x, y) >= 0 ==> Lowest(q'.log, q'.head, x, y) >= 0
  }

  ghost predicate Emptyish(q: Producer) {
    q.head <= |q.log| && forall x, y :: Lowest(q.log, q.head, x, y) >= 0
  }

  lemma GroundStays(ps: seq<Producer>, ps': seq<Producer>, p: nat, k: nat, path: seq<Handle>)
    requires InOrder(ps) && InOrder(ps') && p < |ps| <= |ps'| && k <= |ps[p].log| && k <= |ps'[p].log|
    requires Ground(ps, p, k, path) && ps'[p].log[..k] == ps[p].log[..k]
    requires forall q: nat :: q < |ps| && q != p ==> NoLower(ps[q], ps'[q])
    requires forall q: nat :: |ps| <= q < |ps'| ==> Emptyish(ps'[q])
    ensures Ground(ps', p, k, path)
  {
    forall i: nat | i < |path| - 1 ensures FirmStep(ps', p, k, path, i) {
      assert FirmStep(ps, p, k, path, i);
      assert Untaken(ps, p, path[i], path[i + 1]);
      forall q: nat | q < |ps'| && q != p ensures Lowest(ps'[q].log, ps'[q].head, path[i], path[i + 1]) >= 0 {
        if q < |ps| { assert NoLower(ps[q], ps'[q]); } else { assert Emptyish(ps'[q]); }
      }
    }
  }

  lemma SameNoLower(q: Producer, q': Producer)
    requires q.head <= |q.log| && q'.log == q.log && q'.head == q.head
    ensures NoLower(q, q')
  {
  }

  lemma StageNoLower(q: Producer, m: Msg)
    requires q.head <= |q.log| && (m.EdgeRemove? ==> NetEdge(q.log, m.a, m.b) > 0)
    ensures NoLower(q, q.(log := q.log + [m]))
  {
    forall x, y | Lowest(q.log, q.head, x, y) >= 0 ensures Lowest(q.log + [m], q.head, x, y) >= 0 {
      LowestAppend(q.log, q.head, m, x, y);
      LowestBelow(q.log, q.head, x, y, |q.log|);
      assert q.log[..|q.log|] == q.log;
    }
  }

  lemma PopNoLower(q: Producer)
    requires q.head < |q.log|
    ensures NoLower(q, q.(head := q.head + 1))
  {
    forall x, y | Lowest(q.log, q.head, x, y) >= 0 ensures Lowest(q.log, q.head + 1, x, y) >= 0 {
      LowestAdvance(q.log, q.head, x, y);
    }
  }

  // ---- a ground is wanted, and reachable ------------------------------------------------------

  lemma {:induction false} PositiveSum(ls: seq<seq<Msg>>, p: nat, a: Handle, b: Handle)
    requires p < |ls| && NetEdge(ls[p], a, b) > 0
    requires forall q: nat :: q < |ls| && q != p ==> NetEdge(ls[q], a, b) >= 0
    ensures SumEdge(ls, a, b) > 0
    decreases |ls|
  {
    var n := |ls| - 1;
    if p < n {
      PositiveSum(ls[..n], p, a, b);
    } else {
      NonNegativeSum(ls[..n], a, b);
    }
  }

  lemma {:induction false} NonNegativeSum(ls: seq<seq<Msg>>, a: Handle, b: Handle)
    requires forall q: nat :: q < |ls| ==> NetEdge(ls[q], a, b) >= 0
    ensures SumEdge(ls, a, b) >= 0
    decreases |ls|
  {
    if ls != [] { NonNegativeSum(ls[..|ls| - 1], a, b); }
  }

  /** A firm edge is in the graph all logs together describe. */
  lemma FirmInFull(s: World, p: nat, x: Handle, y: Handle)
    requires InOrder(s.ps) && p < |s.ps| && Firm(s.ps, p, |s.ps[p].log|, x, y)
    ensures SumEdge(Full(s), x, y) > 0
  {
    assert s.ps[p].log[..|s.ps[p].log|] == s.ps[p].log;
    forall q: nat | q < |s.ps| && q != p ensures NetEdge(Full(s)[q], x, y) >= 0 {
      LowestBelow(s.ps[q].log, s.ps[q].head, x, y, |s.ps[q].log|);
      assert s.ps[q].log[..|s.ps[q].log|] == s.ps[q].log;
    }
    PositiveSum(Full(s), p, x, y);
  }

  /** And, when the producer's turn comes, in the table. */
  lemma FirmInTaken(s: World, p: nat, x: Handle, y: Handle)
    requires InOrder(s.ps) && p < |s.ps| && Firm(s.ps, p, s.ps[p].head, x, y)
    ensures SumEdge(Taken(s), x, y) > 0
  {
    forall q: nat | q < |s.ps| && q != p ensures NetEdge(Taken(s)[q], x, y) >= 0 {
      LowestBelow(s.ps[q].log, s.ps[q].head, x, y, s.ps[q].head);
    }
    PositiveSum(Taken(s), p, x, y);
  }

  ghost predicate WantedHandle(s: World, h: Handle) {
    Valid(s.eng.pool, h) && Wanted(s.eng.pool, Full(s), h.index)
  }

  /** Everything on a producer's own ground is wanted. */
  lemma {:induction false} GroundWanted(s: World, p: nat, path: seq<Handle>, i: nat)
    requires Queues(s) && NothingWantedIsDead(s) && InOrder(s.ps) && p < |s.ps| && Ground(s.ps, p, |s.ps[p].log|, path) && i < |path|
    ensures WantedHandle(s, path[i])
  {
    if i == 0 {
      assert s.ps[p].log[..|s.ps[p].log|] == s.ps[p].log;
      RootWanted(s, p, path[0]);
    } else {
      GroundWanted(s, p, path, i - 1);
      assert FirmStep(s.ps, p, |s.ps[p].log|, path, i - 1);
      FirmWanted(s, p, path[i - 1], path[i]);
    }
  }

  lemma RootWanted(s: World, p: nat, h: Handle)
    requires Queues(s) && NothingWantedIsDead(s) && p < |s.ps| && NetRoot(s.ps[p].log, h) > 0
    ensures WantedHandle(s, h)
  {
    var pool, ls := s.eng.pool, Full(s);
    FullOwn(s);
    ShareRoot(ls, p, h);
    assert Held(pool, ls, h.index);
    ReachRefl(LogGraph(pool, ls), h.index);
    WantedVia(pool, ls, h.index, h.index);
  }

  lemma FirmWanted(s: World, p: nat, x: Handle, y: Handle)
    requires NothingWantedIsDead(s) && InOrder(s.ps) && p < |s.ps| && Firm(s.ps, p, |s.ps[p].log|, x, y) && WantedHandle(s, x)
    ensures WantedHandle(s, y)
  {
    FirmInFull(s, p, x, y);
    assert x == Current(s.eng.pool, x.index) && Valid(s.eng.pool, y);
    WantedOver(s.eng.pool, Full(s), x.index, y.index);
  }

  lemma WantedOver(pool: seq<Slot>, ls: seq<seq<Msg>>, i: nat, j: nat)
    requires Wanted(pool, ls, i) && Drawn(pool, ls, i, j)
    ensures Wanted(pool, ls, j)
  {
    WantedClosed(pool, ls);
    assert (i, j) in LogGraph(pool, ls) && i in WantedSet(pool, ls);
  }

  /** When the worker comes to the store, its source is reachable in the table. */
  lemma {:induction false} GroundReachable(s: World, p: nat, path: seq<Handle>, i: nat)
    requires Queues(s) && TableIs(s) && InOrder(s.ps) && p < |s.ps| && Ground(s.ps, p, s.ps[p].head, path) && i < |path|
    requires PathValid(s.eng.pool, path)
    ensures Reachable(s.eng, path[i].index)
  {
    if i == 0 {
      RootReachable(s, p, path[0]);
    } else {
      GroundReachable(s, p, path, i - 1);
      assert FirmStep(s.ps, p, s.ps[p].head, path, i - 1);
      FirmReachable(s, p, path[i - 1], path[i]);
    }
  }

  ghost predicate TableIs(s: World)
    requires Queues(s)
  {
    s.eng.Sized() && TableOk(s.eng.pool, s.eng.tab) && Mirrors(s.eng, Taken(s))
  }

  lemma RootReachable(s: World, p: nat, h: Handle)
    requires Queues(s) && TableIs(s) && p < |s.ps| && s.ps[p].head <= |s.ps[p].log|
    requires NetRoot(s.ps[p].log[..s.ps[p].head], h) > 0 && Valid(s.eng.pool, h)
    ensures Reachable(s.eng, h.index)
  {
    TakenOwn(s);
    ShareRoot(Taken(s), p, h);
    assert Rooted(s.eng, h.index);
    ReachRefl(s.eng.G(), h.index);
    ReachableVia(s.eng, h.index, h.index);
  }

  lemma FirmReachable(s: World, p: nat, x: Handle, y: Handle)
    requires Queues(s) && TableIs(s) && InOrder(s.ps) && p < |s.ps| && Firm(s.ps, p, s.ps[p].head, x, y)
    requires Valid(s.eng.pool, x) && Valid(s.eng.pool, y) && Reachable(s.eng, x.index)
    ensures Reachable(s.eng, y.index)
  {
    var e := s.eng;
    FirmInTaken(s, p, x, y);
    RecordExists(e, Taken(s), x, y);
    EdgeIff(e.pool, e.tab, x.index, y.index);
    ReachableOver(e, x.index, y.index);
  }

  lemma ReachableOver(e: Engine, i: nat, j: nat)
    requires e.Sized() && Reachable(e, i) && (i, j) in e.G()
    ensures Reachable(e, j)
  {
    var r: nat :| Rooted(e, r) && Reach(e.G(), r, i);
    ReachEdge(e.G(), i, j);
    ReachTrans(e.G(), r, i, j);
    ReachableVia(e, r, j);
  }

  // ---- the invariant of exact runs ------------------------------------------------------------

  ghost predicate PathValid(pool: seq<Slot>, path: seq<Handle>) {
    forall i: nat :: i < |path| ==> Valid(pool, path[i])
  }

  ghost predicate PathVouched(c: World, pool: seq<Slot>, path: seq<Handle>) {
    forall i: nat :: i < |path| ==> Vouched(c, pool, path[i])
  }

  ghost predicate Pending(s: World, p: nat, k: nat) {
    p < |s.ps| && s.ps[p].head <= k < |s.ps[p].log| && s.ps[p].log[k].EdgeAdd?
  }

  /** The store still in the queue will find its source reachable. */
  ghost predicate GroundAt(s: World, p: nat, k: nat)
    requires InOrder(s.ps) && Pending(s, p, k)
  {
    exists path :: GroundTo(s.ps, p, k, path, s.ps[p].log[k].a) && PathValid(s.eng.pool, path)
  }

  /** And will still do so after the sweep for the cut `c`. */
  ghost predicate GroundSinceAt(c: World, s: World, p: nat, k: nat)
    requires InOrder(s.ps) && Pending(s, p, k)
  {
    exists path :: GroundTo(s.ps, p, k, path, s.ps[p].log[k].a) && PathVouched(c, s.eng.pool, path)
  }

  ghost predicate AllGrounded(s: World)
    requires InOrder(s.ps)
  {
    forall p: nat, k: nat :: Pending(s, p, k) ==> GroundAt(s, p, k)
  }

  ghost predicate GroundSince(c: World, s: World) {
    && InOrder(s.ps)
    && forall p: nat, k: nat :: Pending(s, p, k) && QuietThen(c, p) && Submitted(c, p) <= k ==> GroundSinceAt(c, s, p, k)
  }

  /** Every unreachable cell is covered, every named cell noticed, every queued store grounded. */
  ghost predicate Accounted(s: World)
    requires Queues(s) && s.eng.Sized()
  {
    Covered(s.eng) && NamedBorn(s) && InOrder(s.ps) && AllGrounded(s)
  }

  lemma QueuesInOrder(s: World)
    requires Queues(s)
    ensures InOrder(s.ps)
  {
    forall p | 0 <= p < |s.ps| ensures s.ps[p].head <= |s.ps[p].log| { assert QueueOk(s.ps[p]); }
  }

  // ---- a step that lowers nothing -------------------------------------------------------------

  /** Producers have only moved on, without taking records that were not theirs. */
  ghost predicate OnlyMoved(s: World, s': World) {
    && InOrder(s.ps) && InOrder(s'.ps) && |s.ps| <= |s'.ps|
    && (forall q: nat :: q < |s.ps| ==> NoLower(s.ps[q], s'.ps[q]) && s.ps[q].head <= s'.ps[q].head && s.ps[q].log <= s'.ps[q].log)
    && (forall q: nat :: |s.ps| <= q < |s'.ps| ==> Emptyish(s'.ps[q]) && s'.ps[q].log == [])
    && (forall h :: Valid(s.eng.pool, h) ==> Valid(s'.eng.pool, h))
  }

  lemma OldGround(s: World, s': World, p: nat, k: nat, path: seq<Handle>, a: Handle)
    requires OnlyMoved(s, s') && p < |s.ps| && k < |s.ps[p].log| && GroundTo(s.ps, p, k, path, a)
    ensures k <= |s'.ps[p].log| && GroundTo(s'.ps, p, k, path, a)
  {
    assert s'.ps[p].log[..k] == s.ps[p].log[..k];
    GroundStays(s.ps, s'.ps, p, k, path);
  }

  /** A store that was queued before is still grounded. */
  lemma OldGrounded(s: World, s': World, p: nat, k: nat)
    requires OnlyMoved(s, s') && p < |s.ps| && k < |s.ps[p].log| && Pending(s', p, k) && AllGrounded(s)
    ensures GroundAt(s', p, k)
  {
    assert s'.ps[p].log[k] == s.ps[p].log[k];
    assert Pending(s, p, k) && GroundAt(s, p, k);
    var a := s.ps[p].log[k].a;
    var path :| GroundTo(s.ps, p, k, path, a) && PathValid(s.eng.pool, path);
    OldGround(s, s', p, k, path, a);
    assert PathValid(s'.eng.pool, path);
  }

  lemma OldGroundSince(c: World, s: World, s': World, p: nat, k: nat)
    requires OnlyMoved(s, s') && p < |s.ps| && k < |s.ps[p].log| && Pending(s', p, k) && GroundSince(c, s)
    requires QuietThen(c, p) && Submitted(c, p) <= k
    ensures GroundSinceAt(c, s', p, k)
  {
    assert s'.ps[p].log[k] == s.ps[p].log[k];
    assert Pending(s, p, k) && GroundSinceAt(c, s, p, k);
    var a := s.ps[p].log[k].a;
    var path :| GroundTo(s.ps, p, k, path, a) && PathVouched(c, s.eng.pool, path);
    OldGround(s, s', p, k, path, a);
    forall i: nat | i < |path| ensures Vouched(c, s'.eng.pool, path[i]) { assert Vouched(c, s.eng.pool, path[i]); }
  }

  lemma MovedGrounds(c: World, s: World, s': World)
    requires OnlyMoved(s, s') && AllGrounded(s)
    requires forall q: nat :: q < |s.ps| ==> s'.ps[q].log == s.ps[q].log
    ensures AllGrounded(s') && (GroundSince(c, s) ==> GroundSince(c, s'))
  {
    forall p: nat, k: nat | Pending(s', p, k) ensures GroundAt(s', p, k) { OldGrounded(s, s', p, k); }
    if GroundSince(c, s) {
      forall p: nat, k: nat | Pending(s', p, k) && QuietThen(c, p) && Submitted(c, p) <= k ensures GroundSinceAt(c, s', p, k) {
        OldGroundSince(c, s, s', p, k);
      }
    }
  }

  // ---- staging --------------------------------------------------------------------------------

  lemma StageMoves(s: World, p: nat, m: Msg, s': World)
    requires Core(s) && StageStep(s, p, m, s') && (m.EdgeRemove? ==> NetEdge(s.ps[p].log, m.a, m.b) > 0)
    ensures OnlyMoved(s, s')
  {
    QueuesInOrder(s);
    StageNoLower(s.ps[p], m);
    forall q: nat | q < |s.ps| ensures NoLower(s.ps[q], s'.ps[q]) {
      if q != p { SameNoLower(s.ps[q], s'.ps[q]); }
    }
  }

  /** What is staged after a quiesce has nothing else queued beside it. */
  lemma AloneGrounds(s: World, p: nat, m: Msg, s': World)
    requires AllDrained(s.ps) && InOrder(s.ps) && StageStep(s, p, m, s') && m.EdgeRemove? && InOrder(s'.ps)
    ensures AllGrounded(s') && forall c :: GroundSince(c, s')
  {
    forall q: nat, k: nat ensures !Pending(s', q, k) {
      if q < |s.ps| { assert s.ps[q].head == |s.ps[q].log|; }
    }
  }

  lemma NewGround(s: World, p: nat, m: Msg, s': World, path: seq<Handle>)
    requires Core(s) && StageStep(s, p, m, s') && m.EdgeAdd? && OnlyMoved(s, s')
    requires GroundTo(s.ps, p, |s.ps[p].log|, path, m.a)
    ensures GroundTo(s'.ps, p, |s.ps[p].log|, path, m.a) && PathValid(s'.eng.pool, path)
    ensures forall c :: Since(c, s) ==> PathVouched(c, s'.eng.pool, path)
  {
    assert s'.ps[p].log[..|s.ps[p].log|] == s.ps[p].log == s.ps[p].log[..|s.ps[p].log|];
    GroundStays(s.ps, s'.ps, p, |s.ps[p].log|, path);
    forall i: nat | i < |path| ensures WantedHandle(s, path[i]) { GroundWanted(s, p, path, i); }
    forall c | Since(c, s) ensures PathVouched(c, s'.eng.pool, path) {
      forall i: nat | i < |path| ensures Vouched(c, s'.eng.pool, path[i]) {
        assert WantedHandle(s, path[i]) && WantedSince(c, s, path[i].index);
      }
    }
  }

  lemma StageGrounds(c: World, s: World, p: nat, m: Msg, s': World)
    requires Core(s) && InOrder(s.ps) && AllGrounded(s) && StageStep(s, p, m, s') && ExactMsg(s, p, m)
    ensures InOrder(s'.ps) && AllGrounded(s') && (Queues(c) && Since(c, s) && GroundSince(c, s) ==> GroundSince(c, s'))
  {
    if m.EdgeRemove? && NetEdge(s.ps[p].log, m.a, m.b) <= 0 {
      AloneGrounds(s, p, m, s');
    } else {
      StageMoves(s, p, m, s');
      StageGroundsAll(s, p, m, s');
      if Since(c, s) && GroundSince(c, s) { StageGroundsSince(c, s, p, m, s'); }
    }
  }

  lemma StageGroundsAll(s: World, p: nat, m: Msg, s': World)
    requires Core(s) && InOrder(s.ps) && AllGrounded(s) && StageStep(s, p, m, s') && ExactMsg(s, p, m) && OnlyMoved(s, s')
    ensures AllGrounded(s')
  {
    forall q: nat, k: nat | Pending(s', q, k) ensures GroundAt(s', q, k) {
      if q == p && k == |s.ps[p].log| {
        var path :| GroundTo(s.ps, p, |s.ps[p].log|, path, m.a);
        NewGround(s, p, m, s', path);
      } else {
        OldGrounded(s, s', q, k);
      }
    }
  }

  lemma StageGroundsSince(c: World, s: World, p: nat, m: Msg, s': World)
    requires Core(s) && InOrder(s.ps) && StageStep(s, p, m, s') && ExactMsg(s, p, m) && OnlyMoved(s, s')
    requires Since(c, s) && GroundSince(c, s)
    ensures GroundSince(c, s')
  {
    forall q: nat, k: nat | Pending(s', q, k) && QuietThen(c, q) && Submitted(c, q) <= k ensures GroundSinceAt(c, s', q, k) {
      if q == p && k == |s.ps[p].log| {
        var path :| GroundTo(s.ps, p, |s.ps[p].log|, path, m.a);
        NewGround(s, p, m, s', path);
      } else {
        OldGroundSince(c, s, s', q, k);
      }
    }
  }

  lemma StageKeepsBirth(s: World, p: nat, m: Msg, s': World)
    requires Core(s) && Core(s') && NamedBorn(s) && StageStep(s, p, m, s')
    ensures NamedBorn(s')
  {
    StageTaken(s, p, m, s');
  }

  // ---- folding --------------------------------------------------------------------------------

  lemma FoldNoLower(q: Producer)
    requires q.head <= q.tail && StagedFrom(q.log, q.tail)
    ensures NoLower(q, q.(log := FoldedLog(q.log, q.tail)))
  {
    forall x, y | Lowest(q.log, q.head, x, y) >= 0 ensures Lowest(FoldedLog(q.log, q.tail), q.head, x, y) >= 0 {
      FoldedEdges(q.log, q.tail, q.head, x, y);
    }
  }

  /** A store of a folded batch that passed the test finds a root of its producer on its source. */
  lemma FoldedRoot(q: Producer, k: nat)
    requires StagedFrom(q.log, q.tail) && FoldTest(q) && q.tail <= k < |FoldedLog(q.log, q.tail)|
    requires FoldedLog(q.log, q.tail)[k].EdgeAdd?
    ensures NetRoot(FoldedLog(q.log, q.tail)[..k], FoldedLog(q.log, q.tail)[k].a) > 0
  {
    var base, ms := q.log[..q.tail], q.log[q.tail..];
    var f := F.FoldAll(ms);
    var j := k - q.tail;
    var a := f.out[j].a;
    var n := FE.StorePlace(ms, j);
    assert OwnRoots(q, ms, n) > 0;
    FM.FoldedPrefix(f, a, j);
    FM.FoldDelta(ms, a);
    NetConcat(base, f.out[..j]);
    assert FoldedLog(q.log, q.tail)[..k] == base + f.out[..j];
  }

  /** What was visible or another producer's before the fold is as it was. */
  lemma UnfoldedGround(s: World, p: nat, s': World, r: nat, k: nat, path: seq<Handle>, a: Handle)
    requires Queues(s) && Queues(s') && InOrder(s.ps) && InOrder(s'.ps) && FoldStep(s, p, s')
    requires r < |s.ps| && k <= |s.ps[r].log| && (r == p ==> k <= s.ps[p].tail) && GroundTo(s.ps, r, k, path, a)
    ensures k <= |s'.ps[r].log| && GroundTo(s'.ps, r, k, path, a)
  {
    assert QueueOk(s.ps[p]);
    FoldNoLower(s.ps[p]);
    assert s'.ps[r].log[..k] == s.ps[r].log[..k];
    forall q: nat | q < |s.ps| ensures NoLower(s.ps[q], s'.ps[q]) {
      if q != p { SameNoLower(s.ps[q], s'.ps[q]); }
    }
    GroundStays(s.ps, s'.ps, r, k, path);
  }

  lemma FoldedGround(s: World, p: nat, s': World, k: nat)
    requires Queues(s) && InOrder(s'.ps) && FoldStep(s, p, s') && FoldTest(s.ps[p]) && Pending(s', p, k) && s.ps[p].tail <= k
    ensures GroundTo(s'.ps, p, k, [s'.ps[p].log[k].a], s'.ps[p].log[k].a)
  {
    FoldedRoot(s.ps[p], k);
  }

  lemma FoldGroundAt(s: World, p: nat, s': World, r: nat, k: nat)
    requires Queues(s) && Queues(s') && InOrder(s.ps) && InOrder(s'.ps) && FoldStep(s, p, s') && FoldTest(s.ps[p])
    requires AllGrounded(s) && PendingValid(s') && Pending(s', r, k)
    ensures GroundAt(s', r, k)
  {
    if r == p && s.ps[p].tail <= k {
      FoldedGround(s, p, s', k);
      var a := s'.ps[p].log[k].a;
      assert AllValid(s'.eng.pool, s'.ps[p].log[k]) && Mentions(s'.ps[p].log[k], a);
      assert PathValid(s'.eng.pool, [a]);
    } else {
      assert s'.ps[r].log[k] == s.ps[r].log[k];
      assert Pending(s, r, k) && GroundAt(s, r, k);
      var path :| GroundTo(s.ps, r, k, path, s.ps[r].log[k].a) && PathValid(s.eng.pool, path);
      UnfoldedGround(s, p, s', r, k, path, s.ps[r].log[k].a);
      assert PathValid(s'.eng.pool, path);
    }
  }

  lemma FoldGroundSinceAt(c: World, s: World, p: nat, s': World, r: nat, k: nat)
    requires Queues(s) && Queues(s') && InOrder(s.ps) && InOrder(s'.ps) && FoldStep(s, p, s') && FoldTest(s.ps[p])
    requires GroundSince(c, s) && Since(c, s') && Pending(s', r, k) && QuietThen(c, r) && Submitted(c, r) <= k
    ensures GroundSinceAt(c, s', r, k)
  {
    if r == p && s.ps[p].tail <= k {
      FoldedGround(s, p, s', k);
      var a := s'.ps[p].log[k].a;
      assert Named(c, s'.eng.pool, s'.ps[p].log[k]) && Mentions(s'.ps[p].log[k], a);
      assert PathVouched(c, s'.eng.pool, [a]);
    } else {
      assert s'.ps[r].log[k] == s.ps[r].log[k];
      assert Pending(s, r, k) && GroundSinceAt(c, s, r, k);
      var path :| GroundTo(s.ps, r, k, path, s.ps[r].log[k].a) && PathVouched(c, s.eng.pool, path);
      UnfoldedGround(s, p, s', r, k, path, s.ps[r].log[k].a);
      assert PathVouched(c, s'.eng.pool, path);
    }
  }

  lemma FoldAccounted(c: World, s: World, p: nat, s': World)
    requires Core(s) && Accounted(s) && FoldStep(s, p, s') && Core(s') && FoldTest(s.ps[p])
    ensures Accounted(s') && (Since(c, s') && GroundSince(c, s) ==> GroundSince(c, s'))
  {
    FoldTaken(s, p, s');
    QueuesInOrder(s');
    forall r: nat, k: nat | Pending(s', r, k) ensures GroundAt(s', r, k) { FoldGroundAt(s, p, s', r, k); }
    if Since(c, s') && GroundSince(c, s) {
      forall r: nat, k: nat | Pending(s', r, k) && QuietThen(c, r) && Submitted(c, r) <= k ensures GroundSinceAt(c, s', r, k) {
        FoldGroundSinceAt(c, s, p, s', r, k);
      }
    }
  }

  // ---- applying -------------------------------------------------------------------------------

  lemma PopMoves(s: World, s': World)
    requires Core(s) && PopStep(s, s') && s'.eng.pool == s.eng.pool
    ensures OnlyMoved(s, s')
  {
    QueuesInOrder(s);
    assert QueueOk(s.ps[s.w.i]);
    PopNoLower(s.ps[s.w.i]);
    forall q: nat | q < |s.ps| ensures NoLower(s.ps[q], s'.ps[q]) {
      if q != s.w.i { SameNoLower(s.ps[q], s'.ps[q]); }
    }
  }

  lemma PopReaches(s: World, p: nat, m: Msg)
    requires Queues(s) && TableIs(s) && InOrder(s.ps) && AllGrounded(s)
    requires p < |s.ps| && s.ps[p].head < |s.ps[p].log| && m == s.ps[p].log[s.ps[p].head] && m.EdgeAdd?
    ensures Reachable(s.eng, m.a.index)
  {
    var k := s.ps[p].head;
    assert Pending(s, p, k) && GroundAt(s, p, k);
    var path :| GroundTo(s.ps, p, k, path, m.a) && PathValid(s.eng.pool, path);
    GroundReachable(s, p, path, |path| - 1);
  }

  lemma PopDisciplined(s: World, s': World, m: Msg)
    requires Core(s) && Accounted(s) && PopStep(s, s') && m == s.ps[s.w.i].log[s.ps[s.w.i].head]
    ensures AllValid(s.eng.pool, m) && Disciplined(s.eng, m)
  {
    var p := s.w.i;
    PopTaken(s, s');
    assert AllValid(s.eng.pool, m);
    TakenOwn(s);
    if m.EdgeAdd? { PopReaches(s, p, m); }
    MirrorCovers(s.eng, Taken(s), p, m);
  }

  lemma PopAccounted(c: World, s: World, s': World)
    requires Core(s) && Accounted(s) && PopStep(s, s') && Core(s')
    ensures Accounted(s') && (GroundSince(c, s) ==> GroundSince(c, s'))
  {
    var m := s.ps[s.w.i].log[s.ps[s.w.i].head];
    PopDisciplined(s, s', m);
    PopTaken(s, s');
    TakenOwn(s);
    ProcessKeepsTable(s.eng, m);
    ProcessKeepsCovered(s.eng, m);
    PopMoves(s, s');
    MovedGrounds(c, s, s');
    PopFindsRecord(s, s', m);
    PopBorn(s, s', m);
  }

  lemma PopBorn(s: World, s': World, m: Msg)
    requires Core(s) && NamedBorn(s) && PopStep(s, s') && Queues(s')
    requires m == s.ps[s.w.i].log[s.ps[s.w.i].head] && s'.eng.pool == s.eng.pool && Settled(s'.eng)
    requires Taken(s') == Taken(s)[s.w.i := Taken(s)[s.w.i] + [m]]
    requires OwnLogs(Taken(s)) && OwnMsg(Taken(s)[s.w.i], m) && AllValid(s.eng.pool, m) && RecordThere(Taken(s), m)
    requires Disciplined(s.eng, m)
    ensures NamedBorn(s')
  {
    forall i: nat | s'.eng.Live(i) && Mentioned(Taken(s'), Current(s'.eng.pool, i)) ensures Born(s'.eng, i) {
      MentionedAppend(Taken(s), s.w.i, m, Current(s.eng.pool, i));
      TotalsNonNegative(s.eng, i);
      TotalsNonNegative(s'.eng, i);
      if Mentions(m, Current(s.eng.pool, i)) {
        NamingBears(s.eng, Taken(s), s.w.i, m, i);
      } else {
        assert Born(s.eng, i);
        ProcessSkips(s.eng, m, i);
      }
    }
  }

  /** Whatever a message names is referenced or a zero candidate afterwards. */
  lemma NamingBears(e: Engine, ls: seq<seq<Msg>>, p: nat, m: Msg, i: nat)
    requires Settled(e) && e.Live(i) && Mentions(m, Current(e.pool, i)) && Disciplined(e, m)
    requires Mirrors(e, ls) && OwnLogs(ls) && p < |ls| && OwnMsg(ls[p], m) && AllValid(e.pool, m) && RecordThere(ls, m)
    requires e.tab[i].root >= 0 && e.tab[i].edge >= 0
    requires Mentioned(ls, Current(e.pool, i)) ==> Born(e, i)
    requires Process(e, m).Sized() && Process(e, m).pool == e.pool && Process(e, m).TotalOf(i) >= 0
    ensures Born(Process(e, m), i)
  {
    match m
    case RootAdd(b, c) =>
    case RootRemove(b, c) => ShareRoot(ls, p, b);
    case RootCheck(b) =>
    case EdgeAdd(a, b) =>
      assert Mentions(m, a) && Mentions(m, b);
      EdgeAddCounts(e, a, b);
      X.ReachableReferenced(e, a.index);
    case EdgeRemove(a, b) =>
      assert Mentions(m, a) && Mentions(m, b);
      RecordExists(e, ls, a, b);
      EdgeRemoveShape(e, a, b);
      assert Mentioned(ls, a) by { if !Mentioned(ls, a) { UnmentionedSum(ls, a); } }
      EdgeRemoveBears(e, a, b, i);
    case Terminate =>
  }

  // ---- the other steps ------------------------------------------------------------------------

  lemma AllocAccounted(c: World, s: World, i: nat, s': World)
    requires Core(s) && Accounted(s) && AllocStep(s, i, s') && Core(s')
    ensures Accounted(s') && (GroundSince(c, s) ==> GroundSince(c, s'))
  {
    ActivateKeepsCovered(s.eng, i);
    AllocBorn(s, i, s');
    forall q: nat | q < |s.ps| ensures NoLower(s.ps[q], s'.ps[q]) { SameNoLower(s.ps[q], s'.ps[q]); }
    MovedGrounds(c, s, s');
  }

  lemma AllocBorn(s: World, i: nat, s': World)
    requires Queues(s) && Queues(s') && s.eng.Sized() && s'.eng.Sized() && Aged(s) && NamedBorn(s) && AllocStep(s, i, s')
    ensures NamedBorn(s')
  {
    var e, e' := s.eng, s'.eng;
    FreshHandle(s, i, s');
    assert Taken(s') == Taken(s);
    forall j: nat | e'.Live(j) && Mentioned(Taken(s'), Current(e'.pool, j)) ensures Born(e', j) {
      if j == i { TakenMentions(s, Current(e.pool, i)); }
      assert Born(e, j);
    }
  }

  lemma JoinAccounted(c: World, s: World, s': World)
    requires Core(s) && Accounted(s) && JoinStep(s, s') && Core(s')
    ensures Accounted(s') && (GroundSince(c, s) ==> GroundSince(c, s'))
  {
    assert Taken(s') == Taken(s) + [[]];
    JoinMentions(Taken(s));
    forall i: nat | s'.eng.Live(i) && Mentioned(Taken(s'), Current(s'.eng.pool, i)) ensures Born(s'.eng, i) {
      assert Mentioned(Taken(s), Current(s.eng.pool, i));
    }
    QueuesInOrder(s');
    forall q: nat | q < |s.ps| ensures NoLower(s.ps[q], s'.ps[q]) { SameNoLower(s.ps[q], s'.ps[q]); }
    assert Emptyish(s'.ps[|s.ps|]);
    MovedGrounds(c, s, s');
  }

  lemma QuietAccounted(c: World, s: World, s': World)
    requires Core(s) && Accounted(s) && SameLogs(s, s') && Core(s')
    ensures Accounted(s') && (GroundSince(c, s) ==> GroundSince(c, s'))
  {
    assert forall p :: 0 <= p < |s.ps| ==> SameLog(s.ps[p], s'.ps[p]);
    SameAccounted(c, s, s');
  }

  lemma SameAccounted(c: World, s: World, s': World)
    requires Core(s) && Accounted(s) && Core(s') && s'.eng == s.eng && |s'.ps| == |s.ps|
    requires forall p :: 0 <= p < |s.ps| ==> s'.ps[p].log == s.ps[p].log && s'.ps[p].head == s.ps[p].head
    ensures Accounted(s') && (GroundSince(c, s) ==> GroundSince(c, s'))
  {
    assert Taken(s') == Taken(s);
    QueuesInOrder(s');
    forall q: nat | q < |s.ps| ensures NoLower(s.ps[q], s'.ps[q]) { SameNoLower(s.ps[q], s'.ps[q]); }
    MovedGrounds(c, s, s');
  }

  lemma StageAccounted(c: World, s: World, p: nat, m: Msg, s': World)
    requires Core(s) && Accounted(s) && StageStep(s, p, m, s') && ExactStep(s, Stage(p, m)) && Core(s')
    ensures Accounted(s') && (Queues(c) && Since(c, s) && GroundSince(c, s) ==> GroundSince(c, s'))
  {
    StageKeepsBirth(s, p, m, s');
    StageGrounds(c, s, p, m, s');
  }

  /** Every step of an exact run but the end of a round. */
  lemma StepAccounted(c: World, s: World, a: Act, s': World)
    requires Core(s) && Accounted(s) && Next(s, a, s') && !a.EndRound? && ExactStep(s, a) && Core(s')
    ensures Accounted(s') && (Queues(c) && Since(c, s) && GroundSince(c, s) ==> GroundSince(c, s'))
  {
    if Busy(a) {
      BusyAccounted(c, s, a, s');
    } else if a.Pop? {
      PopAccounted(c, s, s');
    } else {
      QuietStep(s, a, s');
      QuietAccounted(c, s, s');
    }
  }

  lemma BusyAccounted(c: World, s: World, a: Act, s': World)
    requires Core(s) && Accounted(s) && ProducerStep(s, a, s') && Busy(a) && ExactStep(s, a) && Core(s')
    ensures Accounted(s') && (Queues(c) && Since(c, s) && GroundSince(c, s) ==> GroundSince(c, s'))
  {
    match a
    case Stage(p, m) => StageAccounted(c, s, p, m, s');
    case FoldBatch(p) =>
      assert QueueOk(s.ps[p]);
      FoldAccounted(c, s, p, s');
      if Queues(c) && Since(c, s) { FoldSince(c, s, p, s'); }
    case Alloc(i) => AllocAccounted(c, s, i, s');
    case Join => JoinAccounted(c, s, s');
  }

  // ---- the sweep ------------------------------------------------------------------------------

  /** The sweep frees exactly the cells that were named before the cut and not wanted at it. */
  lemma SweepAtCut(c: World, s: World, e': Engine, u: nat)
    requires Core(s) && Accounted(s) && Since(c, s) && Drained(c, s) && Swept(s.eng, e')
    ensures e'.Live(u) <==>
            (s.eng.Live(u) && (Wanted(c.eng.pool, Full(c), u) || !Mentioned(Full(c), Current(s.eng.pool, u))))
  {
    X.SweptExactly(s.eng, e', u);
    DrainedIsCut(c, s, u);
    if s.eng.Live(u) && Mentioned(Taken(s), Current(s.eng.pool, u)) { assert Born(s.eng, u); }
  }

  lemma SweepKeepsBirth(s: World, s': World)
    requires Core(s) && Accounted(s) && Swept(s.eng, s'.eng) && s'.ps == s.ps && Core(s')
    ensures NamedBorn(s')
  {
    var e, e' := s.eng, s'.eng;
    assert Taken(s') == Taken(s);
    forall i: nat | e'.Live(i) && Mentioned(Taken(s'), Current(e'.pool, i)) ensures Born(e', i) {
      assert Survives(e, e', i);
      X.SweptExactly(e, e', i);
      assert Born(e, i) && !Unborn(e, i);
      X.SweptReachable(e, e', i);
      X.ReachableReferenced(e', i);
    }
  }

  lemma SweepAccounted(c: World, s: World, s': World)
    requires Core(s) && Accounted(s) && RoundInv(c, s) && GroundSince(c, s) && EndStep(s, s') && s.w.stable && Core(s')
    ensures Accounted(s')
  {
    RoundDrained(c, s);
    X.StepKeeps(s.eng, X.Collect, s'.eng);
    SweepKeepsBirth(s, s');
    forall p: nat, k: nat | Pending(s', p, k) ensures GroundAt(s', p, k) {
      assert Pending(s, p, k) && Submitted(c, p) <= k && QuietThen(c, p);
      assert GroundSinceAt(c, s, p, k);
      var path :| GroundTo(s.ps, p, k, path, s.ps[p].log[k].a) && PathVouched(c, s.eng.pool, path);
      forall i: nat | i < |path| ensures Valid(s'.eng.pool, path[i]) {
        assert Vouched(c, s.eng.pool, path[i]);
        SweptStaysValid(c, s, s'.eng, path[i]);
      }
      assert PathValid(s'.eng.pool, path);
    }
  }
}
