/** Producers that stage and publish messages, a worker that takes consistent cuts of their queues,
    and the quiesce tickets it serves: every interleaving, as steps of one state. */
module CutProtocol {
  import opened Graphs
  import opened Cells
  import opened EngineState
  import opened Coverage
  import opened CollectionEngines
  import opened Logs
  import opened Mirror
  import opened FoldedLogs

  /** `log` is everything submitted, `log[..tail]` what the ring shows the worker, `log[..head]` what
      the worker has taken.  `pubSeq` is odd while a batch is open. */
  datatype Producer = Producer(log: seq<Msg>, tail: nat, head: nat, pubSeq: nat)

  datatype Phase = Idle | Armed | Slots | Pre | Tails | Post | Epoch | Drain

  /** The worker's round scratch: `i` is the loop index of the current phase. */
  datatype Worker = Worker(phase: Phase, i: nat, before: nat, cached: nat, n: nat,
                           pre: seq<nat>, tails: seq<nat>, stable: bool, serve: nat)

  /** A quiesce ticket: the caller's queue and how much it had submitted when the ticket was issued. */
  datatype Ticket = Ticket(p: nat, len: nat)

  /** `retired` slots were freed at their last generation and are never handed out again. */
  datatype World = World(ps: seq<Producer>, eng: Engine, w: Worker, tickets: seq<Ticket>, completed: nat, retired: set<nat>)

  ghost function Full(s: World): (ls: seq<seq<Msg>>)
    ensures |ls| == |s.ps| && forall p :: 0 <= p < |s.ps| ==> ls[p] == s.ps[p].log
  {
    seq(|s.ps|, p requires 0 <= p < |s.ps| => s.ps[p].log)
  }

  ghost function Taken(s: World): (ls: seq<seq<Msg>>)
    requires forall p :: 0 <= p < |s.ps| ==> s.ps[p].head <= |s.ps[p].log|
    ensures |ls| == |s.ps| && forall p :: 0 <= p < |s.ps| ==> ls[p] == s.ps[p].log[..s.ps[p].head]
  {
    seq(|s.ps|, p requires 0 <= p < |s.ps| && s.ps[p].head <= |s.ps[p].log| => s.ps[p].log[..s.ps[p].head])
  }

  predicate Open(p: Producer) { p.pubSeq % 2 == 1 }

  // ---- removals find their record -------------------------------------------------------------

  ghost predicate InOrder(ps: seq<Producer>) {
    forall p :: 0 <= p < |ps| ==> ps[p].head <= |ps[p].log|
  }

  /** The fewest records from `a` to `b` the table will hold, in whatever order the queues are
      drained. */
  ghost function SumLowest(ps: seq<Producer>, a: Handle, b: Handle): int
    requires InOrder(ps)
  {
    if ps == [] then 0
    else SumLowest(ps[..|ps| - 1], a, b) + Lowest(ps[|ps| - 1].log, ps[|ps| - 1].head, a, b)
  }

  /** No order of draining what has been submitted applies a removal before there is a record for
      it. */
  ghost predicate Backed(ps: seq<Producer>, a: Handle, b: Handle) {
    InOrder(ps) && SumLowest(ps, a, b) >= 0
  }

  lemma {:induction false} SumLowestUpdate(ps: seq<Producer>, p: nat, q: Producer, a: Handle, b: Handle)
    requires InOrder(ps) && p < |ps| && q.head <= |q.log|
    ensures SumLowest(ps[p := q], a, b) ==
            SumLowest(ps, a, b) - Lowest(ps[p].log, ps[p].head, a, b) + Lowest(q.log, q.head, a, b)
    decreases |ps|
  {
    var n := |ps| - 1;
    if p == n {
      assert ps[p := q][..n] == ps[..n];
    } else {
      SumLowestUpdate(ps[..n], p, q, a, b);
      assert ps[p := q][..n] == ps[..n][p := q];
    }
  }

  lemma {:induction false} SumLowestTaken(s: World, n: nat, a: Handle, b: Handle)
    requires InOrder(s.ps) && n <= |s.ps|
    ensures SumLowest(s.ps[..n], a, b) <= SumEdge(Taken(s)[..n], a, b)
  {
    if n > 0 {
      SumLowestTaken(s, n - 1, a, b);
      assert s.ps[..n][..n - 1] == s.ps[..n - 1] && Taken(s)[..n][..n - 1] == Taken(s)[..n - 1];
      LowestBelow(s.ps[n - 1].log, s.ps[n - 1].head, a, b, s.ps[n - 1].head);
    }
  }

  lemma LowestIsTaken(s: World, a: Handle, b: Handle)
    requires InOrder(s.ps)
    ensures SumLowest(s.ps, a, b) <= SumEdge(Taken(s), a, b)
  {
    SumLowestTaken(s, |s.ps|, a, b);
    assert s.ps[..|s.ps|] == s.ps && Taken(s)[..|s.ps|] == Taken(s);
  }

  // ---- who may remove an edge -----------------------------------------------------------------

  /** The producer has only ever removed edges it had added and not removed. */
  ghost predicate OwnEdges(log: seq<Msg>) {
    forall k: nat :: k < |log| && log[k].EdgeRemove? ==> NetEdge(log[..k], log[k].a, log[k].b) > 0
  }

  lemma {:induction false} OwnLowest(log: seq<Msg>, head: nat, a: Handle, b: Handle)
    requires OwnEdges(log) && head <= |log|
    ensures Lowest(log, head, a, b) >= 0 && NetEdge(log, a, b) >= 0
    decreases |log|
  {
    if |log| > 0 {
      var n := |log| - 1;
      forall k: nat | k < n && log[..n][k].EdgeRemove? ensures NetEdge(log[..n][..k], log[..n][k].a, log[..n][k].b) > 0 {
        assert log[..n][..k] == log[..k] && log[..n][k] == log[k];
      }
      OwnLowest(log[..n], if head <= n then head else n, a, b);
    }
  }

  lemma {:induction false} OwnSumLowest(ps: seq<Producer>, a: Handle, b: Handle)
    requires InOrder(ps) && forall p :: 0 <= p < |ps| ==> OwnEdges(ps[p].log)
    ensures SumLowest(ps, a, b) >= 0
    decreases |ps|
  {
    if ps != [] {
      var n := |ps| - 1;
      OwnSumLowest(ps[..n], a, b);
      OwnLowest(ps[n].log, ps[n].head, a, b);
    }
  }

  /** Where everyone removes only edges of its own, a removal is backed. */
  lemma OwnRemovalBacked(s: World, p: nat, a: Handle, b: Handle)
    requires InOrder(s.ps) && p < |s.ps| && NetEdge(s.ps[p].log, a, b) > 0
    requires forall q :: 0 <= q < |s.ps| ==> OwnEdges(s.ps[q].log)
    ensures Backed(s.ps[p := s.ps[p].(log := s.ps[p].log + [EdgeRemove(a, b)])], a, b)
  {
    var log := s.ps[p].log;
    var l := log + [EdgeRemove(a, b)];
    forall k: nat | k < |l| && l[k].EdgeRemove? ensures NetEdge(l[..k], l[k].a, l[k].b) > 0 {
      if k < |log| { assert l[..k] == log[..k] && l[k] == log[k]; } else { assert l[..k] == log; }
    }
    OwnSumLowest(s.ps[p := s.ps[p].(log := l)], a, b);
  }

  /** Everything submitted has been applied. */
  ghost predicate AllDrained(ps: seq<Producer>) {
    forall p :: 0 <= p < |ps| ==> ps[p].head == |ps[p].log|
  }

  lemma {:induction false} DrainedSums(ps: seq<Producer>, ls: seq<seq<Msg>>, a: Handle, b: Handle)
    requires InOrder(ps) && AllDrained(ps) && |ls| == |ps| && forall p :: 0 <= p < |ps| ==> ls[p] == ps[p].log
    ensures SumLowest(ps, a, b) == SumEdge(ls, a, b)
    decreases |ps|
  {
    if ps != [] { DrainedSums(ps[..|ps| - 1], ls[..|ps| - 1], a, b); }
  }

  /** After a quiesce, with everything drained, anyone may remove any recorded edge. */
  lemma QuiescedRemovalBacked(s: World, p: nat, a: Handle, b: Handle)
    requires InOrder(s.ps) && AllDrained(s.ps) && p < |s.ps| && SumEdge(Full(s), a, b) > 0
    ensures Backed(s.ps[p := s.ps[p].(log := s.ps[p].log + [EdgeRemove(a, b)])], a, b)
  {
    var q := s.ps[p];
    var q' := q.(log := q.log + [EdgeRemove(a, b)]);
    DrainedSums(s.ps, Full(s), a, b);
    SumLowestUpdate(s.ps, p, q', a, b);
    LowestAppend(q.log, q.head, EdgeRemove(a, b), a, b);
  }

  // ---- steps ----------------------------------------------------------------------------------

  datatype Act =
    | OpenBatch(p: nat)          // first message of a batch: raise the in-flight bit
    | Stage(p: nat, m: Msg)      // write one message into the batch
    | Publish(p: nat, k: nat)    // make part of the batch visible in the ring
    | FoldBatch(p: nat)          // fold what is staged and not yet visible
    | CloseBatch(p: nat)         // everything is visible: lower the bit
    | Join                       // a mutator is created
    | Alloc(i: nat)              // a mutator takes a slot from the pool
    | Ask(p: nat)                // a quiesce ticket is issued to a caller with no open batch
    | Begin                      // the worker reads how many tickets it will serve
    | ReadEpoch                  // and, later, how many producers there are
    | TakeSlots | ReadPre | ReadTail | ReadPost | CheckEpoch | Pop | NextQueue | EndRound

  // what producers and the pool do

  ghost predicate OpenStep(s: World, p: nat, s': World) {
    && p < |s.ps| && !Open(s.ps[p])
    && s' == s.(ps := s.ps[p := s.ps[p].(pubSeq := s.ps[p].pubSeq + 1)])
  }

  ghost predicate StageStep(s: World, p: nat, m: Msg, s': World) {
    && p < |s.ps| && Open(s.ps[p])
    && OwnMsg(s.ps[p].log, m) && Allowed(s.eng.pool, Full(s), m)
    && s' == s.(ps := s.ps[p := s.ps[p].(log := s.ps[p].log + [m])])
    && (m.EdgeRemove? ==> Backed(s'.ps, m.a, m.b))
  }

  ghost predicate PublishStep(s: World, p: nat, k: nat, s': World) {
    && p < |s.ps| && Open(s.ps[p]) && s.ps[p].tail <= k <= |s.ps[p].log|
    && s' == s.(ps := s.ps[p := s.ps[p].(tail := k)])
  }

  ghost predicate FoldStep(s: World, p: nat, s': World) {
    && p < |s.ps| && Open(s.ps[p]) && StagedFrom(s.ps[p].log, s.ps[p].tail)
    && s' == s.(ps := s.ps[p := s.ps[p].(log := FoldedLog(s.ps[p].log, s.ps[p].tail))])
  }

  ghost predicate CloseStep(s: World, p: nat, s': World) {
    && p < |s.ps| && Open(s.ps[p]) && s.ps[p].tail == |s.ps[p].log|
    && s' == s.(ps := s.ps[p := s.ps[p].(pubSeq := s.ps[p].pubSeq + 1)])
  }

  ghost predicate JoinStep(s: World, s': World) {
    s' == s.(ps := s.ps + [Producer([], 0, 0, 0)])
  }

  ghost predicate AllocStep(s: World, i: nat, s': World) {
    && s.eng.Sized() && i < |s.eng.tab| && !s.eng.Live(i) && i !in s.retired
    && s' == s.(eng := Activate(s.eng, i))
  }

  ghost predicate AskStep(s: World, p: nat, s': World) {
    && p < |s.ps| && !Open(s.ps[p])
    && s' == s.(tickets := s.tickets + [Ticket(p, |s.ps[p].log|)])
  }

  ghost predicate ProducerStep(s: World, a: Act, s': World) {
    match a
    case OpenBatch(p) => OpenStep(s, p, s')
    case Stage(p, m) => StageStep(s, p, m, s')
    case Publish(p, k) => PublishStep(s, p, k, s')
    case FoldBatch(p) => FoldStep(s, p, s')
    case CloseBatch(p) => CloseStep(s, p, s')
    case Join => JoinStep(s, s')
    case Alloc(i) => AllocStep(s, i, s')
    case Ask(p) => AskStep(s, p, s')
    case _ => false
  }

  // what the worker reads; it changes only its own scratch

  ghost predicate Begins(s: World, w': Worker) {
    s.w.phase == Idle && w' == s.w.(phase := Armed, serve := |s.tickets|, stable := true)
  }

  ghost predicate EpochRead(s: World, w': Worker) {
    s.w.phase == Armed && w' == s.w.(phase := Slots, before := |s.ps|)
  }

  ghost predicate SlotsTaken(s: World, w': Worker) {
    && s.w.phase == Slots
    && var n := if s.w.cached == s.w.before then s.w.cached else |s.ps|;
    && w' == s.w.(phase := Pre, i := 0, n := n, cached := n, pre := [], tails := [])
  }

  ghost predicate PreRead(s: World, w': Worker) {
    var w := s.w;
    && w.phase == Pre
    && if w.i < w.n && w.i < |s.ps| then
         var q := s.ps[w.i].pubSeq;
         w' == w.(i := w.i + 1, pre := w.pre + [q], stable := w.stable && q % 2 == 0)
       else w' == w.(phase := Tails, i := 0)
  }

  ghost predicate TailRead(s: World, w': Worker) {
    var w := s.w;
    && w.phase == Tails
    && if w.i < w.n && w.i < |s.ps| then w' == w.(i := w.i + 1, tails := w.tails + [s.ps[w.i].tail])
       else w' == w.(phase := Post, i := 0)
  }

  ghost predicate PostRead(s: World, w': Worker) {
    var w := s.w;
    && w.phase == Post
    && if w.i < w.n && w.i < |s.ps| && w.i < |w.pre| then
         var q := s.ps[w.i].pubSeq;
         w' == w.(i := w.i + 1, stable := w.stable && q % 2 == 0 && q == w.pre[w.i])
       else w' == w.(phase := Epoch)
  }

  ghost predicate EpochChecked(s: World, w': Worker) {
    s.w.phase == Epoch && w' == s.w.(phase := Drain, i := 0, stable := s.w.stable && |s.ps| == s.w.before)
  }

  ghost predicate QueueDone(s: World, w': Worker) {
    var w := s.w;
    && w.phase == Drain && w.i < w.n && w.i < |w.tails| && w.i < |s.ps|
    && s.ps[w.i].head >= w.tails[w.i]
    && w' == w.(i := w.i + 1)
  }

  ghost predicate Reads(s: World, a: Act, w': Worker) {
    match a
    case Begin => Begins(s, w')
    case ReadEpoch => EpochRead(s, w')
    case TakeSlots => SlotsTaken(s, w')
    case ReadPre => PreRead(s, w')
    case ReadTail => TailRead(s, w')
    case ReadPost => PostRead(s, w')
    case CheckEpoch => EpochChecked(s, w')
    case NextQueue => QueueDone(s, w')
    case _ => false
  }

  ghost predicate OnlyScratch(s: World, s': World) { s' == s.(w := s'.w) }

  // what the worker does

  ghost predicate PopStep(s: World, s': World) {
    var w := s.w;
    && w.phase == Drain && w.i < w.n && w.i < |w.tails| && w.i < |s.ps| && s.eng.Sized()
    && var q := s.ps[w.i];
    && q.head < w.tails[w.i] && q.head < q.tail <= |q.log|
    && s' == s.(ps := s.ps[w.i := q.(head := q.head + 1)], eng := Process(s.eng, q.log[q.head]))
  }

  /** A stable round ends in a sweep: what it frees moves to the next generation, or is retired. */
  ghost predicate SweepStep(s: World, s': World) {
    && Swept(s.eng, s'.eng) && TurnedOver(s.eng.pool, s'.eng.pool)
    && s'.retired == s.retired + LastFreed(s.eng.pool, s'.eng.pool)
  }

  ghost predicate EndStep(s: World, s': World) {
    && s.w.phase == Drain && s.w.i >= s.w.n
    && (if s.w.stable then SweepStep(s, s') else s'.eng == s.eng && s'.retired == s.retired)
    && s' == s.(eng := s'.eng, retired := s'.retired, w := s.w.(phase := Idle),
                completed := if s.w.stable && s.completed < s.w.serve then s.w.serve else s.completed)
  }

  ghost predicate WorkerStep(s: World, a: Act, s': World) {
    match a
    case Pop => PopStep(s, s')
    case EndRound => EndStep(s, s')
    case _ => Reads(s, a, s'.w) && OnlyScratch(s, s')
  }

  ghost predicate Next(s: World, a: Act, s': World) {
    ProducerStep(s, a, s') || WorkerStep(s, a, s')
  }

  function Start(capacity: nat): World {
    World([], Init(capacity), Worker(Idle, 0, 0, 0, 0, [], [], false, 0), [], 0, {})
  }

  // ---- the invariant on queues and table ------------------------------------------------------

  ghost predicate QueueOk(q: Producer) {
    && q.head <= q.tail <= |q.log|
    && (!Open(q) ==> q.tail == |q.log|)
    && OwnLog(q.log)
  }

  ghost predicate Queues(s: World) { forall p :: 0 <= p < |s.ps| ==> QueueOk(s.ps[p]) }

  /** Messages still in the queues name live cells only. */
  ghost predicate PendingValid(s: World) {
    forall p, k :: 0 <= p < |s.ps| && s.ps[p].head <= k < |s.ps[p].log| ==> AllValid(s.eng.pool, s.ps[p].log[k])
  }

  /** A cell no applied message has named is exactly as the pool handed it out. */
  ghost predicate UnnamedUnborn(s: World)
    requires Queues(s) && s.eng.Sized()
  {
    forall i: nat :: s.eng.Live(i) && !Mentioned(Taken(s), Current(s.eng.pool, i)) ==> Unborn(s.eng, i)
  }

  /** Every removal still in a queue will find its record. */
  ghost predicate AllBacked(s: World) {
    forall a, b :: Backed(s.ps, a, b)
  }

  /** A cell an applied message has named is still referenced or is a zero candidate. */
  ghost predicate NamedBorn(s: World)
    requires Queues(s) && s.eng.Sized()
  {
    forall i: nat :: s.eng.Live(i) && Mentioned(Taken(s), Current(s.eng.pool, i)) ==> Born(s.eng, i)
  }

  ghost predicate Born(e: Engine, i: nat)
    requires e.Sized() && e.Live(i)
  {
    e.TotalOf(i) > 0 || e.zeroMark[i]
  }

  /** Every root a producer holds, and every edge from a wanted cell, leads to a live cell. */
  ghost predicate NothingWantedIsDead(s: World) {
    var ls, pool := Full(s), s.eng.pool;
    && (forall h :: SumRoot(ls, h) > 0 ==> Valid(pool, h))
    && (forall i: nat, h :: i < |pool| && Wanted(pool, ls, i) && SumEdge(ls, Current(pool, i), h) > 0 ==> Valid(pool, h))
  }

  /** A handle somebody has named is of an earlier generation of its slot, or of the current one
      while the slot is live or after it has been retired. */
  ghost predicate Aged(s: World) {
    forall h :: Mentioned(Full(s), h) ==> AgedHandle(s, h)
  }

  ghost predicate AgedHandle(s: World, h: Handle) {
    && h.index < |s.eng.pool| && h.gen <= s.eng.pool[h.index].gen
    && (h.gen == s.eng.pool[h.index].gen ==> s.eng.pool[h.index].live || h.index in s.retired)
  }

  /** So a slot that is handed out has a handle nobody has named. */
  lemma FreshHandle(s: World, i: nat, s': World)
    requires Aged(s) && AllocStep(s, i, s')
    ensures !Mentioned(Full(s), Current(s.eng.pool, i))
  {
    assert !AgedHandle(s, Current(s.eng.pool, i));
  }

  ghost predicate Core(s: World) {
    && Queues(s)
    && Settled(s.eng)
    && Mirrors(s.eng, Taken(s))
    && PendingValid(s) && AllBacked(s)
    && UnnamedUnborn(s)
    && NothingWantedIsDead(s) && Aged(s)
  }

  lemma StartCore(capacity: nat)
    ensures Core(Start(capacity))
  {
    InitSettled(capacity);
    var s := Start(capacity);
    assert Full(s) == [] && Taken(s) == [];
  }

  // ---- what producers and the pool keep -------------------------------------------------------

  lemma StageKeepsCore(s: World, p: nat, m: Msg, s': World)
    requires Core(s) && StageStep(s, p, m, s')
    ensures Core(s')
  {
    assert QueueOk(s.ps[p]);
    OwnAppend(s.ps[p].log, m);
    StageTaken(s, p, m, s');
    StageBacked(s, p, m, s');
    assert AllValid(s.eng.pool, m);
    assert Full(s') == Full(s)[p := Full(s)[p] + [m]];
    StageKeepsWanted(s, p, m, s');
    forall h | Mentioned(Full(s'), h) ensures AgedHandle(s', h) {
      MentionedAppend(Full(s), p, m, h);
      if Mentioned(Full(s), h) { assert AgedHandle(s, h); }
    }
    assert Queues(s');
  }

  lemma StageBacked(s: World, p: nat, m: Msg, s': World)
    requires Queues(s) && AllBacked(s) && StageStep(s, p, m, s')
    ensures AllBacked(s')
  {
    assert QueueOk(s.ps[p]);
    forall a, b ensures Backed(s'.ps, a, b) {
      assert Backed(s.ps, a, b);
      if m != EdgeRemove(a, b) {
        SumLowestUpdate(s.ps, p, s'.ps[p], a, b);
        LowestKept(s.ps[p].log, s.ps[p].head, m, a, b);
      }
    }
  }

  lemma StageTaken(s: World, p: nat, m: Msg, s': World)
    requires Queues(s) && p < |s.ps| && s' == s.(ps := s.ps[p := s.ps[p].(log := s.ps[p].log + [m])])
    ensures forall q :: 0 <= q < |s'.ps| ==> s'.ps[q].head <= |s'.ps[q].log|
    ensures Taken(s') == Taken(s)
  {
    forall q | 0 <= q < |s.ps| ensures s'.ps[q].head <= |s'.ps[q].log| && s'.ps[q].log[..s'.ps[q].head] == s.ps[q].log[..s.ps[q].head] {
      assert QueueOk(s.ps[q]);
    }
  }

  lemma StageKeepsWanted(s: World, p: nat, m: Msg, s': World)
    requires Queues(s) && NothingWantedIsDead(s) && StageStep(s, p, m, s')
    requires Full(s') == Full(s)[p := Full(s)[p] + [m]]
    ensures NothingWantedIsDead(s')
  {
    var ls, ls', pool := Full(s), Full(s'), s.eng.pool;
    assert OwnLogs(ls) by { forall q | 0 <= q < |ls| ensures OwnLog(ls[q]) { assert QueueOk(s.ps[q]); } }
    forall h | SumRoot(ls', h) > 0 ensures Valid(pool, h) {
      SumRootAppend(ls, p, m, h);
      assert SumRoot(ls, h) > 0 || Mentions(m, h);
    }
    forall i: nat, h | i < |pool| && Wanted(pool, ls', i) && SumEdge(ls', Current(pool, i), h) > 0 ensures Valid(pool, h) {
      NothingResurrected(pool, ls, p, m, i);
      SumEdgeAppend(ls, p, m, Current(pool, i), h);
      if !Wanted(pool, ls, i) { UnmentionedSum(ls, Current(pool, i)); }
      assert SumEdge(ls, Current(pool, i), h) > 0 || Mentions(m, h);
    }
  }

  /** Taking a slot whose handle nobody has named changes neither graph nor wants. */
  lemma AllocWanted(pool: seq<Slot>, pool': seq<Slot>, ls: seq<seq<Msg>>, i: nat)
    requires i < |pool| && !pool[i].live && pool' == pool[i := pool[i].(live := true)]
    requires !Mentioned(ls, Current(pool, i))
    ensures LogGraph(pool', ls) == LogGraph(pool, ls)
    ensures forall u: nat :: Wanted(pool', ls, u) <==> Wanted(pool, ls, u)
  {
    UnmentionedSum(ls, Current(pool, i));
    forall x ensures x in LogGraph(pool', ls) <==> x in LogGraph(pool, ls) {
      if x.0 < |pool| && x.1 < |pool| {
        assert Drawn(pool', ls, x.0, x.1) <==> Drawn(pool, ls, x.0, x.1);
      }
    }
    assert LogGraph(pool', ls) == LogGraph(pool, ls);
    forall r: nat ensures Held(pool', ls, r) <==> Held(pool, ls, r) {}
    forall u: nat ensures Wanted(pool', ls, u) <==> Wanted(pool, ls, u) {
      if Wanted(pool', ls, u) {
        var r: nat :| Held(pool', ls, r) && Reach(LogGraph(pool', ls), r, u);
        WantedVia(pool, ls, r, u);
      }
      if Wanted(pool, ls, u) {
        var r: nat :| Held(pool, ls, r) && Reach(LogGraph(pool, ls), r, u);
        WantedVia(pool', ls, r, u);
      }
    }
  }

  lemma TakenMentions(s: World, h: Handle)
    requires Queues(s) && Mentioned(Taken(s), h)
    ensures Mentioned(Full(s), h)
  {
    var p :| 0 <= p < |Taken(s)| && LogMentions(Taken(s)[p], h);
    var k :| 0 <= k < |Taken(s)[p]| && Mentions(Taken(s)[p][k], h);
    assert QueueOk(s.ps[p]);
    assert Full(s)[p][k] == Taken(s)[p][k];
    assert LogMentions(Full(s)[p], h);
  }

  lemma AllocKeepsCore(s: World, i: nat, s': World)
    requires Core(s) && AllocStep(s, i, s')
    ensures Core(s')
  {
    var e, e' := s.eng, s'.eng;
    var h := Current(e.pool, i);
    FreshHandle(s, i, s');
    ActivateKeepsSettled(e, i);
    AllocWanted(e.pool, e'.pool, Full(s), i);
    assert Full(s') == Full(s) && Taken(s') == Taken(s);
    assert !Mentioned(Taken(s), h) by { if Mentioned(Taken(s), h) { TakenMentions(s, h); } }
    UnmentionedSum(Taken(s), h);
    AllocMirrors(e, Taken(s), i);
    forall p, k | 0 <= p < |s'.ps| && s'.ps[p].head <= k < |s'.ps[p].log| ensures AllValid(e'.pool, s'.ps[p].log[k]) {
      assert AllValid(e.pool, s.ps[p].log[k]);
    }
    forall j: nat | e'.Live(j) && !Mentioned(Taken(s'), Current(e'.pool, j)) ensures Unborn(e', j) {
      if j == i {
        AllocUnborn(e, i);
      } else {
        assert Unborn(e, j);
      }
    }
    AllocKeepsWanted(s, i, s');
    AllocAges(s, i, s');
  }

  lemma AllocAges(s: World, i: nat, s': World)
    requires Aged(s) && AllocStep(s, i, s')
    ensures Aged(s')
  {
    assert Full(s') == Full(s);
    forall h | Mentioned(Full(s'), h) ensures AgedHandle(s', h) { assert AgedHandle(s, h); }
  }

  lemma AllocUnborn(e: Engine, i: nat)
    requires Settled(e) && i < |e.tab| && !e.Live(i)
    ensures Unborn(Activate(e, i), i)
  {
  }

  lemma AllocMirrors(e: Engine, ls: seq<seq<Msg>>, i: nat)
    requires Settled(e) && Mirrors(e, ls) && i < |e.tab| && !e.Live(i) && !Mentioned(ls, Current(e.pool, i))
    ensures Mirrors(Activate(e, i), ls)
  {
    var e', h := Activate(e, i), Current(e.pool, i);
    UnmentionedSum(ls, h);
    forall j: nat, k: nat | j < |e'.tab| && k < |e'.tab| ensures SameRecords(e', ls, j, k) {
      assert SameRecords(e, ls, j, k);
      if k == i && e.pool[j].live {
        assert RowOk(e.pool, e.tab, j);
        assert h !in e.tab[j].outs;
      }
    }
  }

  lemma AllocKeepsWanted(s: World, i: nat, s': World)
    requires s.eng.Sized() && NothingWantedIsDead(s) && AllocStep(s, i, s') && !Mentioned(Full(s), Current(s.eng.pool, i))
    ensures NothingWantedIsDead(s')
  {
    var pool, pool', ls := s.eng.pool, s'.eng.pool, Full(s);
    AllocWanted(pool, pool', ls, i);
    assert Full(s') == ls;
    forall j: nat, h | j < |pool'| && Wanted(pool', ls, j) && SumEdge(ls, Current(pool', j), h) > 0 ensures Valid(pool', h) {
      WantedIsLive(pool, ls, j);
      assert Valid(pool, h);
    }
  }

  lemma JoinKeepsCore(s: World, s': World)
    requires Core(s) && JoinStep(s, s')
    ensures Core(s')
  {
    assert Full(s') == Full(s) + [[]] && Taken(s') == Taken(s) + [[]];
    SumNewLog(Full(s));
    SumNewLog(Taken(s));
    assert Queues(s');
    JoinMirrors(s.eng, Taken(s));
    JoinMentions(Taken(s));
    JoinWanted(s.eng.pool, Full(s));
    forall i: nat | s'.eng.Live(i) && !Mentioned(Taken(s'), Current(s'.eng.pool, i)) ensures Unborn(s'.eng, i) {
      assert !Mentioned(Taken(s), Current(s.eng.pool, i));
    }
    JoinBacked(s, s');
    JoinMentions(Full(s));
    forall h | Mentioned(Full(s'), h) ensures AgedHandle(s', h) { assert AgedHandle(s, h); }
  }

  lemma JoinBacked(s: World, s': World)
    requires AllBacked(s) && JoinStep(s, s')
    ensures AllBacked(s')
  {
    forall a, b ensures Backed(s'.ps, a, b) {
      assert Backed(s.ps, a, b);
      assert s'.ps[..|s.ps|] == s.ps;
    }
  }

  lemma JoinMirrors(e: Engine, ls: seq<seq<Msg>>)
    requires Mirrors(e, ls)
    ensures Mirrors(e, ls + [[]])
  {
    SumNewLog(ls);
    forall i: nat, j: nat | i < |e.tab| && j < |e.tab| ensures SameRecords(e, ls + [[]], i, j) {
      assert SameRecords(e, ls, i, j);
    }
  }

  lemma JoinMentions(ls: seq<seq<Msg>>)
    ensures forall h :: Mentioned(ls + [[]], h) <==> Mentioned(ls, h)
  {
    var ls' := ls + [[]];
    forall h ensures Mentioned(ls', h) <==> Mentioned(ls, h) {
      if Mentioned(ls, h) {
        var p :| 0 <= p < |ls| && LogMentions(ls[p], h);
        assert ls'[p] == ls[p];
      }
      if Mentioned(ls', h) {
        var p :| 0 <= p < |ls'| && LogMentions(ls'[p], h);
        assert p < |ls| && ls'[p] == ls[p];
      }
    }
  }

  lemma JoinWanted(pool: seq<Slot>, ls: seq<seq<Msg>>)
    ensures LogGraph(pool, ls + [[]]) == LogGraph(pool, ls)
    ensures forall u: nat :: Wanted(pool, ls + [[]], u) <==> Wanted(pool, ls, u)
  {
    var ls' := ls + [[]];
    SumNewLog(ls);
    forall x ensures x in LogGraph(pool, ls') <==> x in LogGraph(pool, ls) {
      assert Drawn(pool, ls', x.0, x.1) <==> Drawn(pool, ls, x.0, x.1);
    }
    assert LogGraph(pool, ls') == LogGraph(pool, ls);
    forall r: nat ensures Held(pool, ls', r) <==> Held(pool, ls, r) {}
    forall u: nat ensures Wanted(pool, ls', u) <==> Wanted(pool, ls, u) {
      if Wanted(pool, ls', u) {
        var r: nat :| Held(pool, ls', r) && Reach(LogGraph(pool, ls'), r, u);
        WantedVia(pool, ls, r, u);
      }
      if Wanted(pool, ls, u) {
        var r: nat :| Held(pool, ls, r) && Reach(LogGraph(pool, ls), r, u);
        WantedVia(pool, ls', r, u);
      }
    }
  }

  /** Steps that change only sequence numbers, tails, tickets or the worker's scratch. */
  lemma SameLogsKeepCore(s: World, s': World)
    requires Core(s) && s'.eng == s.eng && s'.retired == s.retired && |s'.ps| == |s.ps|
    requires forall p :: 0 <= p < |s.ps| ==> s'.ps[p].log == s.ps[p].log && s'.ps[p].head == s.ps[p].head && QueueOk(s'.ps[p])
    ensures Core(s')
  {
    assert Full(s') == Full(s) && Taken(s') == Taken(s);
    forall h | Mentioned(Full(s'), h) ensures AgedHandle(s', h) { assert AgedHandle(s, h); }
    forall a, b ensures Backed(s'.ps, a, b) {
      assert Backed(s.ps, a, b);
      SameLowest(s.ps, s'.ps, a, b);
    }
  }

  lemma {:induction false} SameLowest(ps: seq<Producer>, ps': seq<Producer>, a: Handle, b: Handle)
    requires InOrder(ps) && |ps'| == |ps| && forall p :: 0 <= p < |ps| ==> ps'[p].log == ps[p].log && ps'[p].head == ps[p].head
    ensures InOrder(ps') && SumLowest(ps', a, b) == SumLowest(ps, a, b)
    decreases |ps|
  {
    if ps != [] { SameLowest(ps[..|ps| - 1], ps'[..|ps| - 1], a, b); }
  }

  // ---- folding a batch ------------------------------------------------------------------------

  lemma FoldTaken(s: World, p: nat, s': World)
    requires Queues(s) && FoldStep(s, p, s')
    ensures Queues(s') && Taken(s') == Taken(s) && Full(s') == Full(s)[p := s'.ps[p].log]
  {
    var q := s.ps[p];
    assert QueueOk(q);
    FoldedOwn(q.log, q.tail);
    assert s'.ps[p].log[..q.head] == q.log[..q.head];
    forall r | 0 <= r < |s'.ps| ensures QueueOk(s'.ps[r]) { assert QueueOk(s.ps[r]); }
  }

  lemma FoldSums(s: World, p: nat, s': World)
    requires Queues(s) && FoldStep(s, p, s') && Full(s') == Full(s)[p := s'.ps[p].log]
    ensures forall h :: SumRoot(Full(s'), h) == SumRoot(Full(s), h)
    ensures forall a, b :: SumEdge(Full(s'), a, b) == SumEdge(Full(s), a, b)
    ensures forall h :: Mentioned(Full(s'), h) <==> Mentioned(Full(s), h)
  {
    var q := s.ps[p];
    assert QueueOk(q);
    SumReplace(Full(s), p, s'.ps[p].log);
    forall h ensures SumRoot(Full(s'), h) == SumRoot(Full(s), h) { FoldedRoots(q.log, q.tail, h); }
    forall a, b ensures SumEdge(Full(s'), a, b) == SumEdge(Full(s), a, b) { FoldedEdges(q.log, q.tail, q.head, a, b); }
    forall h ensures Mentioned(Full(s'), h) <==> Mentioned(Full(s), h) {
      FoldedMentions(q.log, q.tail, h);
      ReplaceMentions(Full(s), p, s'.ps[p].log, h);
    }
  }

  lemma ReplaceMentions(ls: seq<seq<Msg>>, p: nat, l: seq<Msg>, h: Handle)
    requires p < |ls| && (LogMentions(l, h) <==> LogMentions(ls[p], h))
    ensures Mentioned(ls[p := l], h) <==> Mentioned(ls, h)
  {
    var ls' := ls[p := l];
    if Mentioned(ls, h) {
      var q :| 0 <= q < |ls| && LogMentions(ls[q], h);
      assert LogMentions(ls'[q], h);
    }
    if Mentioned(ls', h) {
      var q :| 0 <= q < |ls'| && LogMentions(ls'[q], h);
      assert LogMentions(ls[q], h);
    }
  }

  lemma FoldWanted(s: World, p: nat, s': World)
    requires Queues(s) && FoldStep(s, p, s') && Full(s') == Full(s)[p := s'.ps[p].log]
    ensures forall u: nat :: Wanted(s.eng.pool, Full(s'), u) <==> Wanted(s.eng.pool, Full(s), u)
  {
    FoldSums(s, p, s');
    SameWants(s.eng.pool, Full(s), s.eng.pool, Full(s'));
  }

  /** Folding an unpublished batch changes nothing the protocol's safety rests on. */
  lemma FoldKeepsCore(s: World, p: nat, s': World)
    requires Core(s) && FoldStep(s, p, s')
    ensures Core(s')
  {
    FoldTaken(s, p, s');
    FoldPending(s, p, s');
    FoldBacked(s, p, s');
    FoldKeepsWanted(s, p, s');
    FoldSums(s, p, s');
    forall h | Mentioned(Full(s'), h) ensures AgedHandle(s', h) { assert AgedHandle(s, h); }
  }

  lemma FoldBacked(s: World, p: nat, s': World)
    requires Queues(s) && AllBacked(s) && FoldStep(s, p, s')
    ensures AllBacked(s')
  {
    var q := s.ps[p];
    assert QueueOk(q);
    forall a, b ensures Backed(s'.ps, a, b) {
      assert Backed(s.ps, a, b);
      FoldedEdges(q.log, q.tail, q.head, a, b);
      SumLowestUpdate(s.ps, p, s'.ps[p], a, b);
    }
  }

  lemma FoldKeepsWanted(s: World, p: nat, s': World)
    requires Queues(s) && NothingWantedIsDead(s) && FoldStep(s, p, s') && Full(s') == Full(s)[p := s'.ps[p].log]
    ensures NothingWantedIsDead(s')
  {
    FoldSums(s, p, s');
    FoldWanted(s, p, s');
    var pool := s.eng.pool;
    forall i: nat, h | i < |pool| && Wanted(pool, Full(s'), i) && SumEdge(Full(s'), Current(pool, i), h) > 0 ensures Valid(pool, h) {
      assert Wanted(pool, Full(s), i) && SumEdge(Full(s), Current(pool, i), h) > 0;
    }
  }

  lemma FoldPending(s: World, p: nat, s': World)
    requires Queues(s) && PendingValid(s) && FoldStep(s, p, s')
    ensures PendingValid(s')
  {
    var q := s.ps[p];
    assert QueueOk(q);
    forall r, k | 0 <= r < |s'.ps| && s'.ps[r].head <= k < |s'.ps[r].log| ensures AllValid(s'.eng.pool, s'.ps[r].log[k]) {
      if r == p && k >= q.tail {
        forall h | Mentions(s'.ps[r].log[k], h) ensures Valid(s.eng.pool, h) {
          var j := FoldedNames(q.log, q.tail, k, h);
          assert AllValid(s.eng.pool, q.log[j]);
        }
      } else {
        assert s'.ps[r].log[k] == s.ps[r].log[k];
        assert AllValid(s.eng.pool, s.ps[r].log[k]);
      }
    }
  }

  lemma PopTaken(s: World, s': World)
    requires Queues(s) && PopStep(s, s')
    ensures Queues(s') && Full(s') == Full(s)
    ensures var q := s.ps[s.w.i]; Taken(s') == Taken(s)[s.w.i := Taken(s)[s.w.i] + [q.log[q.head]]]
    ensures OwnMsg(Taken(s)[s.w.i], s.ps[s.w.i].log[s.ps[s.w.i].head])
  {
    var q := s.ps[s.w.i];
    assert QueueOk(q) && OwnMsg(q.log[..q.head], q.log[q.head]);
    assert q.log[..q.head + 1] == q.log[..q.head] + [q.log[q.head]];
  }

  lemma PopBacked(s: World, s': World)
    requires Queues(s) && AllBacked(s) && PopStep(s, s')
    ensures AllBacked(s')
  {
    var q, q' := s.ps[s.w.i], s'.ps[s.w.i];
    assert QueueOk(q);
    forall a, b ensures Backed(s'.ps, a, b) {
      assert Backed(s.ps, a, b);
      SumLowestUpdate(s.ps, s.w.i, q', a, b);
      LowestAdvance(q.log, q.head, a, b);
    }
  }

  /** The record a removal names is there when the worker comes to it. */
  lemma PopFindsRecord(s: World, s': World, m: Msg)
    requires Queues(s) && AllBacked(s) && PopStep(s, s') && Queues(s')
    requires m == s.ps[s.w.i].log[s.ps[s.w.i].head] && Taken(s') == Taken(s)[s.w.i := Taken(s)[s.w.i] + [m]]
    ensures RecordThere(Taken(s), m)
  {
    if m.EdgeRemove? {
      PopBacked(s, s');
      assert Backed(s'.ps, m.a, m.b);
      LowestIsTaken(s', m.a, m.b);
      SumEdgeAppend(Taken(s), s.w.i, m, m.a, m.b);
    }
  }

  lemma PopKeepsCore(s: World, s': World)
    requires Core(s) && PopStep(s, s')
    ensures Core(s')
  {
    var p := s.w.i;
    var m := s.ps[p].log[s.ps[p].head];
    PopTaken(s, s');
    assert AllValid(s.eng.pool, m);
    TakenOwn(s);
    PopFindsRecord(s, s', m);
    MirrorProcess(s.eng, Taken(s), p, m);
    PopUnborn(s, s', m);
    PopBacked(s, s');
    forall h | Mentioned(Full(s'), h) ensures AgedHandle(s', h) { assert AgedHandle(s, h); }
  }

  lemma EdgeRemoveBears(e: Engine, a: Handle, b: Handle, i: nat)
    requires e.Sized() && e.Live(i) && Valid(e.pool, a) && Valid(e.pool, b) && b in e.tab[a.index].outs
    requires i == b.index || Born(e, i)
    requires Reconsider(Unlinked(e, a.index, b), b.index).TotalOf(i) >= 0
    ensures Reconsider(Unlinked(e, a.index, b), b.index).Live(i) && Born(Reconsider(Unlinked(e, a.index, b), b.index), i)
  {
    UnlinkedTotals(e, a.index, b);
    ReconsiderFrame(Unlinked(e, a.index, b), b.index);
  }

  lemma PopUnborn(s: World, s': World, m: Msg)
    requires Queues(s) && Settled(s.eng) && UnnamedUnborn(s) && PopStep(s, s') && Queues(s')
    requires m == s.ps[s.w.i].log[s.ps[s.w.i].head] && s'.eng.pool == s.eng.pool && s'.eng.Sized()
    requires Taken(s') == Taken(s)[s.w.i := Taken(s)[s.w.i] + [m]]
    ensures UnnamedUnborn(s')
  {
    forall i: nat | s'.eng.Live(i) && !Mentioned(Taken(s'), Current(s'.eng.pool, i)) ensures Unborn(s'.eng, i) {
      MentionedAppend(Taken(s), s.w.i, m, Current(s.eng.pool, i));
      assert Unborn(s.eng, i);
      ProcessSkips(s.eng, m, i);
    }
  }

  lemma TakenOwn(s: World)
    requires Queues(s)
    ensures OwnLogs(Taken(s))
  {
    forall p | 0 <= p < |s.ps| ensures OwnLog(Taken(s)[p]) {
      assert QueueOk(s.ps[p]);
      OwnPrefix(s.ps[p].log, s.ps[p].head);
    }
  }

  /** A message does not touch a cell it does not name. */
  lemma ProcessSkips(e: Engine, m: Msg, i: nat)
    requires Settled(e) && e.Live(i) && !Mentions(m, Current(e.pool, i))
    ensures Process(e, m).Sized() && |Process(e, m).tab| == |e.tab|
    ensures Process(e, m).tab[i] == e.tab[i] && Process(e, m).zeroMark[i] == e.zeroMark[i]
  {
    match m
    case RootAdd(b, c) =>
    case RootRemove(b, c) =>
      if Valid(e.pool, b) && e.tab[b.index].root >= c {
        ReconsiderSkips(SetRoot(e, b.index, e.tab[b.index].root - c), b.index, i);
      }
    case RootCheck(b) => if Valid(e.pool, b) { ReconsiderSkips(e, b.index, i); }
    case EdgeAdd(a, b) =>
    case EdgeRemove(a, b) => RemoveSkips(e, a, b, i);
    case Terminate =>
  }

  lemma RemoveSkips(e: Engine, a: Handle, b: Handle, i: nat)
    requires Settled(e) && e.Live(i) && Current(e.pool, i) != a && Current(e.pool, i) != b
    ensures Process(e, EdgeRemove(a, b)).Sized() && |Process(e, EdgeRemove(a, b)).tab| == |e.tab|
    ensures Process(e, EdgeRemove(a, b)).tab[i] == e.tab[i] && Process(e, EdgeRemove(a, b)).zeroMark[i] == e.zeroMark[i]
  {
    if Valid(e.pool, a) && b in e.tab[a.index].outs {
      EdgeRemoveShape(e, a, b);
      ReconsiderSkips(Unlinked(e, a.index, b), b.index, i);
    } else {
      assert Process(e, EdgeRemove(a, b)) == e;
    }
  }

  lemma ReconsiderSkips(e: Engine, b: nat, i: nat)
    requires e.Sized() && b < |e.tab| && i < |e.tab| && i != b
    ensures Reconsider(e, b).Sized() && Reconsider(e, b).tab == e.tab && Reconsider(e, b).zeroMark[i] == e.zeroMark[i]
  {
  }
}
