/** What a round of the worker may conclude: the cut it drains is one instant, a sweep after it
    frees nothing that was wanted at that instant, and served tickets are really served. */
module CutRounds {
  import opened Graphs
  import opened Cells
  import opened EngineState
  import opened Coverage
  import opened Sweeping
  import opened CollectionEngines
  import opened Logs
  import opened Mirror
  import opened CutProtocol
  import opened FoldedLogs
  import X = Exactness

  // ---- between the cut and now ----------------------------------------------------------------

  ghost predicate Later(q: Producer, q': Producer) {
    && q.tail <= q'.tail && q.head <= q'.head && q.pubSeq <= q'.pubSeq
    && q.tail <= |q.log| && q'.tail <= |q'.log| && q.log[..q.tail] == q'.log[..q.tail]
    && (q.pubSeq == q'.pubSeq && !Open(q) ==> q'.log == q.log && q'.tail == q.tail)
  }

  /** How much producer `p` had submitted at `c`. */
  ghost function Submitted(c: World, p: nat): nat {
    if p < |c.ps| then |c.ps[p].log| else 0
  }

  /** Producer `p` had no batch open at `c`, or did not exist yet. */
  ghost predicate QuietThen(c: World, p: nat) { p < |c.ps| ==> !Open(c.ps[p]) }

  /** A sweep for the cut `c` has no reason to free the cell of `h`. */
  ghost predicate Vouched(c: World, pool: seq<Slot>, h: Handle) {
    Valid(pool, h) && (Wanted(c.eng.pool, Full(c), h.index) || !Mentioned(Full(c), h))
  }

  ghost predicate Named(c: World, pool: seq<Slot>, m: Msg) {
    forall h :: Mentions(m, h) ==> Vouched(c, pool, h)
  }

  ghost predicate WantedSince(c: World, s: World, u: nat) {
    Wanted(s.eng.pool, Full(s), u) ==>
      Wanted(c.eng.pool, Full(c), u) || (s.eng.Live(u) && !Mentioned(Full(c), Current(s.eng.pool, u)))
  }

  /** No sweep happened since `c`: queues only grew, live cells stayed, and everything wanted or
      named since was wanted at `c` or not yet named then. */
  ghost predicate Since(c: World, s: World) {
    && |c.ps| <= |s.ps|
    && (forall p :: 0 <= p < |c.ps| ==> Later(c.ps[p], s.ps[p]))
    && |s.eng.pool| == |c.eng.pool|
    && (forall i: nat :: i < |c.eng.pool| && c.eng.pool[i].live ==> s.eng.pool[i] == c.eng.pool[i])
    && (forall i: nat :: s.eng.Live(i) && !c.eng.Live(i) ==> !Mentioned(Full(c), Current(s.eng.pool, i)))
    && (forall u: nat :: WantedSince(c, s, u))
    && (forall h :: Mentioned(Full(c), h) ==> Mentioned(Full(s), h))
    && (forall p: nat, k: nat :: p < |s.ps| && QuietThen(c, p) && Submitted(c, p) <= k < |s.ps[p].log| ==>
          Named(c, s.eng.pool, s.ps[p].log[k]))
  }

  lemma SinceRefl(c: World)
    requires Core(c)
    ensures Since(c, c)
  {
    forall p | 0 <= p < |c.ps| ensures Later(c.ps[p], c.ps[p]) { assert QueueOk(c.ps[p]); }
  }

  lemma LaterTrans(q: Producer, q1: Producer, q2: Producer)
    requires Later(q, q1) && Later(q1, q2)
    ensures Later(q, q2)
  {
    assert q.log[..q.tail] == q1.log[..q.tail] == q1.log[..q1.tail][..q.tail];
    assert q2.log[..q.tail] == q2.log[..q1.tail][..q.tail];
  }

  lemma StageLater(c: World, s: World, p: nat, m: Msg, s': World)
    requires Queues(s) && Since(c, s) && StageStep(s, p, m, s')
    ensures forall q :: 0 <= q < |c.ps| ==> Later(c.ps[q], s'.ps[q])
  {
    forall q | 0 <= q < |c.ps| ensures Later(c.ps[q], s'.ps[q]) {
      assert Later(c.ps[q], s.ps[q]) && QueueOk(s.ps[q]);
      assert s'.ps[q].log[..s.ps[q].tail] == s.ps[q].log[..s.ps[q].tail];
      LaterTrans(c.ps[q], s.ps[q], s'.ps[q]);
    }
  }

  lemma StageSince(c: World, s: World, p: nat, m: Msg, s': World)
    requires Core(s) && Since(c, s) && StageStep(s, p, m, s')
    ensures Since(c, s')
  {
    var pool := s.eng.pool;
    assert Full(s') == Full(s)[p := Full(s)[p] + [m]];
    FullOwn(s);
    StageLater(c, s, p, m, s');
    forall u: nat ensures WantedSince(c, s', u) {
      if Wanted(pool, Full(s'), u) {
        NothingResurrected(pool, Full(s), p, m, u);
        assert WantedSince(c, s, u);
      }
    }
    forall h | Mentioned(Full(c), h) ensures Mentioned(Full(s'), h) { MentionedAppend(Full(s), p, m, h); }
    StageNamed(c, s, m);
    forall q: nat, k: nat | q < |s'.ps| && QuietThen(c, q) && Submitted(c, q) <= k < |s'.ps[q].log|
      ensures Named(c, pool, s'.ps[q].log[k])
    {
      if q == p && k == |s.ps[p].log| {
      } else {
        assert s'.ps[q].log[k] == s.ps[q].log[k];
        assert Named(c, pool, s.ps[q].log[k]);
      }
    }
  }

  lemma FullOwn(s: World)
    requires Queues(s)
    ensures OwnLogs(Full(s))
  {
    forall q | 0 <= q < |s.ps| ensures OwnLog(Full(s)[q]) { assert QueueOk(s.ps[q]); }
  }

  lemma StageNamed(c: World, s: World, m: Msg)
    requires Since(c, s) && Allowed(s.eng.pool, Full(s), m)
    ensures Named(c, s.eng.pool, m)
  {
    forall h | Mentions(m, h) ensures Vouched(c, s.eng.pool, h) { assert WantedSince(c, s, h.index); }
  }

  /** Folding rewrites only what is not visible yet. */
  lemma FoldLater(s: World, p: nat, s': World)
    requires Queues(s) && FoldStep(s, p, s')
    ensures forall q :: 0 <= q < |s.ps| ==> Later(s.ps[q], s'.ps[q])
  {
    forall q | 0 <= q < |s.ps| ensures Later(s.ps[q], s'.ps[q]) {
      assert QueueOk(s.ps[q]);
      assert s'.ps[q].log[..s.ps[q].tail] == s.ps[q].log[..s.ps[q].tail];
    }
  }

  lemma FoldSince(c: World, s: World, p: nat, s': World)
    requires Core(s) && Queues(c) && Since(c, s) && FoldStep(s, p, s')
    ensures Since(c, s')
  {
    FoldTaken(s, p, s');
    FoldSums(s, p, s');
    FoldWanted(s, p, s');
    FoldLater(s, p, s');
    forall q | 0 <= q < |c.ps| ensures Later(c.ps[q], s'.ps[q]) { LaterTrans(c.ps[q], s.ps[q], s'.ps[q]); }
    forall u: nat ensures WantedSince(c, s', u) { assert WantedSince(c, s, u); }
    forall q: nat, k: nat | q < |s'.ps| && QuietThen(c, q) && Submitted(c, q) <= k < |s'.ps[q].log|
      ensures Named(c, s'.eng.pool, s'.ps[q].log[k])
    {
      FoldNamed(c, s, p, s', q, k);
    }
  }

  lemma FoldNamed(c: World, s: World, p: nat, s': World, q: nat, k: nat)
    requires Core(s) && Queues(c) && Since(c, s) && FoldStep(s, p, s')
    requires q < |s'.ps| && QuietThen(c, q) && Submitted(c, q) <= k < |s'.ps[q].log|
    ensures Named(c, s.eng.pool, s'.ps[q].log[k])
  {
    if q == p && k >= s.ps[p].tail {
      forall h | Mentions(s'.ps[q].log[k], h) ensures Vouched(c, s.eng.pool, h) {
        var j := FoldedNames(s.ps[p].log, s.ps[p].tail, k, h);
        assert Submitted(c, p) <= j by { if p < |c.ps| { assert Later(c.ps[p], s.ps[p]) && QueueOk(c.ps[p]); } }
        assert Named(c, s.eng.pool, s.ps[p].log[j]);
      }
    } else {
      assert s'.ps[q].log[k] == s.ps[q].log[k];
      assert Named(c, s.eng.pool, s.ps[q].log[k]);
    }
  }

  lemma AllocNamed(c: World, pool: seq<Slot>, pool': seq<Slot>, m: Msg)
    requires Named(c, pool, m) && forall h :: Valid(pool, h) ==> Valid(pool', h)
    ensures Named(c, pool', m)
  {
    forall h | Mentions(m, h) ensures Vouched(c, pool', h) { assert Vouched(c, pool, h); }
  }

  lemma AllocSince(c: World, s: World, i: nat, s': World)
    requires Core(s) && Since(c, s) && AllocStep(s, i, s')
    ensures Since(c, s')
  {
    FreshHandle(s, i, s');
    AllocWanted(s.eng.pool, s'.eng.pool, Full(s), i);
    assert Full(s') == Full(s);
    forall u: nat ensures WantedSince(c, s', u) { assert WantedSince(c, s, u); }
    forall p: nat, k: nat | p < |s'.ps| && QuietThen(c, p) && Submitted(c, p) <= k < |s'.ps[p].log|
      ensures Named(c, s'.eng.pool, s'.ps[p].log[k])
    {
      assert Named(c, s.eng.pool, s.ps[p].log[k]);
      AllocNamed(c, s.eng.pool, s'.eng.pool, s.ps[p].log[k]);
    }
  }

  lemma JoinSince(c: World, s: World, s': World)
    requires Core(s) && Since(c, s) && JoinStep(s, s')
    ensures Since(c, s')
  {
    assert Full(s') == Full(s) + [[]];
    JoinWanted(s.eng.pool, Full(s));
    JoinMentions(Full(s));
    forall u: nat ensures WantedSince(c, s', u) { assert WantedSince(c, s, u); }
    forall p: nat, k: nat | p < |s'.ps| && QuietThen(c, p) && Submitted(c, p) <= k < |s'.ps[p].log| ensures Named(c, s'.eng.pool, s'.ps[p].log[k]) {
      assert Named(c, s.eng.pool, s.ps[p].log[k]);
    }
  }

  /** Steps that leave logs and pool as they are. */
  lemma SameLogsSince(c: World, s: World, s': World)
    requires Since(c, s) && s'.eng.pool == s.eng.pool && |s'.ps| == |s.ps|
    requires forall p :: 0 <= p < |s.ps| ==> s'.ps[p].log == s.ps[p].log && Later(s.ps[p], s'.ps[p])
    ensures Since(c, s')
  {
    assert Full(s') == Full(s);
    forall p | 0 <= p < |c.ps| ensures Later(c.ps[p], s'.ps[p]) {
      LaterTrans(c.ps[p], s.ps[p], s'.ps[p]);
    }
    forall u: nat ensures WantedSince(c, s', u) { assert WantedSince(c, s, u); }
    forall p: nat, k: nat | p < |s'.ps| && QuietThen(c, p) && Submitted(c, p) <= k < |s'.ps[p].log| ensures Named(c, s'.eng.pool, s'.ps[p].log[k]) {
      assert Named(c, s.eng.pool, s.ps[p].log[k]);
    }
  }

  /** Any step but the end of a round keeps the invariant and extends the interval. */
  lemma StepKeepsCore(s: World, a: Act, s': World)
    requires Core(s) && Next(s, a, s') && !a.EndRound?
    ensures Core(s')
  {
    if Busy(a) {
      BusyKeepsCore(s, a, s');
    } else if a.Pop? {
      PopKeepsCore(s, s');
    } else {
      QuietStep(s, a, s');
      QuietKeepsCore(s, s');
    }
  }

  lemma BusyKeepsCore(s: World, a: Act, s': World)
    requires Core(s) && ProducerStep(s, a, s') && Busy(a)
    ensures Core(s')
  {
    match a
    case Stage(p, m) => StageKeepsCore(s, p, m, s');
    case Alloc(i) => AllocKeepsCore(s, i, s');
    case Join => JoinKeepsCore(s, s');
    case FoldBatch(p) => FoldKeepsCore(s, p, s');
  }

  predicate Quiet(a: Act) { !Busy(a) && !a.Pop? && !a.EndRound? }

  /** Steps that change only sequence numbers, tails, tickets or the worker's scratch. */
  ghost predicate SameLogs(s: World, s': World) {
    && s'.eng == s.eng && s'.retired == s.retired && |s'.ps| == |s.ps|
    && forall p :: 0 <= p < |s.ps| ==> SameLog(s.ps[p], s'.ps[p])
  }

  ghost predicate SameLog(q: Producer, q': Producer) {
    q'.log == q.log && q'.head == q.head && QueueOk(q') && Later(q, q')
  }

  lemma ScratchSame(s: World, s': World)
    requires Queues(s) && OnlyScratch(s, s')
    ensures SameLogs(s, s')
  {
    forall p | 0 <= p < |s.ps| ensures SameLog(s.ps[p], s'.ps[p]) { assert QueueOk(s.ps[p]); }
  }

  lemma QuietStep(s: World, a: Act, s': World)
    requires Queues(s) && Next(s, a, s') && Quiet(a)
    ensures SameLogs(s, s')
  {
    forall p | 0 <= p < |s.ps| ensures SameLog(s.ps[p], s'.ps[p]) { assert QueueOk(s.ps[p]); }
  }

  lemma QuietKeepsCore(s: World, s': World)
    requires Core(s) && SameLogs(s, s')
    ensures Core(s')
  {
    assert forall p :: 0 <= p < |s.ps| ==> SameLog(s.ps[p], s'.ps[p]);
    SameLogsKeepCore(s, s');
  }

  lemma QuietSince(c: World, s: World, s': World)
    requires Since(c, s) && SameLogs(s, s')
    ensures Since(c, s')
  {
    assert forall p :: 0 <= p < |s.ps| ==> SameLog(s.ps[p], s'.ps[p]);
    SameLogsSince(c, s, s');
  }

  lemma PopSince(c: World, s: World, s': World)
    requires Queues(s) && TableOk(s.eng.pool, s.eng.tab) && Since(c, s) && PopStep(s, s')
    ensures Since(c, s')
  {
    PopLater(s, s');
    ProcessKeepsTable(s.eng, s.ps[s.w.i].log[s.ps[s.w.i].head]);
    SameLogsSince(c, s, s');
  }

  lemma PopLater(s: World, s': World)
    requires Queues(s) && PopStep(s, s')
    ensures |s'.ps| == |s.ps| && s'.w == s.w && s'.tickets == s.tickets && s'.completed == s.completed
    ensures forall p :: 0 <= p < |s.ps| ==> s'.ps[p].log == s.ps[p].log && Later(s.ps[p], s'.ps[p])
  {
    forall p | 0 <= p < |s.ps| ensures s'.ps[p].log == s.ps[p].log && Later(s.ps[p], s'.ps[p]) { assert QueueOk(s.ps[p]); }
  }

  lemma StepSince(c: World, s: World, a: Act, s': World)
    requires Core(s) && Queues(c) && Since(c, s) && Next(s, a, s') && !a.EndRound?
    ensures Since(c, s')
  {
    if Busy(a) {
      BusySince(c, s, a, s');
    } else if a.Pop? {
      PopSince(c, s, s');
    } else {
      QuietStep(s, a, s');
      QuietSince(c, s, s');
    }
  }

  /** Producer steps that change logs, producers or the pool. */
  predicate Busy(a: Act) { a.Stage? || a.FoldBatch? || a.Alloc? || a.Join? }

  lemma BusySince(c: World, s: World, a: Act, s': World)
    requires Core(s) && Queues(c) && Since(c, s) && ProducerStep(s, a, s') && Busy(a)
    ensures Since(c, s')
  {
    match a
    case Stage(p, m) => StageSince(c, s, p, m, s');
    case FoldBatch(p) => FoldSince(c, s, p, s');
    case Alloc(i) => AllocSince(c, s, i, s');
    case Join => JoinSince(c, s, s');
  }

  // ---- the worker's scratch -------------------------------------------------------------------

  predicate AfterCut(f: Phase) { f.Tails? || f.Post? || f.Epoch? || f.Drain? }

  ghost predicate WorkOk(s: World) {
    var w := s.w;
    && w.cached <= |s.ps|
    && (!w.phase.Idle? ==> w.serve <= |s.tickets|)
    && (!w.phase.Idle? && !w.phase.Armed? ==> w.before <= |s.ps|)
    && (w.phase.Pre? || AfterCut(w.phase) ==> w.before <= w.n <= |s.ps|)
    && (w.phase.Pre? ==> |w.pre| == w.i <= w.n && w.tails == [])
    && (AfterCut(w.phase) ==> |w.pre| == w.n && w.i <= w.n)
    && (w.phase.Tails? ==> |w.tails| == w.i)
    && (w.phase.Post? || w.phase.Epoch? || w.phase.Drain? ==> |w.tails| == w.n)
    && (w.phase.Pre? || AfterCut(w.phase) ==>
          forall j :: 0 <= j < |w.pre| ==> w.pre[j] <= s.ps[j].pubSeq && (w.stable ==> w.pre[j] % 2 == 0))
    && TicketsOk(s)
  }

  /** Tickets never ask for more than was submitted; completed ones were served in full. */
  ghost predicate TicketsOk(s: World) {
    && s.completed <= |s.tickets|
    && (forall k :: 0 <= k < |s.tickets| ==> s.tickets[k].p < |s.ps| && s.tickets[k].len <= s.ps[s.tickets[k].p].tail)
    && (forall k :: 0 <= k < s.completed ==> s.tickets[k].len <= s.ps[s.tickets[k].p].head)
  }

  lemma StepProducers(s: World, a: Act, s': World)
    requires Queues(s) && Next(s, a, s')
    ensures |s.ps| <= |s'.ps|
    ensures forall p :: 0 <= p < |s.ps| ==> Later(s.ps[p], s'.ps[p])
  {
    forall p | 0 <= p < |s.ps| ensures Later(s.ps[p], s'.ps[p]) {
      assert QueueOk(s.ps[p]);
      assert s'.ps[p].log[..s.ps[p].tail] == s.ps[p].log[..s.ps[p].tail];
    }
  }

  lemma TicketsStep(s: World, a: Act, s': World)
    requires Queues(s) && TicketsOk(s) && Next(s, a, s') && !a.EndRound?
    ensures TicketsOk(s')
  {
    StepProducers(s, a, s');
    assert |s.tickets| <= |s'.tickets| && s'.completed == s.completed;
    forall k | 0 <= k < |s'.tickets|
      ensures s'.tickets[k].p < |s'.ps| && s'.tickets[k].len <= s'.ps[s'.tickets[k].p].tail
    {
      if k < |s.tickets| {
        assert s'.tickets[k] == s.tickets[k];
        assert Later(s.ps[s.tickets[k].p], s'.ps[s.tickets[k].p]);
      } else {
        assert QueueOk(s.ps[a.p]);
      }
    }
    forall k | 0 <= k < s'.completed ensures s'.tickets[k].len <= s'.ps[s'.tickets[k].p].head {
      assert s'.tickets[k] == s.tickets[k];
      assert Later(s.ps[s.tickets[k].p], s'.ps[s.tickets[k].p]);
    }
  }

  lemma TicketsStay(s: World, s': World)
    requires TicketsOk(s) && s'.tickets == s.tickets && s'.completed == s.completed && |s.ps| <= |s'.ps|
    requires forall p :: 0 <= p < |s.ps| ==> Later(s.ps[p], s'.ps[p])
    ensures TicketsOk(s')
  {
    forall k | 0 <= k < |s.tickets| ensures Later(s.ps[s.tickets[k].p], s'.ps[s.tickets[k].p]) {}
  }

  /** Steps that leave the worker's scratch alone. */
  lemma ScratchStays(s: World, s': World)
    requires WorkOk(s) && s'.w == s.w && |s.ps| <= |s'.ps| && |s.tickets| <= |s'.tickets| && TicketsOk(s')
    requires forall p :: 0 <= p < |s.ps| ==> Later(s.ps[p], s'.ps[p])
    ensures WorkOk(s')
  {
    assert forall j :: 0 <= j < |s.ps| ==> Later(s.ps[j], s'.ps[j]);
  }

  lemma ReadWork(s: World, a: Act, s': World)
    requires WorkOk(s) && Reads(s, a, s'.w) && OnlyScratch(s, s')
    ensures WorkOk(s')
  {
    assert TicketsOk(s');
  }

  lemma WorkStep(s: World, a: Act, s': World)
    requires Queues(s) && WorkOk(s) && Next(s, a, s') && !a.EndRound?
    ensures WorkOk(s')
  {
    if Reads(s, a, s'.w) && OnlyScratch(s, s') {
      ReadWork(s, a, s');
    } else {
      StepProducers(s, a, s');
      TicketsStep(s, a, s');
      ScratchStays(s, s');
    }
  }

  // ---- a round, seen from its cut -------------------------------------------------------------

  /** The state in which the last in-flight bit has been read and no tail yet. */
  ghost predicate CutPoint(c: World) { c.w.phase.Tails? && c.w.i == 0 && Core(c) && WorkOk(c) }

  /** Slot `j` was quiet at the cut, and its tail was read as it was then. */
  ghost predicate QuietAt(c: World, s: World, j: nat) {
    && j < |c.ps| && j < |s.w.tails|
    && !Open(c.ps[j]) && s.w.tails[j] == c.ps[j].tail
  }

  /** How many slots have passed the second reading of the in-flight bits. */
  function Confirmed(w: Worker): nat {
    if w.phase.Post? then w.i else if w.phase.Epoch? || w.phase.Drain? then w.n else 0
  }

  ghost predicate Heads(c: World, s: World)
    requires |c.ps| <= |s.ps|
  {
    var w := s.w;
    && (forall j :: |c.ps| <= j < |s.ps| ==> s.ps[j].head == 0)
    && (!w.phase.Drain? ==> forall j :: 0 <= j < |c.ps| ==> s.ps[j].head == c.ps[j].head)
    && (w.phase.Drain? && w.stable ==> forall j :: 0 <= j < |c.ps| ==> s.ps[j].head <= |c.ps[j].log|)
    && (w.phase.Drain? && w.stable ==> forall j :: 0 <= j < w.i && j < |w.tails| && j < |s.ps| ==> s.ps[j].head >= w.tails[j])
  }

  /** The worker's readings, compared with the cut. */
  ghost predicate Readings(c: World, s: World)
    requires |c.ps| <= |s.ps|
  {
    var w := s.w;
    && w.n == c.w.n && w.before == c.w.before && w.pre == c.w.pre && w.serve == c.w.serve
    && c.tickets <= s.tickets
    && (w.stable ==> c.w.stable)
    && (forall j :: 0 <= j < |w.tails| && j < |c.ps| ==> TailAsAtCut(c, s, j))
    && (w.stable ==> forall j: nat :: j < Confirmed(w) ==> QuietAt(c, s, j))
    && (w.phase.Drain? && w.stable ==> |c.ps| == w.n)
  }

  ghost predicate TailAsAtCut(c: World, s: World, j: nat)
    requires j < |c.ps| <= |s.ps| && j < |s.w.tails|
  {
    c.ps[j].pubSeq == s.ps[j].pubSeq && !Open(c.ps[j]) ==> s.w.tails[j] == c.ps[j].tail
  }

  ghost predicate RoundInv(c: World, s: World) {
    CutPoint(c) && Since(c, s) && AfterCut(s.w.phase) && WorkOk(s) && Readings(c, s) && Heads(c, s)
  }

  lemma RoundStarts(c: World)
    requires CutPoint(c)
    ensures RoundInv(c, c)
  {
    SinceRefl(c);
  }

  /** Producer steps leave the worker's readings valid. */
  lemma RoundProducerStep(c: World, s: World, a: Act, s': World)
    requires Core(s) && RoundInv(c, s) && ProducerStep(s, a, s')
    ensures RoundInv(c, s')
  {
    ProducerFrame(s, a, s');
    StepSince(c, s, a, s');
    WorkStep(s, a, s');
    ReadingsStay(c, s, s');
    HeadsStay(c, s, s');
  }

  lemma ProducerFrame(s: World, a: Act, s': World)
    requires Queues(s) && ProducerStep(s, a, s')
    ensures Next(s, a, s') && !a.EndRound? && s'.w == s.w && |s.ps| <= |s'.ps| && s.tickets <= s'.tickets
    ensures forall j :: 0 <= j < |s.ps| ==> s'.ps[j].head == s.ps[j].head && Later(s.ps[j], s'.ps[j])
    ensures forall j :: |s.ps| <= j < |s'.ps| ==> s'.ps[j].head == 0
  {
    StepProducers(s, a, s');
    forall j | 0 <= j < |s.ps| ensures s'.ps[j].head == s.ps[j].head && Later(s.ps[j], s'.ps[j]) {
      assert QueueOk(s.ps[j]);
    }
  }

  lemma ReadingsStay(c: World, s: World, s': World)
    requires |c.ps| <= |s.ps| <= |s'.ps| && Readings(c, s) && s'.w == s.w && s.tickets <= s'.tickets
    requires forall j :: 0 <= j < |c.ps| ==> Later(c.ps[j], s.ps[j]) && Later(s.ps[j], s'.ps[j])
    ensures Readings(c, s')
  {
    forall j | 0 <= j < |s'.w.tails| && j < |c.ps| ensures TailAsAtCut(c, s', j) {
      assert TailAsAtCut(c, s, j);
    }
    forall j: nat | s'.w.stable && j < Confirmed(s'.w) ensures QuietAt(c, s', j) { assert QuietAt(c, s, j); }
  }

  lemma HeadsStay(c: World, s: World, s': World)
    requires |c.ps| <= |s.ps| <= |s'.ps| && Heads(c, s) && s'.w == s.w && WorkOk(s)
    requires forall j :: 0 <= j < |s.ps| ==> s'.ps[j].head == s.ps[j].head
    requires forall j :: |s.ps| <= j < |s'.ps| ==> s'.ps[j].head == 0
    ensures Heads(c, s')
  {
  }

  lemma RoundPop(c: World, s: World, s': World)
    requires Queues(s) && TableOk(s.eng.pool, s.eng.tab) && RoundInv(c, s) && PopStep(s, s')
    ensures RoundInv(c, s')
  {
    PopSince(c, s, s');
    PopLater(s, s');
    TicketsStay(s, s');
    ScratchStays(s, s');
    assert forall j :: 0 <= j < |c.ps| ==> Later(c.ps[j], s.ps[j]) && Later(s.ps[j], s'.ps[j]);
    ReadingsStay(c, s, s');
    PopHeads(c, s, s');
  }

  lemma PopHeads(c: World, s: World, s': World)
    requires Queues(c) && WorkOk(c) && AfterCut(c.w.phase) && |c.ps| <= |s.ps|
    requires Readings(c, s) && Heads(c, s) && PopStep(s, s')
    ensures |c.ps| <= |s'.ps| && Heads(c, s')
  {
    assert s.w.i < s.w.n == c.w.n <= |c.ps|;
    if s.w.stable {
      assert QuietAt(c, s, s.w.i);
      assert QueueOk(c.ps[s.w.i]);
    }
  }

  /** The worker's next reading, as far as the cut is concerned. */
  lemma ReadTailReadings(c: World, s: World, s': World)
    requires |c.ps| <= |s.ps| && Readings(c, s) && WorkOk(s) && TailRead(s, s'.w) && OnlyScratch(s, s')
    requires forall j :: 0 <= j < |c.ps| ==> Later(c.ps[j], s.ps[j])
    ensures Readings(c, s')
  {
    forall j | 0 <= j < |s'.w.tails| && j < |c.ps| ensures TailAsAtCut(c, s', j) {
      if j < |s.w.tails| {
        assert TailAsAtCut(c, s, j);
      } else {
        assert Later(c.ps[j], s.ps[j]);
      }
    }
  }

  lemma RoundReadTail(c: World, s: World, s': World)
    requires Queues(s) && RoundInv(c, s) && TailRead(s, s'.w) && OnlyScratch(s, s')
    ensures RoundInv(c, s')
  {
    ScratchSame(s, s');
    QuietSince(c, s, s');
    ReadWork(s, ReadTail, s');
    ReadTailReadings(c, s, s');
  }

  lemma ReadPostReadings(c: World, s: World, s': World)
    requires |c.ps| <= |s.ps| && c.w.n <= |c.ps| && Readings(c, s) && WorkOk(s)
    requires PostRead(s, s'.w) && OnlyScratch(s, s')
    requires forall j :: 0 <= j < |c.ps| ==> Later(c.ps[j], s.ps[j])
    requires c.w.stable ==> forall j :: 0 <= j < |c.w.pre| && j < |c.ps| ==> c.w.pre[j] <= c.ps[j].pubSeq && c.w.pre[j] % 2 == 0
    ensures Readings(c, s')
  {
    var i := s.w.i;
    forall j | 0 <= j < |s'.w.tails| && j < |c.ps| ensures TailAsAtCut(c, s', j) { assert TailAsAtCut(c, s, j); }
    forall j: nat | s'.w.stable && j < Confirmed(s'.w) ensures QuietAt(c, s', j) {
      if j < Confirmed(s.w) {
        assert QuietAt(c, s, j);
      } else {
        assert j == i && i < c.w.n;
        assert Later(c.ps[i], s.ps[i]) && TailAsAtCut(c, s, i);
      }
    }
  }

  lemma RoundReadPost(c: World, s: World, s': World)
    requires Queues(s) && RoundInv(c, s) && PostRead(s, s'.w) && OnlyScratch(s, s')
    ensures RoundInv(c, s')
  {
    ScratchSame(s, s');
    QuietSince(c, s, s');
    ReadWork(s, ReadPost, s');
    ReadPostReadings(c, s, s');
  }

  lemma SameReadings(c: World, s: World, s': World)
    requires |c.ps| <= |s.ps| && Readings(c, s) && s' == s.(w := s'.w) && s'.w.tails == s.w.tails && s'.w.pre == s.w.pre
    requires s'.w.n == s.w.n && s'.w.before == s.w.before && s'.w.serve == s.w.serve && (s'.w.stable ==> s.w.stable)
    requires Confirmed(s'.w) == Confirmed(s.w) && (s'.w.phase.Drain? && s'.w.stable ==> |c.ps| == s.w.n)
    ensures Readings(c, s')
  {
    forall j | 0 <= j < |s'.w.tails| && j < |c.ps| ensures TailAsAtCut(c, s', j) { assert TailAsAtCut(c, s, j); }
    forall j: nat | s'.w.stable && j < Confirmed(s'.w) ensures QuietAt(c, s', j) { assert QuietAt(c, s, j); }
  }

  lemma RoundCheckEpoch(c: World, s: World, s': World)
    requires Queues(s) && RoundInv(c, s) && EpochChecked(s, s'.w) && OnlyScratch(s, s')
    ensures RoundInv(c, s')
  {
    ScratchSame(s, s');
    QuietSince(c, s, s');
    ReadWork(s, CheckEpoch, s');
    SameReadings(c, s, s');
    forall j | 0 <= j < |c.ps| ensures s'.ps[j].head <= |c.ps[j].log| { assert QueueOk(c.ps[j]); }
  }

  lemma RoundNextQueue(c: World, s: World, s': World)
    requires Queues(s) && RoundInv(c, s) && QueueDone(s, s'.w) && OnlyScratch(s, s')
    ensures RoundInv(c, s')
  {
    ScratchSame(s, s');
    QuietSince(c, s, s');
    ReadWork(s, NextQueue, s');
    SameReadings(c, s, s');
    NextQueueHeads(c, s, s');
  }

  lemma NextQueueHeads(c: World, s: World, s': World)
    requires |c.ps| <= |s.ps| && Heads(c, s) && QueueDone(s, s'.w) && OnlyScratch(s, s')
    ensures Heads(c, s')
  {
  }

  // ---- the sweep at the end of a stable round -------------------------------------------------

  ghost predicate Drained(c: World, s: World) {
    && Queues(s) && |c.ps| <= |s.ps|
    && (forall p :: 0 <= p < |c.ps| ==> !Open(c.ps[p]) && s.ps[p].head == |c.ps[p].log| && c.ps[p].log <= s.ps[p].log)
    && (forall p :: |c.ps| <= p < |s.ps| ==> s.ps[p].head == 0)
  }

  /** What the worker has taken is exactly what had been submitted at the cut. */
  lemma RoundDrained(c: World, s: World)
    requires Core(s) && RoundInv(c, s) && s.w.phase.Drain? && s.w.stable && s.w.i >= s.w.n
    ensures Drained(c, s)
    ensures forall p :: 0 <= p < |c.ps| ==> !Open(c.ps[p]) && p < |s.w.tails| && s.w.tails[p] == |c.ps[p].log|
  {
    forall p | 0 <= p < |c.ps|
      ensures !Open(c.ps[p]) && p < |s.w.tails| && s.w.tails[p] == |c.ps[p].log|
      ensures s.ps[p].head == |c.ps[p].log| && c.ps[p].log <= s.ps[p].log
    {
      assert QuietAt(c, s, p);
      assert QueueOk(c.ps[p]) && Later(c.ps[p], s.ps[p]);
    }
  }

  /** Appending empty logs changes no sum. */
  lemma {:induction false} PaddedSums(ls: seq<seq<Msg>>, ls': seq<seq<Msg>>)
    requires |ls| <= |ls'| && (forall p :: 0 <= p < |ls| ==> ls'[p] == ls[p])
    requires forall p :: |ls| <= p < |ls'| ==> ls'[p] == []
    ensures forall h :: SumRoot(ls', h) == SumRoot(ls, h)
    ensures forall a, b :: SumEdge(ls', a, b) == SumEdge(ls, a, b)
    ensures forall h :: Mentioned(ls', h) <==> Mentioned(ls, h)
    decreases |ls'|
  {
    if |ls'| == |ls| {
      assert ls' == ls;
    } else {
      var l := ls'[..|ls'| - 1];
      PaddedSums(ls, l);
      assert ls' == l + [[]];
      SumNewLog(l);
      JoinMentions(l);
    }
  }

  /** At a drained cut the table's reachable cells are the cells wanted at the cut, and a cell
      nobody had named then is waiting for its first message. */
  lemma DrainedIsCut(c: World, s: World, u: nat)
    requires Core(s) && Since(c, s) && Drained(c, s)
    ensures Reachable(s.eng, u) <==> Wanted(c.eng.pool, Full(c), u)
    ensures s.eng.Live(u) && !Mentioned(Full(c), Current(s.eng.pool, u)) ==> Unborn(s.eng, u)
    ensures forall h :: Mentioned(Taken(s), h) <==> Mentioned(Full(c), h)
  {
    PaddedSums(Full(c), Taken(s));
    SameWants(c.eng.pool, Full(c), s.eng.pool, Taken(s));
    MirrorGraph(s.eng, Taken(s));
  }

  /** Nothing wanted now, and nothing named by a queued message, is freed. */
  lemma SweptStaysValid(c: World, s: World, e': Engine, h: Handle)
    requires Core(s) && Since(c, s) && Drained(c, s) && Swept(s.eng, e') && Vouched(c, s.eng.pool, h)
    ensures Valid(e'.pool, h)
  {
    DrainedIsCut(c, s, h.index);
    X.SweepExactIff(s.eng, e');
    assert e'.Live(h.index);
    assert Survives(s.eng, e', h.index);
  }

  lemma WantedStaysValid(c: World, s: World, e': Engine, i: nat)
    requires Core(s) && Since(c, s) && Drained(c, s) && Swept(s.eng, e') && Wanted(s.eng.pool, Full(s), i)
    ensures LiveAt(s.eng.pool, i) && Valid(e'.pool, Current(s.eng.pool, i))
  {
    WantedIsLive(s.eng.pool, Full(s), i);
    assert WantedSince(c, s, i);
    SweptStaysValid(c, s, e', Current(s.eng.pool, i));
  }

  lemma SweepKeepsPending(c: World, s: World, s': World)
    requires Core(s) && Since(c, s) && Drained(c, s) && Swept(s.eng, s'.eng) && s'.ps == s.ps
    ensures PendingValid(s')
  {
    forall p, k | 0 <= p < |s'.ps| && s'.ps[p].head <= k < |s'.ps[p].log| ensures AllValid(s'.eng.pool, s'.ps[p].log[k]) {
      assert Submitted(c, p) == s.ps[p].head && QuietThen(c, p);
      assert Named(c, s.eng.pool, s.ps[p].log[k]);
      forall h | Mentions(s.ps[p].log[k], h) ensures Valid(s'.eng.pool, h) {
        SweptStaysValid(c, s, s'.eng, h);
      }
    }
  }

  lemma SweepKeepsWanted(c: World, s: World, s': World)
    requires Core(s) && Since(c, s) && Drained(c, s) && Swept(s.eng, s'.eng) && s'.ps == s.ps
    ensures NothingWantedIsDead(s')
  {
    var ls, pool' := Full(s), s'.eng.pool;
    assert Full(s') == ls;
    forall h | SumRoot(ls, h) > 0 ensures Valid(pool', h) { RootStaysValid(c, s, s', h); }
    forall i: nat, h | i < |pool'| && Wanted(pool', ls, i) && SumEdge(ls, Current(pool', i), h) > 0 ensures Valid(pool', h) {
      TargetStaysValid(c, s, s', i, h);
    }
  }

  lemma RootStaysValid(c: World, s: World, s': World, h: Handle)
    requires Core(s) && Since(c, s) && Drained(c, s) && Swept(s.eng, s'.eng) && SumRoot(Full(s), h) > 0
    ensures Valid(s'.eng.pool, h)
  {
    var ls, pool := Full(s), s.eng.pool;
    assert Valid(pool, h) && Held(pool, ls, h.index);
    ReachRefl(LogGraph(pool, ls), h.index);
    WantedVia(pool, ls, h.index, h.index);
    WantedStaysValid(c, s, s'.eng, h.index);
  }

  lemma TargetStaysValid(c: World, s: World, s': World, i: nat, h: Handle)
    requires Core(s) && Since(c, s) && Drained(c, s) && Swept(s.eng, s'.eng) && s'.ps == s.ps
    requires i < |s'.eng.pool| && Wanted(s'.eng.pool, Full(s'), i) && SumEdge(Full(s), Current(s'.eng.pool, i), h) > 0
    ensures Valid(s'.eng.pool, h)
  {
    var ls, pool := Full(s), s.eng.pool;
    WantedIsLive(s'.eng.pool, Full(s'), i);
    assert Survives(s.eng, s'.eng, i);
    SweptWanted(s, s', i);
    assert Valid(pool, h) && (i, h.index) in LogGraph(pool, ls);
    WantedClosed(pool, ls);
    assert i in WantedSet(pool, ls);
    WantedStaysValid(c, s, s'.eng, h.index);
  }

  lemma SweptWanted(s: World, s': World, u: nat)
    requires Shrunk(s.eng, s'.eng) && s'.ps == s.ps && Wanted(s'.eng.pool, Full(s'), u)
    ensures Wanted(s.eng.pool, Full(s), u)
  {
    var ls, pool, pool' := Full(s), s.eng.pool, s'.eng.pool;
    assert Full(s') == ls;
    forall i: nat | LiveAt(pool', i) ensures LiveAt(pool, i) && pool'[i] == pool[i] { assert Survives(s.eng, s'.eng, i); }
    assert LogGraph(pool', ls) <= LogGraph(pool, ls);
    var r: nat :| Held(pool', ls, r) && Reach(LogGraph(pool', ls), r, u);
    ReachMonotone(LogGraph(pool', ls), LogGraph(pool, ls), r, u);
    WantedVia(pool, ls, r, u);
  }

  lemma SweepKeepsMirror(e: Engine, e': Engine, ls: seq<seq<Msg>>)
    requires Mirrors(e, ls) && Shrunk(e, e')
    ensures Mirrors(e', ls)
  {
    forall i: nat | i < |e'.tab| && e'.pool[i].live ensures e'.tab[i].root == SumRoot(ls, Current(e'.pool, i)) {
      assert Survives(e, e', i);
    }
    forall i: nat, j: nat | i < |e'.tab| && j < |e'.tab| ensures SameRecords(e', ls, i, j) {
      assert Survives(e, e', i) && Survives(e, e', j) && SameRecords(e, ls, i, j);
    }
  }

  lemma SweepKeepsUnborn(s: World, s': World)
    requires Core(s) && Swept(s.eng, s'.eng) && s'.ps == s.ps
    ensures Queues(s') && Taken(s') == Taken(s) && UnnamedUnborn(s')
  {
    var e, e' := s.eng, s'.eng;
    forall i: nat | e'.Live(i) && !Mentioned(Taken(s'), Current(e'.pool, i)) ensures Unborn(e', i) {
      assert Survives(e, e', i);
      X.StaysUnborn(e, e', i);
    }
  }

  lemma SweepKeepsCore(c: World, s: World, s': World)
    requires Core(s) && RoundInv(c, s) && EndStep(s, s') && s.w.stable
    ensures Core(s')
  {
    RoundDrained(c, s);
    SweepKeepsPending(c, s, s');
    SweepKeepsWanted(c, s, s');
    SweepKeepsMirror(s.eng, s'.eng, Taken(s));
    SweepKeepsUnborn(s, s');
    SweepAges(s, s');
  }

  lemma SweepAges(s: World, s': World)
    requires Aged(s) && s.eng.Sized() && SweepStep(s, s') && s'.ps == s.ps
    ensures Aged(s')
  {
    assert Full(s') == Full(s);
    forall h | Mentioned(Full(s'), h) ensures AgedHandle(s', h) {
      assert AgedHandle(s, h);
      assert TurnedSlot(s.eng.pool[h.index], s'.eng.pool[h.index]);
    }
  }

  lemma EndRoundWork(c: World, s: World, s': World)
    requires Core(s) && RoundInv(c, s) && EndStep(s, s')
    ensures WorkOk(s')
  {
    if s.w.stable {
      RoundDrained(c, s);
      forall k | 0 <= k < s'.completed ensures s'.tickets[k].len <= s'.ps[s'.tickets[k].p].head {
        if k >= s.completed {
          assert s.w.serve == c.w.serve <= |c.tickets|;
          TicketAtCut(c, s, k);
        }
      }
    }
  }

  /** A ticket the round serves was issued before the cut, so the cut covers what it asks for. */
  lemma TicketAtCut(c: World, s: World, k: nat)
    requires WorkOk(c) && WorkOk(s) && Since(c, s) && k < |c.tickets| && c.tickets <= s.tickets && Drained(c, s)
    ensures s.tickets[k].p < |s.ps| && s.tickets[k].len <= s.ps[s.tickets[k].p].head
  {
    assert s.tickets[k] == c.tickets[k];
  }
}
