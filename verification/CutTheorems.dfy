/** The consistent cut over whole runs: every interleaving of producers and worker. */
module CutTheorems {
  import opened Cells
  import opened EngineState
  import opened CollectionEngines
  import opened Logs
  import opened CutProtocol
  import opened CutRounds
  import opened CutGrounds

  ghost predicate Run(capacity: nat, ss: seq<World>, acts: seq<Act>) {
    && |ss| == |acts| + 1 && ss[0] == Start(capacity)
    && forall k: nat :: k < |acts| ==> StepAt(ss, acts, k)
  }

  ghost predicate StepAt(ss: seq<World>, acts: seq<Act>, k: nat)
    requires k < |acts| && k + 1 < |ss|
  {
    Next(ss[k], acts[k], ss[k + 1])
  }

  /** The first `k` steps are what an exact run may contain. */
  ghost predicate ExactUpTo(ss: seq<World>, acts: seq<Act>, k: nat)
    requires |ss| == |acts| + 1 && k <= |acts|
  {
    forall n: nat :: n < k ==> ExactStep(ss[n], acts[n])
  }

  /** In every run; and, when `exact`, in every exact one. */
  ghost predicate Good(s: World, exact: bool) {
    Core(s) && WorkOk(s) && (exact ==> Accounted(s))
  }

  /** `c` is the cut of the round `s` is in, if it is past one. */
  ghost predicate CutOf(c: World, s: World, exact: bool) {
    AfterCut(s.w.phase) ==> RoundInv(c, s) && (exact ==> GroundSince(c, s))
  }

  lemma EndKeeps(c: World, s: World, s': World, exact: bool)
    requires Good(s, exact) && CutOf(c, s, exact) && EndStep(s, s')
    ensures Good(s', exact) && CutOf(c, s', exact)
  {
    EndRoundWork(c, s, s');
    if s.w.stable {
      SweepKeepsCore(c, s, s');
      if exact { SweepAccounted(c, s, s'); }
    } else {
      SameLogsKeepCore(s, s');
      if exact { SameAccounted(c, s, s'); }
    }
  }

  /** Every step but the end of a round keeps what holds in every state. */
  lemma StepGood(c: World, s: World, a: Act, s': World, exact: bool)
    requires Good(s, exact) && Next(s, a, s') && !a.EndRound? && (exact ==> ExactStep(s, a))
    ensures Good(s', exact) && (exact && Queues(c) && Since(c, s) && GroundSince(c, s) ==> GroundSince(c, s'))
  {
    StepKeepsCore(s, a, s');
    WorkStep(s, a, s');
    if exact { StepAccounted(c, s, a, s'); }
  }

  lemma GroundAtCut(c: World)
    requires Core(c)
    ensures GroundSince(c, c)
  {
    QueuesInOrder(c);
  }

  lemma EarlyStep(c: World, s: World, a: Act, s': World, exact: bool) returns (fromHere: bool)
    requires Good(s, exact) && Next(s, a, s') && (a.Begin? || a.ReadEpoch? || a.TakeSlots? || a.ReadPre?)
    ensures Good(s', exact) && CutOf(if fromHere then s' else c, s', exact)
  {
    fromHere := false;
    StepGood(c, s, a, s', exact);
    if s'.w.phase.Tails? {
      fromHere := true;
      RoundStarts(s');
      GroundAtCut(s');
    }
  }

  predicate Late(a: Act) { a.ReadTail? || a.ReadPost? || a.CheckEpoch? || a.NextQueue? || a.Pop? }

  lemma LateRound(c: World, s: World, a: Act, s': World)
    requires Core(s) && RoundInv(c, s) && Next(s, a, s') && Late(a)
    ensures RoundInv(c, s')
  {
    match a
    case ReadTail => RoundReadTail(c, s, s');
    case ReadPost => RoundReadPost(c, s, s');
    case CheckEpoch => RoundCheckEpoch(c, s, s');
    case NextQueue => RoundNextQueue(c, s, s');
    case Pop => RoundPop(c, s, s');
  }

  lemma LateStep(c: World, s: World, a: Act, s': World, exact: bool)
    requires Good(s, exact) && CutOf(c, s, exact) && Next(s, a, s') && Late(a)
    ensures Good(s', exact) && CutOf(c, s', exact)
  {
    assert AfterCut(s.w.phase);
    LateRound(c, s, a, s');
    StepGood(c, s, a, s', exact);
  }

  lemma WorkerKeeps(c: World, s: World, a: Act, s': World, exact: bool) returns (fromHere: bool)
    requires Good(s, exact) && CutOf(c, s, exact) && WorkerStep(s, a, s')
    ensures Good(s', exact) && CutOf(if fromHere then s' else c, s', exact)
  {
    fromHere := false;
    if a.EndRound? {
      EndKeeps(c, s, s', exact);
    } else if a.Begin? || a.ReadEpoch? || a.TakeSlots? || a.ReadPre? {
      fromHere := EarlyStep(c, s, a, s', exact);
    } else {
      LateStep(c, s, a, s', exact);
    }
  }

  lemma AnyStep(c: World, s: World, a: Act, s': World, exact: bool) returns (fromHere: bool)
    requires Good(s, exact) && CutOf(c, s, exact) && Next(s, a, s') && (exact ==> ExactStep(s, a))
    ensures Good(s', exact) && CutOf(if fromHere then s' else c, s', exact)
  {
    if ProducerStep(s, a, s') {
      fromHere := false;
      ProducerFrame(s, a, s');
      StepGood(c, s, a, s', exact);
      if AfterCut(s.w.phase) { RoundProducerStep(c, s, a, s'); }
    } else {
      fromHere := WorkerKeeps(c, s, a, s', exact);
    }
  }

  lemma StartGood(capacity: nat)
    ensures Good(Start(capacity), true)
  {
    StartCore(capacity);
  }

  lemma {:induction false} RunKeeps(capacity: nat, ss: seq<World>, acts: seq<Act>, k: nat, exact: bool) returns (j: nat)
    requires Run(capacity, ss, acts) && k < |ss| && (exact ==> ExactUpTo(ss, acts, k))
    ensures Good(ss[k], exact) && j <= k && CutOf(ss[j], ss[k], exact)
  {
    if k == 0 {
      StartGood(capacity);
      j := 0;
    } else {
      j := RunKeeps(capacity, ss, acts, k - 1, exact);
      assert StepAt(ss, acts, k - 1);
      var here := AnyStep(ss[j], ss[k - 1], acts[k - 1], ss[k], exact);
      if here { j := k; }
    }
  }

  /** Safety, at every point of every run: no handle on which any producer's log holds a root is
      dead, nor is anything such a root reaches. */
  lemma NothingHeldIsFreed(capacity: nat, ss: seq<World>, acts: seq<Act>, k: nat)
    requires Run(capacity, ss, acts) && k < |ss|
    ensures NothingWantedIsDead(ss[k])
    ensures forall p: nat, h: Handle :: p < |ss[k].ps| && NetRoot(ss[k].ps[p].log, h) > 0 ==> Valid(ss[k].eng.pool, h)
  {
    var j := RunKeeps(capacity, ss, acts, k, false);
    var s := ss[k];
    forall p: nat, h: Handle | p < |s.ps| && NetRoot(s.ps[p].log, h) > 0 ensures Valid(s.eng.pool, h) {
      FullOwn(s);
      ShareRoot(Full(s), p, h);
    }
  }

  /** The queues as they stood at one instant: every batch empty, every tail at the end of its log. */
  ghost predicate AtInstant(c: World, tails: seq<nat>) {
    && |tails| == |c.ps|
    && forall p :: 0 <= p < |c.ps| ==> !Open(c.ps[p]) && tails[p] == |c.ps[p].log| == c.ps[p].tail
  }

  /** A round judged stable has read tails that all belong to one earlier instant, and has applied
      everything submitted by then.  The sweep that ends it frees no cell that was wanted then or had
      not been named by then; in an exact run it frees every other one. */
  lemma StableCutIsOneInstant(capacity: nat, ss: seq<World>, acts: seq<Act>, k: nat, exact: bool) returns (j: nat)
    requires Run(capacity, ss, acts) && k < |acts| && acts[k].EndRound? && ss[k].w.stable
    requires exact ==> ExactUpTo(ss, acts, k)
    ensures j <= k && AtInstant(ss[j], ss[k].w.tails)
    ensures forall p :: 0 <= p < |ss[j].ps| ==> p < |ss[k].ps| && ss[k].ps[p].head == |ss[j].ps[p].log|
    ensures FreesSafely(ss[j], ss[k], ss[k + 1])
    ensures exact ==> FreesExactly(ss[j], ss[k], ss[k + 1])
  {
    j := RunKeeps(capacity, ss, acts, k, exact);
    var c, s, s' := ss[j], ss[k], ss[k + 1];
    assert StepAt(ss, acts, k);
    RoundDrained(c, s);
    forall p | 0 <= p < |c.ps| ensures c.ps[p].tail == |c.ps[p].log| { assert QueueOk(c.ps[p]); }
    forall u: nat ensures KeptIf(c, s, s', u) {
      if s.eng.Live(u) && Vouched(c, s.eng.pool, Current(s.eng.pool, u)) {
        SweptStaysValid(c, s, s'.eng, Current(s.eng.pool, u));
      }
    }
    if exact {
      forall u: nat ensures FreedIff(c, s, s', u) { SweepAtCut(c, s, s'.eng, u); }
    }
  }

  ghost predicate FreesSafely(c: World, s: World, s': World) {
    forall u: nat :: KeptIf(c, s, s', u)
  }

  /** Slot `u` survives if it was wanted at `c` or its handle had not been named by then. */
  ghost predicate KeptIf(c: World, s: World, s': World, u: nat) {
    s.eng.Live(u) && (Wanted(c.eng.pool, Full(c), u) || !Mentioned(Full(c), Current(s.eng.pool, u))) ==> s'.eng.Live(u)
  }

  ghost predicate FreesExactly(c: World, s: World, s': World) {
    forall u: nat :: FreedIff(c, s, s', u)
  }

  /** Slot `u`, live when the round `s` ends, survives into `s'` exactly if it was wanted at `c` or
      its handle had not been named by any message submitted by then. */
  ghost predicate FreedIff(c: World, s: World, s': World, u: nat) {
    s'.eng.Live(u) <==>
      (s.eng.Live(u) && (Wanted(c.eng.pool, Full(c), u) || !Mentioned(Full(c), Current(s.eng.pool, u))))
  }

  // ---- quiesce --------------------------------------------------------------------------------

  lemma TicketsGrow(s: World, a: Act, s': World)
    requires Good(s, false) && Next(s, a, s')
    ensures s.tickets <= s'.tickets && s.completed <= s'.completed
  {
  }

  lemma {:induction false} TicketsOrdered(capacity: nat, ss: seq<World>, acts: seq<Act>, j: nat, k: nat)
    requires Run(capacity, ss, acts) && j <= k < |ss|
    ensures ss[j].tickets <= ss[k].tickets && ss[j].completed <= ss[k].completed <= |ss[k].tickets|
  {
    TicketsBounded(capacity, ss, acts, k);
    if j < k {
      TicketsOrdered(capacity, ss, acts, j, k - 1);
      TicketsStepOn(capacity, ss, acts, k - 1);
    }
  }

  lemma TicketsBounded(capacity: nat, ss: seq<World>, acts: seq<Act>, k: nat)
    requires Run(capacity, ss, acts) && k < |ss|
    ensures ss[k].completed <= |ss[k].tickets|
  {
    var c := RunKeeps(capacity, ss, acts, k, false);
    assert WorkOk(ss[k]);
  }

  lemma TicketsStepOn(capacity: nat, ss: seq<World>, acts: seq<Act>, k: nat)
    requires Run(capacity, ss, acts) && k < |acts|
    ensures ss[k].tickets <= ss[k + 1].tickets && ss[k].completed <= ss[k + 1].completed
  {
    var c := RunKeeps(capacity, ss, acts, k, false);
    assert StepAt(ss, acts, k);
    TicketsGrow(ss[k], acts[k], ss[k + 1]);
  }

  /** Every round was begun, and serves the tickets issued by then. */
  lemma {:induction false} RoundBegun(capacity: nat, ss: seq<World>, acts: seq<Act>, k: nat) returns (b: nat)
    requires Run(capacity, ss, acts) && k < |ss| && !ss[k].w.phase.Idle?
    ensures b < k && acts[b].Begin? && ss[k].w.serve == |ss[b].tickets|
    decreases k
  {
    assert k > 0;
    assert StepAt(ss, acts, k - 1);
    if acts[k - 1].Begin? {
      b := k - 1;
    } else {
      SamePhaseRound(ss[k - 1], acts[k - 1], ss[k]);
      b := RoundBegun(capacity, ss, acts, k - 1);
    }
  }

  lemma SamePhaseRound(s: World, a: Act, s': World)
    requires Next(s, a, s') && !a.Begin? && !s'.w.phase.Idle?
    ensures !s.w.phase.Idle? && s'.w.serve == s.w.serve
  {
  }

  /** When ticket `t` counts as completed, a stable round that began after the ticket was issued has
      ended in a sweep, and everything its caller had submitted had been applied before that sweep. */
  lemma {:induction false} QuiesceServed(capacity: nat, ss: seq<World>, acts: seq<Act>, issued: nat, k: nat)
      returns (b: nat, e: nat)
    requires Run(capacity, ss, acts) && issued < |acts| && k < |ss|
    requires acts[issued].Ask? && ss[k].completed > |ss[issued].tickets|
    ensures issued < b < e < k && acts[b].Begin? && acts[e].EndRound? && ss[e].w.stable
    ensures var p := acts[issued].p;
      p < |ss[issued].ps| && p < |ss[e].ps| && |ss[issued].ps[p].log| <= ss[e].ps[p].head
    decreases k
  {
    var t := |ss[issued].tickets|;
    assert k > 0;
    assert StepAt(ss, acts, k - 1);
    if ss[k - 1].completed > t {
      b, e := QuiesceServed(capacity, ss, acts, issued, k - 1);
    } else {
      e := k - 1;
      CompletedByRound(ss[k - 1], acts[k - 1], ss[k], t);
      b := RoundBegun(capacity, ss, acts, e);
      if b <= issued { TicketsOrdered(capacity, ss, acts, b, issued); }
      TicketsOrdered(capacity, ss, acts, issued + 1, b);
      TicketsOrdered(capacity, ss, acts, b, e);
      ServedHead(capacity, ss, acts, issued, e);
    }
  }

  lemma CompletedByRound(s: World, a: Act, s': World, t: nat)
    requires Next(s, a, s') && s.completed <= t < s'.completed
    ensures a.EndRound? && s.w.stable && t < s.w.serve && s'.completed == s.w.serve && !s.w.phase.Idle?
    ensures s'.ps == s.ps && s'.tickets == s.tickets
  {
  }

  lemma ServedHead(capacity: nat, ss: seq<World>, acts: seq<Act>, issued: nat, e: nat)
    requires Run(capacity, ss, acts) && issued < e < |acts|
    requires acts[issued].Ask? && acts[e].EndRound? && ss[e].w.stable
    requires ss[issued + 1].tickets <= ss[e].tickets
    requires ss[e + 1].completed > |ss[issued].tickets|
    requires ss[e + 1].ps == ss[e].ps && ss[e + 1].tickets == ss[e].tickets
    ensures var p := acts[issued].p;
      p < |ss[issued].ps| && p < |ss[e].ps| && |ss[issued].ps[p].log| <= ss[e].ps[p].head
  {
    assert StepAt(ss, acts, issued);
    var t := |ss[issued].tickets|;
    var j := RunKeeps(capacity, ss, acts, e + 1, false);
    assert ss[e].tickets[t] == ss[issued + 1].tickets[t] == Ticket(acts[issued].p, |ss[issued].ps[acts[issued].p].log|);
    assert TicketsOk(ss[e + 1]);
  }
}
