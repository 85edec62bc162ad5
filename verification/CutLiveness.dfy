/** A quiesce can always be served: from every state of every run the open batches can be published
    and the worker, left alone, ends its round, begins another and finishes it stable. */
module CutLiveness {
  import opened Cells
  import opened EngineState
  import opened CollectionEngines
  import opened SweepResults
  import opened CutProtocol
  import opened CutRounds
  import opened CutTheorems
  import opened CutVerdicts

  // ---- longer runs ----------------------------------------------------------------------------

  predicate ByWorker(a: Act) {
    a.Begin? || a.ReadEpoch? || a.TakeSlots? || a.ReadPre? || a.ReadTail? || a.ReadPost? || a.CheckEpoch? || a.Pop? || a.NextQueue? || a.EndRound?
  }

  predicate Flushes(a: Act) { a.Publish? || a.CloseBatch? }

  function Last(ss: seq<World>): World
    requires ss != []
  {
    ss[|ss| - 1]
  }

  ghost predicate Extends(ss: seq<World>, acts: seq<Act>, ss': seq<World>, acts': seq<Act>) {
    ss <= ss' && acts <= acts'
  }

  lemma OneMore(capacity: nat, ss: seq<World>, acts: seq<Act>, a: Act, s': World)
    requires Run(capacity, ss, acts) && Next(Last(ss), a, s')
    ensures Run(capacity, ss + [s'], acts + [a])
  {
    forall k: nat | k < |acts + [a]| ensures StepAt(ss + [s'], acts + [a], k) {
      if k < |acts| { assert StepAt(ss, acts, k); }
    }
  }

  // ---- tails are never ahead of the queues ----------------------------------------------------

  ghost predicate TailsRead(s: World) {
    forall j: nat :: j < |s.w.tails| && j < |s.ps| ==> s.w.tails[j] <= s.ps[j].tail
  }

  lemma TailsReadStep(s: World, a: Act, s': World)
    requires Queues(s) && TailsRead(s) && WorkOk(s) && Next(s, a, s') && |s.w.tails| <= |s.ps|
    ensures TailsRead(s')
  {
    StepProducers(s, a, s');
    forall j: nat | j < |s'.w.tails| && j < |s'.ps| ensures s'.w.tails[j] <= s'.ps[j].tail {
      if j < |s.w.tails| && j < |s.ps| { assert Later(s.ps[j], s'.ps[j]); }
    }
  }

  lemma {:induction false} TailsAlways(capacity: nat, ss: seq<World>, acts: seq<Act>, k: nat)
    requires Run(capacity, ss, acts) && k < |ss|
    ensures TailsRead(ss[k]) && |ss[k].w.tails| <= |ss[k].ps|
  {
    if k > 0 {
      TailsAlways(capacity, ss, acts, k - 1);
      var j := RunKeeps(capacity, ss, acts, k - 1, false);
      assert StepAt(ss, acts, k - 1);
      TailsReadStep(ss[k - 1], acts[k - 1], ss[k]);
      TailsFit(ss[k - 1], acts[k - 1], ss[k]);
    }
  }

  lemma TailsFit(s: World, a: Act, s': World)
    requires WorkOk(s) && Next(s, a, s') && |s.w.tails| <= |s.ps|
    ensures |s'.w.tails| <= |s'.ps|
  {
  }

  // ---- the worker is never stuck --------------------------------------------------------------

  function PhasesLeft(f: Phase): nat {
    match f
    case Idle => 0 case Armed => 7 case Slots => 6 case Pre => 5 case Tails => 4 case Post => 3 case Epoch => 2 case Drain => 1
  }

  function Undrained(s: World): nat {
    if s.w.phase.Drain? && s.w.i < |s.w.tails| && s.w.i < |s.ps| && s.ps[s.w.i].head < s.w.tails[s.w.i]
    then s.w.tails[s.w.i] - s.ps[s.w.i].head else 0
  }

  function Left(s: World): nat {
    if s.w.i < s.w.n then s.w.n - s.w.i else 0
  }

  ghost predicate Nearer(s: World, s': World) {
    || PhasesLeft(s'.w.phase) < PhasesLeft(s.w.phase)
    || (s'.w.phase == s.w.phase && Left(s') < Left(s))
    || (s'.w.phase == s.w.phase && Left(s') == Left(s) && Undrained(s') < Undrained(s))
  }

  /** In the middle of a round the worker has a next step, and it brings the end nearer. */
  lemma WorkerGoesOn(s: World) returns (a: Act, s': World)
    requires Core(s) && WorkOk(s) && TailsRead(s) && !s.w.phase.Idle?
    ensures ByWorker(a) && WorkerStep(s, a, s') && Nearer(s, s') && (s'.w.phase.Idle? <==> a.EndRound?)
    ensures !a.Begin?
  {
    if s.w.phase.Drain? {
      a, s' := WorkerDrains(s);
    } else if s.w.phase.Pre? || s.w.phase.Tails? || s.w.phase.Post? {
      a, s' := WorkerReads(s);
    } else {
      a, s' := WorkerCounts(s);
    }
  }

  /** How many producers there are, before and after. */
  lemma WorkerCounts(s: World) returns (a: Act, s': World)
    requires s.w.phase.Armed? || s.w.phase.Slots? || s.w.phase.Epoch?
    ensures ByWorker(a) && WorkerStep(s, a, s') && PhasesLeft(s'.w.phase) < PhasesLeft(s.w.phase) && !s'.w.phase.Idle?
    ensures !a.Begin? && !a.EndRound?
  {
    var w := s.w;
    if w.phase.Armed? {
      a, s' := ReadEpoch, s.(w := w.(phase := Slots, before := |s.ps|));
    } else if w.phase.Slots? {
      var n := if w.cached == w.before then w.cached else |s.ps|;
      a, s' := TakeSlots, s.(w := w.(phase := Pre, i := 0, n := n, cached := n, pre := [], tails := []));
    } else {
      a, s' := CheckEpoch, s.(w := w.(phase := Drain, i := 0, stable := w.stable && |s.ps| == w.before));
    }
  }

  /** The three readings of every producer. */
  lemma WorkerReads(s: World) returns (a: Act, s': World)
    requires WorkOk(s) && (s.w.phase.Pre? || s.w.phase.Tails? || s.w.phase.Post?)
    ensures ByWorker(a) && WorkerStep(s, a, s') && Nearer(s, s') && !s'.w.phase.Idle? && !a.Begin? && !a.EndRound?
  {
    var w := s.w;
    if w.phase.Pre? {
      a := ReadPre;
      s' := s.(w := if w.i < w.n then
        w.(i := w.i + 1, pre := w.pre + [s.ps[w.i].pubSeq], stable := w.stable && s.ps[w.i].pubSeq % 2 == 0)
        else w.(phase := Tails, i := 0));
    } else if w.phase.Tails? {
      a := ReadTail;
      s' := s.(w := if w.i < w.n then w.(i := w.i + 1, tails := w.tails + [s.ps[w.i].tail]) else w.(phase := Post, i := 0));
    } else {
      a := ReadPost;
      s' := s.(w := if w.i < w.n then
        w.(i := w.i + 1, stable := w.stable && s.ps[w.i].pubSeq % 2 == 0 && s.ps[w.i].pubSeq == w.pre[w.i])
        else w.(phase := Epoch));
    }
  }

  lemma WorkerDrains(s: World) returns (a: Act, s': World)
    requires Core(s) && WorkOk(s) && TailsRead(s) && s.w.phase.Drain?
    ensures ByWorker(a) && WorkerStep(s, a, s') && Nearer(s, s') && (s'.w.phase.Idle? <==> a.EndRound?) && !a.Begin?
  {
    var w := s.w;
    if w.i < w.n {
      if s.ps[w.i].head < w.tails[w.i] {
        a := Pop;
        s' := WorkerPops(s);
      } else {
        a, s' := NextQueue, s.(w := w.(i := w.i + 1));
      }
    } else {
      a, s' := WorkerEnds(s);
    }
  }

  lemma WorkerPops(s: World) returns (s': World)
    requires Core(s) && WorkOk(s) && TailsRead(s) && s.w.phase.Drain? && s.w.i < s.w.n && s.ps[s.w.i].head < s.w.tails[s.w.i]
    ensures PopStep(s, s') && s'.w == s.w && Undrained(s') < Undrained(s)
  {
    var q := s.ps[s.w.i];
    assert QueueOk(q);
    s' := s.(ps := s.ps[s.w.i := q.(head := q.head + 1)], eng := Process(s.eng, q.log[q.head]));
  }

  lemma WorkerEnds(s: World) returns (a: Act, s': World)
    requires Core(s) && s.w.phase.Drain? && s.w.i >= s.w.n
    ensures a.EndRound? && WorkerStep(s, a, s') && s'.w.phase.Idle?
  {
    var e' := if s.w.stable then SweptEngine(s.eng) else s.eng;
    SweepExists(s.eng);
    a := EndRound;
    s' := s.(eng := e', retired := if s.w.stable then s.retired + LastFreed(s.eng.pool, e'.pool) else s.retired,
             w := s.w.(phase := Idle), completed := if s.w.stable && s.completed < s.w.serve then s.w.serve else s.completed);
  }

  lemma WorkerStepsOn(capacity: nat, ss: seq<World>, acts: seq<Act>) returns (a: Act, t: World)
    requires Run(capacity, ss, acts) && !Last(ss).w.phase.Idle?
    ensures Run(capacity, ss + [t], acts + [a]) && Nearer(Last(ss), t)
    ensures ByWorker(a) && !a.Begin? && (t.w.phase.Idle? <==> a.EndRound?)
  {
    var j := RunKeeps(capacity, ss, acts, |ss| - 1, false);
    TailsAlways(capacity, ss, acts, |ss| - 1);
    a, t := WorkerGoesOn(Last(ss));
    OneMore(capacity, ss, acts, a, t);
  }

  /** The new steps are the worker's alone, and only the last may end a round. */
  ghost predicate WorkerAlone(acts: seq<Act>, acts': seq<Act>) {
    forall k :: |acts| <= k < |acts'| ==> ByWorker(acts'[k]) && !acts'[k].Begin? && (acts'[k].EndRound? <==> k == |acts'| - 1)
  }

  /** Left alone in the middle of a round, the worker ends it. */
  lemma {:induction false} WorkerEndsRound(capacity: nat, ss: seq<World>, acts: seq<Act>) returns (ss': seq<World>, acts': seq<Act>)
    requires Run(capacity, ss, acts) && !Last(ss).w.phase.Idle?
    ensures Run(capacity, ss', acts') && Extends(ss, acts, ss', acts') && |acts| < |acts'|
    ensures WorkerAlone(acts, acts') && Last(ss').w.phase.Idle?
    decreases PhasesLeft(Last(ss).w.phase), Left(Last(ss)), Undrained(Last(ss))
  {
    var a, t := WorkerStepsOn(capacity, ss, acts);
    var ss1, acts1 := ss + [t], acts + [a];
    if t.w.phase.Idle? {
      ss', acts' := ss1, acts1;
    } else {
      ss', acts' := WorkerEndsRound(capacity, ss1, acts1);
      assert acts'[|acts|] == acts1[|acts|];
    }
  }

  // ---- a whole round of its own ---------------------------------------------------------------

  lemma WorkerRound(capacity: nat, ss: seq<World>, acts: seq<Act>) returns (ss': seq<World>, acts': seq<Act>)
    requires Run(capacity, ss, acts) && Last(ss).w.phase.Idle?
    ensures Run(capacity, ss', acts') && Extends(ss, acts, ss', acts') && |acts| + 1 < |acts'|
    ensures Round(ss', acts', |acts|, |acts'| - 1) && forall k :: |acts| <= k < |acts'| ==> ByWorker(acts'[k])
  {
    var s := Last(ss);
    var t := s.(w := s.w.(phase := Armed, serve := |s.tickets|, stable := true));
    OneMore(capacity, ss, acts, Begin, t);
    var acts1 := acts + [Begin];
    ss', acts' := WorkerEndsRound(capacity, ss + [t], acts1);
    assert acts'[|acts|] == acts1[|acts|] == Begin;
  }

  // ---- publishing what is open ----------------------------------------------------------------

  ghost function OpenOnes(s: World): set<nat> { set p: nat | p < |s.ps| && Open(s.ps[p]) }

  lemma Flush(s: World, p: nat) returns (s1: World, s2: World)
    requires Queues(s) && p in OpenOnes(s)
    ensures Next(s, Publish(p, |s.ps[p].log|), s1) && Next(s1, CloseBatch(p), s2)
    ensures OpenOnes(s2) == OpenOnes(s) - {p} && s2.w == s.w && s2.tickets == s.tickets
  {
    assert QueueOk(s.ps[p]);
    s1 := s.(ps := s.ps[p := s.ps[p].(tail := |s.ps[p].log|)]);
    s2 := s1.(ps := s1.ps[p := s1.ps[p].(pubSeq := s1.ps[p].pubSeq + 1)]);
  }

  lemma FlushOne(capacity: nat, ss: seq<World>, acts: seq<Act>, p: nat) returns (ss': seq<World>, acts': seq<Act>)
    requires Run(capacity, ss, acts) && p in OpenOnes(Last(ss))
    ensures Run(capacity, ss', acts') && Extends(ss, acts, ss', acts')
    ensures |acts'| == |acts| + 2 && Flushes(acts'[|acts|]) && Flushes(acts'[|acts| + 1])
    ensures OpenOnes(Last(ss')) == OpenOnes(Last(ss)) - {p} && Last(ss').w == Last(ss).w && Last(ss').tickets == Last(ss).tickets
  {
    var s := Last(ss);
    var j := RunKeeps(capacity, ss, acts, |ss| - 1, false);
    var s1, s2 := Flush(s, p);
    OneMore(capacity, ss, acts, Publish(p, |s.ps[p].log|), s1);
    OneMore(capacity, ss + [s1], acts + [Publish(p, |s.ps[p].log|)], CloseBatch(p), s2);
    ss', acts' := ss + [s1] + [s2], acts + [Publish(p, |s.ps[p].log|)] + [CloseBatch(p)];
  }

  lemma NoneOpen(s: World)
    requires OpenOnes(s) == {}
    ensures AllClosed(s)
  {
    forall p | 0 <= p < |s.ps| ensures !Open(s.ps[p]) { assert p !in OpenOnes(s); }
  }

  lemma {:induction false} FlushAll(capacity: nat, ss: seq<World>, acts: seq<Act>) returns (ss': seq<World>, acts': seq<Act>)
    requires Run(capacity, ss, acts)
    ensures Run(capacity, ss', acts') && Extends(ss, acts, ss', acts') && forall k :: |acts| <= k < |acts'| ==> Flushes(acts'[k])
    ensures AllClosed(Last(ss')) && Last(ss').w == Last(ss).w && Last(ss').tickets == Last(ss).tickets
    decreases |OpenOnes(Last(ss))|
  {
    if OpenOnes(Last(ss)) == {} {
      NoneOpen(Last(ss));
      ss', acts' := ss, acts;
    } else {
      var p :| p in OpenOnes(Last(ss));
      var ss1, acts1 := FlushOne(capacity, ss, acts, p);
      ss', acts' := FlushAll(capacity, ss1, acts1);
      assert acts'[|acts|] == acts1[|acts|] && acts'[|acts| + 1] == acts1[|acts| + 1];
    }
  }

  /** While only the worker moves, batches stay closed and no ticket is issued. */
  lemma {:induction false} WorkerLeavesProducers(capacity: nat, ss: seq<World>, acts: seq<Act>, i: nat, j: nat)
    requires Run(capacity, ss, acts) && i <= j < |ss| && forall k :: i <= k < j ==> ByWorker(acts[k])
    ensures AllClosed(ss[i]) ==> AllClosed(ss[j])
    ensures ss[j].tickets == ss[i].tickets
    decreases j
  {
    if i < j {
      WorkerLeavesProducers(capacity, ss, acts, i, j - 1);
      assert StepAt(ss, acts, j - 1);
      OneWorkerStep(ss[j - 1], acts[j - 1], ss[j]);
    }
  }

  lemma OneWorkerStep(s: World, a: Act, s': World)
    requires Next(s, a, s') && ByWorker(a)
    ensures AllClosed(s) ==> AllClosed(s')
    ensures s'.tickets == s.tickets
  {
  }

  // ---- quiescence -----------------------------------------------------------------------------

  /** From any point of any run, when the producers only publish and close what they have open, the
      worker brings about a stable round that applies everything submitted, sweeps, and serves every
      ticket. */
  lemma QuiesceReachable(capacity: nat, ss: seq<World>, acts: seq<Act>) returns (ss': seq<World>, acts': seq<Act>, e: nat)
    requires Run(capacity, ss, acts)
    ensures Run(capacity, ss', acts') && Extends(ss, acts, ss', acts')
    ensures forall k :: |acts| <= k < |acts'| ==> Flushes(acts'[k]) || ByWorker(acts'[k])
    ensures |acts| <= e < |acts'| && |ss'| == e + 2 && acts'[e].EndRound? && ss'[e].w.stable
    ensures Swept(ss'[e].eng, Last(ss').eng) && AllDrained(Last(ss').ps) && AllClosed(Last(ss'))
    ensures Last(ss').completed == |Last(ss').tickets| == |Last(ss).tickets|
  {
    var ss1, acts1 := FlushAll(capacity, ss, acts);
    var ss2, acts2 := ss1, acts1;
    if !Last(ss1).w.phase.Idle? { ss2, acts2 := WorkerEndsRound(capacity, ss1, acts1); }
    ss', acts' := WorkerRound(capacity, ss2, acts2);
    var b := |acts2|;
    e := |acts'| - 1;
    WorkerLeavesProducers(capacity, ss', acts', |acts1|, b);
    WorkerLeavesProducers(capacity, ss', acts', b, e + 1);
    UndisturbedRoundIsStable(capacity, ss', acts', b, e);
    RoundEnds(capacity, ss', acts', b, e);
    TicketsBounded(capacity, ss', acts', e + 1);
  }

  // ---- handles --------------------------------------------------------------------------------

  lemma LivesOn(s: World, a: Act, s': World, h: Handle)
    requires Core(s) && Next(s, a, s') && Valid(s.eng.pool, h) && !(a.EndRound? && s.w.stable)
    ensures Valid(s'.eng.pool, h)
  {
    if a.Pop? { ProcessKeepsTable(s.eng, s.ps[s.w.i].log[s.ps[s.w.i].head]); }
  }

  /** A slot that is handed out gives a handle that was not valid before and stays valid until a stable
      round ends, whoever does what in between. */
  lemma {:induction false} HandedOutLives(capacity: nat, ss: seq<World>, acts: seq<Act>, n: nat, k: nat)
    requires Run(capacity, ss, acts) && n < k < |ss| && acts[n].Alloc?
    requires forall j :: n < j < k ==> !(acts[j].EndRound? && ss[j].w.stable)
    ensures acts[n].i < |ss[n].eng.pool| && !Valid(ss[n].eng.pool, Current(ss[n].eng.pool, acts[n].i))
    ensures Valid(ss[k].eng.pool, Current(ss[n].eng.pool, acts[n].i))
    decreases k
  {
    if n + 1 < k {
      HandedOutLives(capacity, ss, acts, n, k - 1);
      LivesOnAt(capacity, ss, acts, k - 1, Current(ss[n].eng.pool, acts[n].i));
    } else {
      assert StepAt(ss, acts, n);
    }
  }

  lemma LivesOnAt(capacity: nat, ss: seq<World>, acts: seq<Act>, k: nat, h: Handle)
    requires Run(capacity, ss, acts) && k < |acts| && Valid(ss[k].eng.pool, h) && !(acts[k].EndRound? && ss[k].w.stable)
    ensures Valid(ss[k + 1].eng.pool, h)
  {
    var j := RunKeeps(capacity, ss, acts, k, false);
    assert StepAt(ss, acts, k);
    LivesOn(ss[k], acts[k], ss[k + 1], h);
  }
}
