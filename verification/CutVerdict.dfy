/** When a round of the worker is judged stable, and what it then achieves. */
module CutVerdicts {
  import opened Cells
  import opened EngineState
  import opened CollectionEngines
  import opened Logs
  import opened CutProtocol
  import opened CutRounds
  import opened CutTheorems

  // ---- one round of a run ---------------------------------------------------------------------

  /** The round that begins at step `b` ends at step `e`. */
  ghost predicate Round(ss: seq<World>, acts: seq<Act>, b: nat, e: nat) {
    && |ss| == |acts| + 1 && b < e < |acts| && acts[b].Begin? && acts[e].EndRound?
    && forall k :: b < k < e ==> !acts[k].EndRound?
  }

  /** Step `k` is the first reading of producer `p`'s in-flight bit. */
  ghost predicate ReadsPre(ss: seq<World>, acts: seq<Act>, k: nat, p: nat) {
    k < |acts| && k < |ss| && acts[k].ReadPre? && p == ss[k].w.i < ss[k].w.n && p < |ss[k].ps|
  }

  /** Step `k` is the second. */
  ghost predicate ReadsPost(ss: seq<World>, acts: seq<Act>, k: nat, p: nat) {
    k < |acts| && k < |ss| && acts[k].ReadPost? && p == ss[k].w.i < ss[k].w.n && p < |ss[k].ps|
  }

  /** Producer `p` has no batch open from state `i` to state `j`. */
  ghost predicate Quiet(ss: seq<World>, p: nat, i: nat, j: nat) {
    forall k: nat :: i <= k <= j ==> ClosedAt(ss, p, k)
  }

  ghost predicate ClosedAt(ss: seq<World>, p: nat, k: nat) {
    k < |ss| && p < |ss[k].ps| && !Open(ss[k].ps[p])
  }

  // ---- in-flight bits over time ---------------------------------------------------------------

  lemma PubSeqStep(s: World, a: Act, s': World, p: nat)
    requires Next(s, a, s') && p < |s.ps|
    ensures p < |s'.ps| && s.ps[p].pubSeq <= s'.ps[p].pubSeq <= s.ps[p].pubSeq + 1
  {
  }

  lemma {:induction false} PubSeqGrows(capacity: nat, ss: seq<World>, acts: seq<Act>, p: nat, i: nat, j: nat)
    requires Run(capacity, ss, acts) && i <= j < |ss| && p < |ss[i].ps|
    ensures p < |ss[j].ps| && ss[i].ps[p].pubSeq <= ss[j].ps[p].pubSeq
    decreases j
  {
    if i < j {
      PubSeqGrows(capacity, ss, acts, p, i, j - 1);
      assert StepAt(ss, acts, j - 1);
      PubSeqStep(ss[j - 1], acts[j - 1], ss[j], p);
    }
  }

  /** Two equal even readings mean that no batch was open in between, and the other way round. */
  lemma {:induction false} EqualReadings(capacity: nat, ss: seq<World>, acts: seq<Act>, p: nat, i: nat, j: nat)
    requires Run(capacity, ss, acts) && i <= j < |ss| && p < |ss[i].ps|
    ensures p < |ss[j].ps|
    ensures !Open(ss[i].ps[p]) && ss[j].ps[p].pubSeq == ss[i].ps[p].pubSeq <==> Quiet(ss, p, i, j)
    decreases j
  {
    PubSeqGrows(capacity, ss, acts, p, i, j);
    if i == j {
      assert Quiet(ss, p, i, j) ==> ClosedAt(ss, p, i);
    } else {
      EqualReadings(capacity, ss, acts, p, i, j - 1);
      assert StepAt(ss, acts, j - 1);
      PubSeqStep(ss[j - 1], acts[j - 1], ss[j], p);
      assert Quiet(ss, p, i, j) ==> Quiet(ss, p, i, j - 1) && ClosedAt(ss, p, j);
      PubSeqGrows(capacity, ss, acts, p, i, j - 1);
    }
  }

  // ---- what the worker's scratch remembers ----------------------------------------------------

  /** The steps at which the round has read what it knows: the number of producers at `t` and at `c`,
      and producer `p`'s bit at `pre[p]` and at `post[p]`. */
  datatype Diary = Diary(t: nat, pre: seq<nat>, post: seq<nat>, c: nat)

  predicate PastSlots(f: Phase) { f.Slots? || f.Pre? || AfterCut(f) }

  ghost predicate PreNoted(ss: seq<World>, acts: seq<Act>, d: Diary, k: nat, p: nat)
    requires k < |ss| && p < |d.pre|
  {
    && d.t < d.pre[p] < k && ReadsPre(ss, acts, d.pre[p], p)
    && p < |ss[k].w.pre| && ss[k].w.pre[p] == ss[d.pre[p]].ps[p].pubSeq
  }

  ghost predicate PostNoted(ss: seq<World>, acts: seq<Act>, d: Diary, k: nat, p: nat)
    requires k < |ss| && p < |d.post|
  {
    && p < |d.pre| && d.pre[p] < d.post[p] < k && ReadsPost(ss, acts, d.post[p], p)
  }

  /** Producer `p`'s bit was down at its first reading, and had not moved by the second if there was
      one. */
  ghost predicate Clean(ss: seq<World>, d: Diary, p: nat)
    requires p < |d.pre|
  {
    && d.pre[p] < |ss| && p < |ss[d.pre[p]].ps| && !Open(ss[d.pre[p]].ps[p])
    && (p < |d.post| ==> d.post[p] < |ss| && p < |ss[d.post[p]].ps| && ss[d.post[p]].ps[p].pubSeq == ss[d.pre[p]].ps[p].pubSeq)
  }

  ghost predicate Unjoined(ss: seq<World>, d: Diary) {
    d.t < |ss| && d.c < |ss| && |ss[d.c].ps| == |ss[d.t].ps|
  }

  /** The readings of the diary were made before state `k` and are the ones the worker remembers. */
  ghost predicate Readings(ss: seq<World>, acts: seq<Act>, k: nat, d: Diary)
    requires k < |ss|
  {
    && (forall p: nat :: p < |d.pre| ==> PreNoted(ss, acts, d, k, p))
    && (forall p: nat :: p < |d.post| ==> PostNoted(ss, acts, d, k, p))
  }

  ghost predicate AllClean(ss: seq<World>, d: Diary) {
    forall p: nat :: p < |d.pre| ==> Clean(ss, d, p)
  }

  /** What the diary of a round holds in each of its phases. */
  ghost predicate Filled(ss: seq<World>, acts: seq<Act>, b: nat, k: nat, d: Diary)
    requires k < |ss|
  {
    var w := ss[k].w;
    && (PastSlots(w.phase) ==> b < d.t < k && d.t < |acts| && acts[d.t].ReadEpoch? && w.before == |ss[d.t].ps|)
    && (if w.phase.Pre? || AfterCut(w.phase) then |d.pre| == |w.pre| else d.pre == [])
    && |d.post| == Confirmed(w)
    && (w.phase.Drain? ==> CheckedAt(ss, acts, k, d))
  }

  ghost predicate CheckedAt(ss: seq<World>, acts: seq<Act>, k: nat, d: Diary) {
    && d.t < d.c < k && d.c < |acts| && acts[d.c].CheckEpoch?
    && forall p: nat :: p < |d.post| ==> d.post[p] < d.c
  }

  ghost predicate VerdictIs(ss: seq<World>, w: Worker, d: Diary) {
    w.stable <==> AllClean(ss, d) && (w.phase.Drain? ==> Unjoined(ss, d))
  }

  /** The diary is that of round `b` up to state `k`, and the worker's verdict so far is what it
      amounts to. */
  ghost predicate Noted(ss: seq<World>, acts: seq<Act>, b: nat, k: nat, d: Diary)
    requires k < |ss|
  {
    && !ss[k].w.phase.Idle? && b < k && ss[k].w.serve == |ss[b].tickets|
    && Filled(ss, acts, b, k, d) && Readings(ss, acts, k, d) && VerdictIs(ss, ss[k].w, d)
  }

  lemma ReadingsStay(ss: seq<World>, acts: seq<Act>, k: nat, k': nat, d: Diary, d': Diary)
    requires k < k' < |ss| && Readings(ss, acts, k, d) && ss[k].w.pre <= ss[k'].w.pre
    requires d'.pre == d.pre && d'.post == d.post && d'.t == d.t
    ensures Readings(ss, acts, k', d')
  {
    forall p: nat | p < |d'.pre| ensures PreNoted(ss, acts, d', k', p) { assert PreNoted(ss, acts, d, k, p); }
    forall p: nat | p < |d'.post| ensures PostNoted(ss, acts, d', k', p) { assert PostNoted(ss, acts, d, k, p); }
  }

  lemma SameClean(ss: seq<World>, d: Diary, d': Diary)
    requires d'.pre == d.pre && d'.post == d.post
    ensures AllClean(ss, d') <==> AllClean(ss, d)
  {
    assert forall p: nat :: p < |d.pre| ==> (Clean(ss, d, p) <==> Clean(ss, d', p));
  }

  /** Steps between readings. */
  lemma NotesStay(ss: seq<World>, acts: seq<Act>, b: nat, k: nat, k': nat, d: Diary)
    requires k < k' < |ss| && Noted(ss, acts, b, k, d)
    requires ss[k'].w == ss[k].w.(phase := ss[k'].w.phase, i := ss[k'].w.i, tails := ss[k'].w.tails)
    requires Filled(ss, acts, b, k', d) && (ss[k'].w.phase.Drain? <==> ss[k].w.phase.Drain?) && !ss[k'].w.phase.Idle?
    ensures Noted(ss, acts, b, k', d)
  {
    ReadingsStay(ss, acts, k, k', d, d);
  }

  lemma NoteEpoch(ss: seq<World>, acts: seq<Act>, b: nat, k: nat, k': nat, d: Diary) returns (d': Diary)
    requires k + 1 == k' < |ss| && k < |acts| && Noted(ss, acts, b, k, d) && acts[k].ReadEpoch? && EpochRead(ss[k], ss[k'].w)
    ensures Noted(ss, acts, b, k', d')
  {
    d' := d.(t := k);
    SameClean(ss, d, d');
    NothingRead(ss, acts, k', d');
  }

  lemma NothingRead(ss: seq<World>, acts: seq<Act>, k: nat, d: Diary)
    requires k < |ss| && d.pre == [] && d.post == []
    ensures Readings(ss, acts, k, d)
  {
  }

  lemma NotePre(ss: seq<World>, acts: seq<Act>, b: nat, k: nat, k': nat, d: Diary) returns (d': Diary)
    requires k + 1 == k' < |ss| && k < |acts| && Noted(ss, acts, b, k, d) && WorkOk(ss[k]) && acts[k].ReadPre? && PreRead(ss[k], ss[k'].w)
    ensures Noted(ss, acts, b, k', d')
  {
    var s, w' := ss[k], ss[k'].w;
    if s.w.i < s.w.n {
      d' := d.(pre := d.pre + [k]);
      forall p: nat | p < |d'.pre| ensures PreNoted(ss, acts, d', k', p) { assert p < |d.pre| ==> PreNoted(ss, acts, d, k, p); }
      CleanMore(ss, d, d', k);
    } else {
      d' := d;
      NotesStay(ss, acts, b, k, k', d);
    }
  }

  lemma CleanMore(ss: seq<World>, d: Diary, d': Diary, k: nat)
    requires d.post == [] && d' == d.(pre := d.pre + [k]) && k < |ss| && |d.pre| < |ss[k].ps|
    ensures AllClean(ss, d') <==> AllClean(ss, d) && !Open(ss[k].ps[|d.pre|])
  {
    assert forall p: nat :: p < |d.pre| ==> (Clean(ss, d, p) <==> Clean(ss, d', p));
    assert Clean(ss, d', |d.pre|) <==> !Open(ss[k].ps[|d.pre|]);
  }

  lemma NotePost(ss: seq<World>, acts: seq<Act>, b: nat, k: nat, k': nat, d: Diary) returns (d': Diary)
    requires k + 1 == k' < |ss| && k < |acts| && Noted(ss, acts, b, k, d) && WorkOk(ss[k]) && acts[k].ReadPost? && PostRead(ss[k], ss[k'].w)
    ensures Noted(ss, acts, b, k', d')
  {
    var s, w' := ss[k], ss[k'].w;
    if s.w.i < s.w.n {
      d' := d.(post := d.post + [k]);
      var p := s.w.i;
      assert PreNoted(ss, acts, d, k, p);
      forall p: nat | p < |d'.pre| ensures PreNoted(ss, acts, d', k', p) { assert PreNoted(ss, acts, d, k, p); }
      forall p: nat | p < |d'.post| ensures PostNoted(ss, acts, d', k', p) {
        assert p < |d.post| ==> PostNoted(ss, acts, d, k, p);
      }
      CleanAgain(ss, d, d', k);
    } else {
      d' := d;
      NotesStay(ss, acts, b, k, k', d);
    }
  }

  lemma CleanAgain(ss: seq<World>, d: Diary, d': Diary, k: nat)
    requires d' == d.(post := d.post + [k]) && k < |ss| && |d.post| < |d.pre| && |d.post| < |ss[k].ps|
    requires d.pre[|d.post|] < |ss| && |d.post| < |ss[d.pre[|d.post|]].ps|
    ensures AllClean(ss, d') <==> AllClean(ss, d) && ss[k].ps[|d.post|].pubSeq == ss[d.pre[|d.post|]].ps[|d.post|].pubSeq
  {
    var q := |d.post|;
    assert forall p: nat :: p < |d.pre| && p != q ==> (Clean(ss, d, p) <==> Clean(ss, d', p));
    assert Clean(ss, d', q) <==> Clean(ss, d, q) && ss[k].ps[q].pubSeq == ss[d.pre[q]].ps[q].pubSeq;
  }

  lemma NoteCheck(ss: seq<World>, acts: seq<Act>, b: nat, k: nat, k': nat, d: Diary) returns (d': Diary)
    requires k + 1 == k' < |ss| && k < |acts| && Noted(ss, acts, b, k, d) && acts[k].CheckEpoch? && EpochChecked(ss[k], ss[k'].w)
    ensures Noted(ss, acts, b, k', d')
  {
    d' := d.(c := k);
    SameClean(ss, d, d');
    ReadingsStay(ss, acts, k, k', d, d');
    forall p: nat | p < |d'.post| ensures d'.post[p] < k { assert PostNoted(ss, acts, d, k, p); }
  }

  lemma NoteStep(ss: seq<World>, acts: seq<Act>, b: nat, k: nat, k': nat, d: Diary) returns (d': Diary)
    requires k + 1 == k' < |ss| && k < |acts| && Noted(ss, acts, b, k, d) && Queues(ss[k]) && WorkOk(ss[k])
    requires Next(ss[k], acts[k], ss[k']) && !acts[k].EndRound?
    ensures Noted(ss, acts, b, k', d')
  {
    var s, a, s' := ss[k], acts[k], ss[k'];
    d' := d;
    if ProducerStep(s, a, s') {
      ProducerFrame(s, a, s');
      NotesStay(ss, acts, b, k, k', d);
    } else {
      match a
      case ReadEpoch => d' := NoteEpoch(ss, acts, b, k, k', d);
      case TakeSlots => NothingRead(ss, acts, k', d);
      case ReadPre => d' := NotePre(ss, acts, b, k, k', d);
      case ReadTail => NotesStay(ss, acts, b, k, k', d);
      case ReadPost => d' := NotePost(ss, acts, b, k, k', d);
      case CheckEpoch => d' := NoteCheck(ss, acts, b, k, k', d);
      case NextQueue => NotesStay(ss, acts, b, k, k', d);
      case Pop => NotesStay(ss, acts, b, k, k', d);
    }
  }

  lemma {:induction false} RoundNoted(capacity: nat, ss: seq<World>, acts: seq<Act>, b: nat, e: nat, k: nat) returns (d: Diary)
    requires Run(capacity, ss, acts) && Round(ss, acts, b, e) && b < k <= e
    ensures Noted(ss, acts, b, k, d)
    decreases k
  {
    assert StepAt(ss, acts, k - 1);
    if k == b + 1 {
      d := Diary(0, [], [], 0);
      assert Filled(ss, acts, b, k, d) && Readings(ss, acts, k, d);
    } else {
      d := RoundNoted(capacity, ss, acts, b, e, k - 1);
      var j := RunKeeps(capacity, ss, acts, k - 1, false);
      d := NoteStep(ss, acts, b, k - 1, k, d);
    }
  }

  // ---- the verdict ----------------------------------------------------------------------------

  /** A round is judged stable if and only if no producer had a batch open at any time between its
      two readings, and nobody joined between the two readings of their number.  Every producer that
      existed when the round began is read twice. */
  lemma StableIff(capacity: nat, ss: seq<World>, acts: seq<Act>, b: nat, e: nat) returns (d: Diary)
    requires Run(capacity, ss, acts) && Round(ss, acts, b, e)
    ensures b < d.t < d.c < e && acts[d.t].ReadEpoch? && acts[d.c].CheckEpoch?
    ensures |ss[b].ps| <= |d.pre| == |d.post|
    ensures forall p: nat :: p < |d.pre| ==> ReadTwice(ss, acts, d, p)
    ensures ss[e].w.stable <==> |ss[d.c].ps| == |ss[d.t].ps| && forall p: nat :: p < |d.pre| ==> Quiet(ss, p, d.pre[p], d.post[p])
  {
    d := RoundNoted(capacity, ss, acts, b, e, e);
    var j := RunKeeps(capacity, ss, acts, e, false);
    assert StepAt(ss, acts, e);
    ProducersStay(capacity, ss, acts, b, d.t);
    forall p: nat | p < |d.pre| ensures ReadTwice(ss, acts, d, p) && (Clean(ss, d, p) <==> Quiet(ss, p, d.pre[p], d.post[p])) {
      assert PreNoted(ss, acts, d, e, p) && PostNoted(ss, acts, d, e, p);
      EqualReadings(capacity, ss, acts, p, d.pre[p], d.post[p]);
    }
  }

  ghost predicate ReadTwice(ss: seq<World>, acts: seq<Act>, d: Diary, p: nat)
    requires p < |d.pre| == |d.post|
  {
    d.t < d.pre[p] < d.post[p] < d.c && ReadsPre(ss, acts, d.pre[p], p) && ReadsPost(ss, acts, d.post[p], p)
  }

  lemma {:induction false} ProducersStay(capacity: nat, ss: seq<World>, acts: seq<Act>, i: nat, j: nat)
    requires Run(capacity, ss, acts) && i <= j < |ss|
    ensures |ss[i].ps| <= |ss[j].ps|
    decreases j
  {
    if i < j {
      ProducersStay(capacity, ss, acts, i, j - 1);
      assert StepAt(ss, acts, j - 1);
      FewerNever(ss[j - 1], acts[j - 1], ss[j]);
    }
  }

  lemma FewerNever(s: World, a: Act, s': World)
    requires Next(s, a, s')
    ensures |s.ps| <= |s'.ps|
  {
  }

  /** What the end of a round does: a stable one sweeps, and completes every ticket issued before it
      began; an unstable one leaves cells and tickets alone. */
  lemma RoundEnds(capacity: nat, ss: seq<World>, acts: seq<Act>, b: nat, e: nat)
    requires Run(capacity, ss, acts) && Round(ss, acts, b, e)
    ensures var n := |ss[b].tickets|;
      if ss[e].w.stable then Swept(ss[e].eng, ss[e + 1].eng) && ss[e + 1].completed == if ss[e].completed < n then n else ss[e].completed
      else ss[e + 1].eng == ss[e].eng && ss[e + 1].completed == ss[e].completed
    ensures ss[e + 1].ps == ss[e].ps && ss[e + 1].w.phase.Idle?
  {
    var d := RoundNoted(capacity, ss, acts, b, e, e);
    assert StepAt(ss, acts, e);
  }

  // ---- a round that nobody disturbs -----------------------------------------------------------

  predicate AllClosed(s: World) { forall p :: 0 <= p < |s.ps| ==> !Open(s.ps[p]) }

  /** No batch is opened or closed and nobody joins between steps `b` and `e`. */
  predicate Undisturbed(acts: seq<Act>, b: nat, e: nat) {
    forall k :: b <= k < e && k < |acts| ==> !acts[k].Join? && !acts[k].OpenBatch? && !acts[k].CloseBatch?
  }

  ghost predicate SameBits(s: World, s': World) {
    |s'.ps| == |s.ps| && forall p :: 0 <= p < |s.ps| ==> s'.ps[p].pubSeq == s.ps[p].pubSeq
  }

  lemma SameBitsStep(s: World, a: Act, s': World)
    requires Next(s, a, s') && !a.Join? && !a.OpenBatch? && !a.CloseBatch?
    ensures SameBits(s, s')
  {
  }

  lemma {:induction false} BitsStay(capacity: nat, ss: seq<World>, acts: seq<Act>, b: nat, k: nat)
    requires Run(capacity, ss, acts) && b <= k < |ss| && Undisturbed(acts, b, k)
    ensures SameBits(ss[b], ss[k])
    decreases k
  {
    if b < k {
      BitsStay(capacity, ss, acts, b, k - 1);
      assert StepAt(ss, acts, k - 1);
      SameBitsStep(ss[k - 1], acts[k - 1], ss[k]);
    }
  }

  /** A round that begins with every batch closed, while nobody opens one or joins, is stable: it ends
      in a sweep after everything submitted has been applied, and completes every ticket issued before
      it began. */
  lemma UndisturbedRoundIsStable(capacity: nat, ss: seq<World>, acts: seq<Act>, b: nat, e: nat)
    requires Run(capacity, ss, acts) && Round(ss, acts, b, e) && AllClosed(ss[b]) && Undisturbed(acts, b, e)
    ensures ss[e].w.stable && Swept(ss[e].eng, ss[e + 1].eng) && AllDrained(ss[e].ps)
    ensures ss[e + 1].completed >= |ss[b].tickets|
  {
    var d := StableIff(capacity, ss, acts, b, e);
    forall p: nat | p < |d.pre| ensures Quiet(ss, p, d.pre[p], d.post[p]) {
      assert ReadTwice(ss, acts, d, p);
      forall k: nat | d.pre[p] <= k <= d.post[p] ensures ClosedAt(ss, p, k) {
        BitsStay(capacity, ss, acts, b, d.pre[p]);
        BitsStay(capacity, ss, acts, b, k);
      }
    }
    BitsStay(capacity, ss, acts, b, d.t);
    BitsStay(capacity, ss, acts, b, d.c);
    RoundEnds(capacity, ss, acts, b, e);
    UndisturbedDrains(capacity, ss, acts, b, e);
  }

  lemma UndisturbedDrains(capacity: nat, ss: seq<World>, acts: seq<Act>, b: nat, e: nat)
    requires Run(capacity, ss, acts) && Round(ss, acts, b, e) && AllClosed(ss[b]) && Undisturbed(acts, b, e) && ss[e].w.stable
    ensures AllDrained(ss[e].ps)
  {
    var c := StableCut(capacity, ss, acts, e);
    BitsStay(capacity, ss, acts, b, e);
    forall p | 0 <= p < |ss[e].ps| ensures ss[e].ps[p].head == |ss[e].ps[p].log| {
      BitAtReading(capacity, ss, acts, b, e, p);
      DrainedQueue(c, ss[e], p);
    }
  }

  lemma StableCut(capacity: nat, ss: seq<World>, acts: seq<Act>, e: nat) returns (c: World)
    requires Run(capacity, ss, acts) && e < |acts| && acts[e].EndRound? && ss[e].w.stable
    ensures RoundInv(c, ss[e]) && Drained(c, ss[e]) && |ss[e].w.pre| == |c.ps|
  {
    var j := RunKeeps(capacity, ss, acts, e, false);
    assert StepAt(ss, acts, e);
    c := ss[j];
    CutHasAll(c, ss[e]);
  }

  lemma BitAtReading(capacity: nat, ss: seq<World>, acts: seq<Act>, b: nat, e: nat, p: nat)
    requires Run(capacity, ss, acts) && Round(ss, acts, b, e) && Undisturbed(acts, b, e)
    requires SameBits(ss[b], ss[e]) && p < |ss[e].ps|
    ensures p < |ss[e].w.pre| && ss[e].w.pre[p] == ss[e].ps[p].pubSeq
  {
    var d' := RoundNoted(capacity, ss, acts, b, e, e);
    assert StepAt(ss, acts, e);
    assert p < |d'.pre| by { ManyRead(capacity, ss, acts, b, e, d'); }
    assert PreNoted(ss, acts, d', e, p);
    BitsStay(capacity, ss, acts, b, d'.pre[p]);
  }

  lemma ManyRead(capacity: nat, ss: seq<World>, acts: seq<Act>, b: nat, e: nat, d: Diary)
    requires Run(capacity, ss, acts) && Round(ss, acts, b, e) && Noted(ss, acts, b, e, d)
    ensures |ss[b].ps| <= |d.pre|
  {
    var j := RunKeeps(capacity, ss, acts, e, false);
    assert StepAt(ss, acts, e);
    ProducersStay(capacity, ss, acts, b, d.t);
  }

  /** A bit that is still as it was first read has not moved since the cut. */
  lemma DrainedQueue(c: World, s: World, p: nat)
    requires RoundInv(c, s) && Drained(c, s) && p < |c.ps| && p < |s.w.pre| && s.w.pre[p] == s.ps[p].pubSeq
    ensures s.ps[p].head == |s.ps[p].log|
  {
    assert Later(c.ps[p], s.ps[p]);
  }

  lemma CutHasAll(c: World, s: World)
    requires Core(s) && RoundInv(c, s) && s.w.phase.Drain? && s.w.stable && s.w.i >= s.w.n
    ensures Drained(c, s) && |s.w.pre| == |c.ps|
  {
    RoundDrained(c, s);
  }
}
