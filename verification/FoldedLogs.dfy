/** A log whose unpublished batch has been folded says the same as before. */
module FoldedLogs {
  import opened Cells
  import opened EngineState
  import opened Logs
  import opened Folding
  import opened FoldMeaning

  /** From `tail` on, only messages as a mutator stages them. */
  ghost predicate StagedFrom(log: seq<Msg>, tail: nat) {
    tail <= |log| && forall i :: 0 <= i < |log[tail..]| ==> Staged(log[tail..][i])
  }

  /** The log with the batch behind `tail` folded. */
  ghost function FoldedLog(log: seq<Msg>, tail: nat): seq<Msg>
    requires StagedFrom(log, tail)
  {
    log[..tail] + FoldAll(log[tail..]).out
  }

  lemma {:induction false} NetConcat(l: seq<Msg>, k: seq<Msg>)
    ensures forall h :: NetRoot(l + k, h) == NetRoot(l, h) + NetRoot(k, h)
    ensures forall a, b :: NetEdge(l + k, a, b) == NetEdge(l, a, b) + NetEdge(k, a, b)
    decreases |k|
  {
    if k == [] {
      assert l + k == l;
    } else {
      var n := |k| - 1;
      NetConcat(l, k[..n]);
      assert l + k == l + k[..n] + [k[n]] && k == k[..n] + [k[n]];
      NetAppend(l + k[..n], k[n]);
      NetAppend(k[..n], k[n]);
    }
  }

  // ---- edges ----------------------------------------------------------------------------------

  lemma NoEdgeDelta(m: Msg, a: Handle, b: Handle)
    requires !IsEdgeOp(m)
    ensures EdgeDelta(m, a, b) == 0
  {
  }

  /** Only edge operations matter for the records a log holds, at its end and on the way. */
  lemma {:induction false} LowestEdges(base: seq<Msg>, ms: seq<Msg>, head: nat, a: Handle, b: Handle)
    requires head <= |base|
    ensures Lowest(base + ms, head, a, b) == Lowest(base + EdgeOps(ms), head, a, b)
    ensures NetEdge(base + ms, a, b) == NetEdge(base + EdgeOps(ms), a, b)
    decreases |ms|
  {
    if ms != [] {
      var n := |ms| - 1;
      var m := ms[n];
      LowestEdges(base, ms[..n], head, a, b);
      assert base + ms == base + ms[..n] + [m];
      NetAppend(base + ms[..n], m);
      if IsEdgeOp(m) {
        var es := EdgeOps(ms[..n]);
        assert base + EdgeOps(ms) == base + es + [m];
        NetAppend(base + es, m);
        LowestAppend(base + ms[..n], head, m, a, b);
        LowestAppend(base + es, head, m, a, b);
      } else {
        NoEdgeDelta(m, a, b);
        LowestKept(base + ms[..n], head, m, a, b);
      }
    }
  }

  lemma FoldedEdges(log: seq<Msg>, tail: nat, head: nat, a: Handle, b: Handle)
    requires StagedFrom(log, tail) && head <= tail
    ensures Lowest(FoldedLog(log, tail), head, a, b) == Lowest(log, head, a, b)
    ensures NetEdge(FoldedLog(log, tail), a, b) == NetEdge(log, a, b)
  {
    var base, ms := log[..tail], log[tail..];
    assert log == base + ms;
    FoldKeepsEdgeOps(ms);
    LowestEdges(base, ms, head, a, b);
    LowestEdges(base, FoldAll(ms).out, head, a, b);
  }

  // ---- roots ----------------------------------------------------------------------------------

  lemma FoldedRoots(log: seq<Msg>, tail: nat, h: Handle)
    requires StagedFrom(log, tail)
    ensures NetRoot(FoldedLog(log, tail), h) == NetRoot(log, h)
  {
    var base, ms := log[..tail], log[tail..];
    var f := FoldAll(ms);
    assert log == base + ms;
    NetConcat(base, ms);
    NetConcat(base, f.out);
    FoldDelta(ms, h);
    FoldedPrefix(f, h, |f.out|);
    assert f.out[..|f.out|] == f.out;
  }

  lemma FoldedOwn(log: seq<Msg>, tail: nat)
    requires StagedFrom(log, tail) && OwnLog(log)
    ensures OwnLog(FoldedLog(log, tail))
  {
    var l := FoldedLog(log, tail);
    forall k | 0 <= k < |l| ensures OwnMsg(l[..k], l[k]) {
      if k < tail {
        assert l[..k] == log[..k] && l[k] == log[k];
        assert OwnMsg(log[..k], log[k]);
      } else {
        FoldedOwnAt(log, tail, k - tail);
        assert l[..k] == log[..tail] + FoldAll(log[tail..]).out[..k - tail];
      }
    }
  }

  /** What a folded removal takes was there before the batch. */
  lemma FoldedOwnAt(log: seq<Msg>, tail: nat, k: nat)
    requires StagedFrom(log, tail) && OwnLog(log) && k < |FoldAll(log[tail..]).out|
    ensures OwnMsg(log[..tail] + FoldAll(log[tail..]).out[..k], FoldAll(log[tail..]).out[k])
  {
    var base, ms := log[..tail], log[tail..];
    var f := FoldAll(ms);
    var m := f.out[k];
    if IsRootOp(m) {
      assert m == NetMsg(m.b, f.delta[m.b]);
      if m.RootRemove? {
        assert log == base + ms;
        OwnNonNegative(log);
        NetConcat(base, ms);
        NetConcat(base, f.out[..k]);
        FoldDelta(ms, m.b);
        FoldedPrefix(f, m.b, k);
        assert NetRoot(log, m.b) >= 0;
      }
    }
  }

  // ---- names ----------------------------------------------------------------------------------

  lemma FoldMsgMentions(f: Fold, m: Msg, h: Handle)
    requires FoldOk(f) && Staged(m)
    ensures LogMentions(FoldMsg(f, m).out, h) <==> LogMentions(f.out, h) || Mentions(m, h)
  {
    var f' := FoldMsg(f, m);
    if IsRootOp(m) && m.b in f.pos {
      var i := f.pos[m.b];
      assert forall x :: Mentions(f'.out[i], x) <==> x == m.b;
      assert forall x :: Mentions(f.out[i], x) <==> x == m.b;
      forall k | 0 <= k < |f.out| ensures Mentions(f'.out[k], h) <==> Mentions(f.out[k], h) {}
      if Mentions(m, h) { assert Mentions(f'.out[i], h); }
    } else {
      assert f'.out == f.out + [m];
      AppendMentions(f.out, m, h);
    }
  }

  lemma AppendMentions(log: seq<Msg>, m: Msg, h: Handle)
    ensures LogMentions(log + [m], h) <==> LogMentions(log, h) || Mentions(m, h)
  {
    var l := log + [m];
    if LogMentions(log, h) {
      var k :| 0 <= k < |log| && Mentions(log[k], h);
      assert l[k] == log[k];
    }
    assert l[|log|] == m;
    if LogMentions(l, h) && !Mentions(m, h) {
      var k :| 0 <= k < |l| && Mentions(l[k], h);
      assert log[k] == l[k];
    }
  }

  lemma {:induction false} FoldMentions(ms: seq<Msg>, h: Handle)
    requires forall i :: 0 <= i < |ms| ==> Staged(ms[i])
    ensures LogMentions(FoldAll(ms).out, h) <==> LogMentions(ms, h)
    decreases |ms|
  {
    if ms != [] {
      var n := |ms| - 1;
      FoldMentions(ms[..n], h);
      FoldMsgMentions(FoldAll(ms[..n]), ms[n], h);
      AppendMentions(ms[..n], ms[n], h);
      assert ms == ms[..n] + [ms[n]];
    }
  }

  lemma ConcatMentions(l: seq<Msg>, k: seq<Msg>, h: Handle)
    ensures LogMentions(l + k, h) <==> LogMentions(l, h) || LogMentions(k, h)
  {
    if LogMentions(l, h) {
      var i :| 0 <= i < |l| && Mentions(l[i], h);
      assert (l + k)[i] == l[i];
    }
    if LogMentions(k, h) {
      var i :| 0 <= i < |k| && Mentions(k[i], h);
      assert (l + k)[|l| + i] == k[i];
    }
    if LogMentions(l + k, h) {
      var i :| 0 <= i < |l + k| && Mentions((l + k)[i], h);
      assert i < |l| ==> (l + k)[i] == l[i];
      assert i >= |l| ==> (l + k)[i] == k[i - |l|];
    }
  }

  lemma FoldedMentions(log: seq<Msg>, tail: nat, h: Handle)
    requires StagedFrom(log, tail)
    ensures LogMentions(FoldedLog(log, tail), h) <==> LogMentions(log, h)
  {
    var base, ms := log[..tail], log[tail..];
    assert log == base + ms;
    FoldMentions(ms, h);
    ConcatMentions(base, ms, h);
    ConcatMentions(base, FoldAll(ms).out, h);
  }

  /** Whatever a folded message names, some message of the batch named. */
  lemma FoldedNames(log: seq<Msg>, tail: nat, k: nat, h: Handle) returns (j: nat)
    requires StagedFrom(log, tail) && tail <= k < |FoldedLog(log, tail)| && Mentions(FoldedLog(log, tail)[k], h)
    ensures tail <= j < |log| && Mentions(log[j], h)
  {
    var ms := log[tail..];
    assert FoldedLog(log, tail)[k] == FoldAll(ms).out[k - tail];
    FoldMentions(ms, h);
    var i :| 0 <= i < |ms| && Mentions(ms[i], h);
    j := tail + i;
  }
}
