/** Message logs of several producers, and the graph they describe when all of them are applied. */
module Logs {
  import opened Graphs
  import opened Cells
  import opened EngineState
  import opened Coverage

  function RootDelta(m: Msg, h: Handle): int {
    if m.RootAdd? && m.b == h then m.count as int
    else if m.RootRemove? && m.b == h then 0 - m.count as int
    else 0
  }

  function EdgeDelta(m: Msg, a: Handle, b: Handle): int {
    if m == EdgeAdd(a, b) then 1 else if m == EdgeRemove(a, b) then -1 else 0
  }

  /** The roots one log holds on `h`, and the records it holds from `a` to `b`. */
  ghost function NetRoot(log: seq<Msg>, h: Handle): int {
    if log == [] then 0 else NetRoot(log[..|log| - 1], h) + RootDelta(log[|log| - 1], h)
  }

  ghost function NetEdge(log: seq<Msg>, a: Handle, b: Handle): int {
    if log == [] then 0 else NetEdge(log[..|log| - 1], a, b) + EdgeDelta(log[|log| - 1], a, b)
  }

  predicate Mentions(m: Msg, h: Handle) {
    match m
    case RootAdd(b, _) => b == h
    case RootRemove(b, _) => b == h
    case RootCheck(b) => b == h
    case EdgeAdd(a, b) => a == h || b == h
    case EdgeRemove(a, b) => a == h || b == h
    case Terminate => false
  }

  ghost predicate LogMentions(log: seq<Msg>, h: Handle) {
    exists k :: 0 <= k < |log| && Mentions(log[k], h)
  }

  // ---- several logs ---------------------------------------------------------------------------

  ghost function SumRoot(ls: seq<seq<Msg>>, h: Handle): int {
    if ls == [] then 0 else SumRoot(ls[..|ls| - 1], h) + NetRoot(ls[|ls| - 1], h)
  }

  ghost function SumEdge(ls: seq<seq<Msg>>, a: Handle, b: Handle): int {
    if ls == [] then 0 else SumEdge(ls[..|ls| - 1], a, b) + NetEdge(ls[|ls| - 1], a, b)
  }

  ghost predicate Mentioned(ls: seq<seq<Msg>>, h: Handle) {
    exists p :: 0 <= p < |ls| && LogMentions(ls[p], h)
  }

  lemma NetAppend(log: seq<Msg>, m: Msg)
    ensures forall h :: NetRoot(log + [m], h) == NetRoot(log, h) + RootDelta(m, h)
    ensures forall a, b :: NetEdge(log + [m], a, b) == NetEdge(log, a, b) + EdgeDelta(m, a, b)
  {
    var l := log + [m];
    assert l[..|l| - 1] == log && l[|l| - 1] == m;
  }

  lemma {:induction false} SumRootAppend(ls: seq<seq<Msg>>, p: nat, m: Msg, h: Handle)
    requires p < |ls|
    ensures SumRoot(ls[p := ls[p] + [m]], h) == SumRoot(ls, h) + RootDelta(m, h)
    decreases |ls|
  {
    NetAppend(ls[p], m);
    var n := |ls| - 1;
    var ls' := ls[p := ls[p] + [m]];
    if p == n {
      assert ls'[..n] == ls[..n];
    } else {
      assert ls'[..n] == ls[..n][p := ls[..n][p] + [m]];
      SumRootAppend(ls[..n], p, m, h);
    }
  }

  lemma {:induction false} SumEdgeAppend(ls: seq<seq<Msg>>, p: nat, m: Msg, a: Handle, b: Handle)
    requires p < |ls|
    ensures SumEdge(ls[p := ls[p] + [m]], a, b) == SumEdge(ls, a, b) + EdgeDelta(m, a, b)
    decreases |ls|
  {
    NetAppend(ls[p], m);
    var n := |ls| - 1;
    var ls' := ls[p := ls[p] + [m]];
    if p == n {
      assert ls'[..n] == ls[..n];
    } else {
      assert ls'[..n] == ls[..n][p := ls[..n][p] + [m]];
      SumEdgeAppend(ls[..n], p, m, a, b);
    }
  }

  lemma SumNewLog(ls: seq<seq<Msg>>)
    ensures forall h :: SumRoot(ls + [[]], h) == SumRoot(ls, h)
    ensures forall a, b :: SumEdge(ls + [[]], a, b) == SumEdge(ls, a, b)
  {
    assert (ls + [[]])[..|ls|] == ls;
  }

  lemma {:induction false} UnmentionedNet(log: seq<Msg>, h: Handle)
    requires !LogMentions(log, h)
    ensures NetRoot(log, h) == 0
    ensures forall x :: NetEdge(log, h, x) == 0 && NetEdge(log, x, h) == 0
    decreases |log|
  {
    if log != [] {
      var l := log[..|log| - 1];
      assert !Mentions(log[|log| - 1], h);
      assert !LogMentions(l, h) by { assert forall k :: 0 <= k < |l| ==> l[k] == log[k]; }
      UnmentionedNet(l, h);
      forall x ensures NetEdge(log, h, x) == 0 && NetEdge(log, x, h) == 0 {
        assert NetEdge(l, h, x) == 0 && NetEdge(l, x, h) == 0;
      }
    }
  }

  lemma {:induction false} UnmentionedSum(ls: seq<seq<Msg>>, h: Handle)
    requires !Mentioned(ls, h)
    ensures SumRoot(ls, h) == 0
    ensures forall x :: SumEdge(ls, h, x) == 0 && SumEdge(ls, x, h) == 0
    decreases |ls|
  {
    if ls != [] {
      var n := |ls| - 1;
      assert !LogMentions(ls[n], h);
      UnmentionedNet(ls[n], h);
      assert !Mentioned(ls[..n], h) by { assert forall p :: 0 <= p < n ==> ls[..n][p] == ls[p]; }
      UnmentionedSum(ls[..n], h);
      forall x ensures SumEdge(ls, h, x) == 0 && SumEdge(ls, x, h) == 0 {
        assert SumEdge(ls[..n], h, x) == 0 && SumEdge(ls[..n], x, h) == 0;
        assert NetEdge(ls[n], h, x) == 0 && NetEdge(ls[n], x, h) == 0;
      }
    }
  }

  lemma MentionedAppend(ls: seq<seq<Msg>>, p: nat, m: Msg, h: Handle)
    requires p < |ls|
    ensures Mentioned(ls[p := ls[p] + [m]], h) <==> Mentioned(ls, h) || Mentions(m, h)
  {
    var ls' := ls[p := ls[p] + [m]];
    if Mentioned(ls, h) {
      var q :| 0 <= q < |ls| && LogMentions(ls[q], h);
      var k :| 0 <= k < |ls[q]| && Mentions(ls[q][k], h);
      assert ls'[q][k] == ls[q][k];
      assert LogMentions(ls'[q], h);
    }
    if Mentions(m, h) {
      assert ls'[p][|ls[p]|] == m;
      assert LogMentions(ls'[p], h);
    }
    if Mentioned(ls', h) {
      var q :| 0 <= q < |ls'| && LogMentions(ls'[q], h);
      var k :| 0 <= k < |ls'[q]| && Mentions(ls'[q][k], h);
      if q == p && k == |ls[p]| {
      } else {
        assert ls[q][k] == ls'[q][k];
        assert LogMentions(ls[q], h);
      }
    }
  }

  // ---- well-behaved logs ----------------------------------------------------------------------

  /** At every point of the log the producer owns the roots it gives up. */
  ghost predicate OwnLog(log: seq<Msg>) {
    forall k :: 0 <= k < |log| ==> OwnMsg(log[..k], log[k])
  }

  ghost predicate OwnMsg(log: seq<Msg>, m: Msg) {
    match m
    case RootAdd(_, c) => c > 0
    case RootRemove(h, c) => 0 < c <= NetRoot(log, h)
    case _ => true
  }

  lemma {:induction false} OwnNonNegative(log: seq<Msg>)
    requires OwnLog(log)
    ensures forall h :: NetRoot(log, h) >= 0
    decreases |log|
  {
    if log != [] {
      var n := |log| - 1;
      assert OwnMsg(log[..n], log[n]);
      OwnPrefix(log, n);
      OwnNonNegative(log[..n]);
    }
  }

  lemma OwnPrefix(log: seq<Msg>, n: nat)
    requires OwnLog(log) && n <= |log|
    ensures OwnLog(log[..n])
  {
    forall k | 0 <= k < n ensures OwnMsg(log[..n][..k], log[..n][k]) {
      assert log[..n][..k] == log[..k];
      assert OwnMsg(log[..k], log[k]);
    }
  }

  lemma OwnAppend(log: seq<Msg>, m: Msg)
    requires OwnLog(log) && OwnMsg(log, m)
    ensures OwnLog(log + [m])
  {
    var l := log + [m];
    forall k | 0 <= k < |l| ensures OwnMsg(l[..k], l[k]) {
      if k < |log| {
        assert l[..k] == log[..k];
        assert OwnMsg(log[..k], log[k]);
      } else {
        assert l[..k] == log;
      }
    }
  }

  ghost predicate OwnLogs(ls: seq<seq<Msg>>) {
    forall p :: 0 <= p < |ls| ==> OwnLog(ls[p])
  }

  /** One producer's share is never more than the whole. */
  lemma {:induction false} ShareRoot(ls: seq<seq<Msg>>, p: nat, h: Handle)
    requires OwnLogs(ls) && p < |ls|
    ensures 0 <= NetRoot(ls[p], h) <= SumRoot(ls, h)
    decreases |ls|
  {
    var n := |ls| - 1;
    OwnNonNegative(ls[n]);
    OwnNonNegative(ls[p]);
    SumsNonNegative(ls[..n], h);
    if p < n { ShareRoot(ls[..n], p, h); }
  }

  lemma {:induction false} SumsNonNegative(ls: seq<seq<Msg>>, h: Handle)
    requires OwnLogs(ls)
    ensures SumRoot(ls, h) >= 0
    decreases |ls|
  {
    if ls != [] {
      OwnNonNegative(ls[|ls| - 1]);
      SumsNonNegative(ls[..|ls| - 1], h);
    }
  }

  /** Replacing one log changes a sum by the difference of that log. */
  lemma {:induction false} SumReplace(ls: seq<seq<Msg>>, p: nat, l: seq<Msg>)
    requires p < |ls|
    ensures forall h :: SumRoot(ls[p := l], h) == SumRoot(ls, h) - NetRoot(ls[p], h) + NetRoot(l, h)
    ensures forall a, b :: SumEdge(ls[p := l], a, b) == SumEdge(ls, a, b) - NetEdge(ls[p], a, b) + NetEdge(l, a, b)
    decreases |ls|
  {
    var n, ls' := |ls| - 1, ls[p := l];
    if p == n {
      assert ls'[..n] == ls[..n];
    } else {
      assert ls'[..n] == ls[..n][p := l];
      SumReplace(ls[..n], p, l);
      assert ls[..n][p] == ls[p] && ls'[n] == ls[n];
    }
  }

  // ---- how few records a producer will show ---------------------------------------------------

  function Min(x: int, y: int): int { if x <= y then x else y }

  /** The fewest records from `a` to `b` the log holds at any point from `head` on: what its taken
      part may show until everything submitted so far has been taken. */
  ghost function Lowest(log: seq<Msg>, head: nat, a: Handle, b: Handle): int
    requires head <= |log|
    decreases |log|
  {
    if |log| == head then NetEdge(log, a, b) else Min(Lowest(log[..|log| - 1], head, a, b), NetEdge(log, a, b))
  }

  lemma {:induction false} LowestBelow(log: seq<Msg>, head: nat, a: Handle, b: Handle, j: nat)
    requires head <= j <= |log|
    ensures Lowest(log, head, a, b) <= NetEdge(log[..j], a, b)
    decreases |log|
  {
    if j == |log| {
      assert log[..j] == log;
    } else {
      LowestBelow(log[..|log| - 1], head, a, b, j);
      assert log[..|log| - 1][..j] == log[..j];
    }
  }

  lemma {:induction false} LowestAdvance(log: seq<Msg>, head: nat, a: Handle, b: Handle)
    requires head < |log|
    ensures Lowest(log, head, a, b) <= Lowest(log, head + 1, a, b)
    decreases |log|
  {
    if |log| > head + 1 { LowestAdvance(log[..|log| - 1], head, a, b); }
  }

  lemma LowestAppend(log: seq<Msg>, head: nat, m: Msg, a: Handle, b: Handle)
    requires head <= |log|
    ensures Lowest(log + [m], head, a, b) == Min(Lowest(log, head, a, b), NetEdge(log, a, b) + EdgeDelta(m, a, b))
  {
    NetAppend(log, m);
    var l := log + [m];
    assert l[..|l| - 1] == log;
  }

  /** A message that takes no record away lowers nothing. */
  lemma LowestKept(log: seq<Msg>, head: nat, m: Msg, a: Handle, b: Handle)
    requires head <= |log| && EdgeDelta(m, a, b) >= 0
    ensures Lowest(log + [m], head, a, b) == Lowest(log, head, a, b)
  {
    LowestAppend(log, head, m, a, b);
    LowestBelow(log, head, a, b, |log|);
    assert log[..|log|] == log;
  }

  // ---- the graph the logs describe ------------------------------------------------------------

  ghost predicate Drawn(pool: seq<Slot>, ls: seq<seq<Msg>>, i: nat, j: nat) {
    LiveAt(pool, i) && LiveAt(pool, j) && SumEdge(ls, Current(pool, i), Current(pool, j)) > 0
  }

  ghost function LogGraph(pool: seq<Slot>, ls: seq<seq<Msg>>): Graph {
    set i: nat, j: nat | i < |pool| && j < |pool| && Drawn(pool, ls, i, j) :: (i, j)
  }

  ghost predicate Held(pool: seq<Slot>, ls: seq<seq<Msg>>, i: nat) {
    LiveAt(pool, i) && SumRoot(ls, Current(pool, i)) > 0
  }

  /** Some producer's root reaches slot `u` in the graph the logs describe. */
  ghost predicate Wanted(pool: seq<Slot>, ls: seq<seq<Msg>>, u: nat) {
    exists r: nat :: Held(pool, ls, r) && Reach(LogGraph(pool, ls), r, u)
  }

  lemma WantedVia(pool: seq<Slot>, ls: seq<seq<Msg>>, r: nat, u: nat)
    requires Held(pool, ls, r) && Reach(LogGraph(pool, ls), r, u)
    ensures Wanted(pool, ls, u)
  {
  }

  lemma WantedIsLive(pool: seq<Slot>, ls: seq<seq<Msg>>, u: nat)
    requires Wanted(pool, ls, u)
    ensures LiveAt(pool, u)
  {
    var r: nat :| Held(pool, ls, r) && Reach(LogGraph(pool, ls), r, u);
    if r != u {
      var w := ReachLastEdge(LogGraph(pool, ls), r, u);
    }
  }

  /** The graph the logs describe depends only on the sums, and a slot nobody named adds nothing. */
  lemma SameWants(pool: seq<Slot>, ls: seq<seq<Msg>>, pool': seq<Slot>, ls': seq<seq<Msg>>)
    requires |pool'| == |pool|
    requires forall i :: 0 <= i < |pool| && pool[i].live ==> pool'[i] == pool[i]
    requires forall i: nat :: LiveAt(pool', i) && !LiveAt(pool, i) ==> !Mentioned(ls', Current(pool', i))
    requires forall h :: SumRoot(ls', h) == SumRoot(ls, h)
    requires forall a, b :: SumEdge(ls', a, b) == SumEdge(ls, a, b)
    ensures forall u: nat :: Wanted(pool', ls', u) <==> Wanted(pool, ls, u)
  {
    forall i: nat | LiveAt(pool', i) && !LiveAt(pool, i)
      ensures SumRoot(ls', Current(pool', i)) == 0
      ensures forall x :: SumEdge(ls', Current(pool', i), x) == 0 && SumEdge(ls', x, Current(pool', i)) == 0
    {
      UnmentionedSum(ls', Current(pool', i));
    }
    forall x ensures x in LogGraph(pool', ls') <==> x in LogGraph(pool, ls) {
      assert Drawn(pool', ls', x.0, x.1) <==> Drawn(pool, ls, x.0, x.1);
    }
    assert LogGraph(pool', ls') == LogGraph(pool, ls);
    forall r: nat ensures Held(pool', ls', r) <==> Held(pool, ls, r) {}
    forall u: nat ensures Wanted(pool', ls', u) <==> Wanted(pool, ls, u) {
      if Wanted(pool', ls', u) {
        var r: nat :| Held(pool', ls', r) && Reach(LogGraph(pool', ls'), r, u);
        WantedVia(pool, ls, r, u);
      }
      if Wanted(pool, ls, u) {
        var r: nat :| Held(pool, ls, r) && Reach(LogGraph(pool, ls), r, u);
        WantedVia(pool', ls', r, u);
      }
    }
  }

  /** A set that holds every root and is closed under the described edges holds everything wanted. */
  lemma WantedWithin(pool: seq<Slot>, ls: seq<seq<Msg>>, s: set<nat>, u: nat)
    requires Wanted(pool, ls, u) && Closed(LogGraph(pool, ls), s)
    requires forall r: nat :: Held(pool, ls, r) ==> r in s
    ensures u in s
  {
    var r: nat :| Held(pool, ls, r) && Reach(LogGraph(pool, ls), r, u);
    ReachStaysIn(LogGraph(pool, ls), s, r, u);
  }

  ghost function WantedSet(pool: seq<Slot>, ls: seq<seq<Msg>>): set<nat> {
    set u: nat | u < |pool| && Wanted(pool, ls, u)
  }

  lemma WantedClosed(pool: seq<Slot>, ls: seq<seq<Msg>>)
    ensures Closed(LogGraph(pool, ls), WantedSet(pool, ls))
    ensures forall r: nat :: Held(pool, ls, r) ==> r in WantedSet(pool, ls)
  {
    var g := LogGraph(pool, ls);
    forall x | x in g && x.0 in WantedSet(pool, ls) ensures x.1 in WantedSet(pool, ls) {
      var r: nat :| Held(pool, ls, r) && Reach(g, r, x.0);
      ReachEdge(g, x.0, x.1);
      ReachTrans(g, r, x.0, x.1);
      WantedVia(pool, ls, r, x.1);
    }
    forall r: nat | Held(pool, ls, r) ensures r in WantedSet(pool, ls) {
      ReachRefl(g, r);
      WantedVia(pool, ls, r, r);
    }
  }

  /** A mutator may only name cells that are wanted, or one nobody has named yet. */
  ghost predicate Allowed(pool: seq<Slot>, ls: seq<seq<Msg>>, m: Msg) {
    forall h :: Mentions(m, h) ==>
      Valid(pool, h) && (Wanted(pool, ls, h.index) || (m.RootAdd? && !Mentioned(ls, h)))
  }

  /** Nothing becomes wanted except a cell named for the first time. */
  lemma NothingResurrected(pool: seq<Slot>, ls: seq<seq<Msg>>, p: nat, m: Msg, u: nat)
    requires p < |ls| && OwnLogs(ls) && Allowed(pool, ls, m)
    requires Wanted(pool, ls[p := ls[p] + [m]], u)
    ensures Wanted(pool, ls, u) || (LiveAt(pool, u) && !Mentioned(ls, Current(pool, u)) && Mentions(m, Current(pool, u)))
  {
    var ls' := ls[p := ls[p] + [m]];
    WantedIsLive(pool, ls', u);
    WantedClosed(pool, ls);
    var named := set i: nat | i < |pool| && LiveAt(pool, i) && !Mentioned(ls, Current(pool, i)) && Mentions(m, Current(pool, i));
    var s := WantedSet(pool, ls) + named;
    forall r: nat | Held(pool, ls', r) ensures r in s {
      SumRootAppend(ls, p, m, Current(pool, r));
      if !Held(pool, ls, r) {
        assert Mentions(m, Current(pool, r));
      }
    }
    forall x | x in LogGraph(pool, ls') && x.0 in s ensures x.1 in s {
      ClosedStep(pool, ls, p, m, x.0, x.1);
      if x.0 in WantedSet(pool, ls) && x in LogGraph(pool, ls) {
      } else if x.0 in named {
        UnmentionedSum(ls, Current(pool, x.0));
      }
    }
    WantedWithin(pool, ls', s, u);
  }

  /** A new edge in the described graph is the one just added, and its ends were named. */
  lemma ClosedStep(pool: seq<Slot>, ls: seq<seq<Msg>>, p: nat, m: Msg, i: nat, j: nat)
    requires p < |ls| && Allowed(pool, ls, m)
    requires (i, j) in LogGraph(pool, ls[p := ls[p] + [m]])
    ensures LiveAt(pool, i) && LiveAt(pool, j)
    ensures (i, j) in LogGraph(pool, ls) ||
            (m == EdgeAdd(Current(pool, i), Current(pool, j)) && Wanted(pool, ls, i) && Wanted(pool, ls, j))
  {
    SumEdgeAppend(ls, p, m, Current(pool, i), Current(pool, j));
    if (i, j) !in LogGraph(pool, ls) {
      assert Mentions(m, Current(pool, i)) && Mentions(m, Current(pool, j));
    }
  }
}
