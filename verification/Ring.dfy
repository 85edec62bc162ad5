/** The single-producer ring, with the producer's open span written in place ahead of the tail. */
module Rings {

  const CAPACITY: nat := 4096

  /** Message `i` of the log is in the slot of its position. */
  ghost predicate InSlot<T>(slots: seq<T>, log: seq<T>, i: nat) {
    |slots| == CAPACITY && i < |log| && slots[i % CAPACITY] == log[i]
  }

  class Ring<T(0)> {
    var slots: seq<T>
    var head: nat
    var tail: nat
    // the producer's open span: next slot to write, slots left, messages written but not published
    var spanAt: nat
    var spanLeft: nat
    var spanN: nat
    ghost var published: seq<T>
    ghost var staged: seq<T>
    // the position for which the open span's first unpublished message was reserved
    ghost var from: nat

    /** Everything written so far, in order. */
    ghost function Written(): seq<T>
      reads this
    {
      published + staged
    }

    /** The producer holds slots ahead of the tail. */
    predicate Open()
      reads this
    {
      spanLeft > 0 || spanN > 0
    }

    /** Unread and staged messages are in their slots, no two share one, and an open span continues
        the tail without wrapping. */
    ghost predicate Valid()
      reads this
    {
      && |slots| == CAPACITY && head <= tail == |published| && |staged| == spanN
      && tail + spanN + spanLeft <= head + CAPACITY
      && (spanLeft > 0 || spanN > 0 ==> tail % CAPACITY + spanN + spanLeft <= CAPACITY)
      && (spanLeft > 0 ==> spanAt == tail % CAPACITY + spanN)
      && (Open() ==> from == tail)
      && forall i: nat :: head <= i < tail + spanN ==> InSlot(slots, published + staged, i)
    }

    constructor (blank: T)
      ensures Valid() && published == [] && staged == [] && head == 0
    {
      slots := seq(CAPACITY, _ => blank);
      head, tail, spanAt, spanLeft, spanN := 0, 0, 0, 0, 0;
      published, staged, from := [], [], 0;
    }

    /** Reserve a run of slots that neither wraps nor reaches unread messages. */
    method BeginSpan(max: nat) returns (n: nat)
      requires Valid() && spanLeft == 0 && spanN == 0
      ensures n <= max && tail + n <= head + CAPACITY && tail % CAPACITY + n <= CAPACITY
      ensures n == 0 <==> max == 0 || tail == head + CAPACITY
    {
      var room := CAPACITY - (tail - head);
      var contig := CAPACITY - tail % CAPACITY;
      if contig < room { room := contig; }
      n := if room < max then room else max;
    }

    /** Publish what has been written into the span; the rest of the span stays open. */
    method CommitStaged()
      modifies this
      ensures old(Valid()) ==> Valid()
      ensures staged == [] && published == old(Written()) && tail == old(tail) + old(spanN) && spanN == 0
      ensures head == old(head) && spanLeft == old(spanLeft) && spanAt == old(spanAt) && slots == old(slots)
    {
      published, staged := published + staged, [];
      if spanN > 0 {
        tail, from := tail + spanN, tail + spanN;
        spanN := 0;
      }
      assert published + staged == old(published + staged);
    }

    /** Write a message into the span, opening a new one when it is used up; false, and the producer
        has to wait, if and only if the ring is full of unread and unpublished messages. */
    method WriteToSpan(m: T, max: nat) returns (ok: bool)
      requires Valid() && max > 0
      modifies this
      ensures Valid() && head == old(head)
      ensures ok <==> |old(Written())| < head + CAPACITY
      ensures Written() == if ok then old(Written()) + [m] else old(Written())
      ensures published == old(published) || published == old(Written())
    {
      if spanLeft == 0 {
        CommitStaged();
        var n := BeginSpan(max);
        if n == 0 { return false; }
        spanAt, spanLeft, from := tail % CAPACITY, n, tail;
      }
      PutStaged(m);
      ok := true;
    }

    method PutStaged(m: T)
      requires |slots| == CAPACITY && spanLeft > 0 && spanAt < CAPACITY
      modifies this
      ensures old(Valid()) ==> Valid()
      ensures slots == old(slots)[old(spanAt) := m] && spanN == old(spanN) + 1
      ensures head == old(head) && tail == old(tail) && published == old(published) && staged == old(staged) + [m]
    {
      ghost var at, log := tail + spanN, published + staged;
      slots := slots[spanAt := m];
      spanAt, spanLeft, spanN := spanAt + 1, spanLeft - 1, spanN + 1;
      staged := staged + [m];
      if old(Valid()) {
        assert old(spanAt) == at % CAPACITY;
        forall i: nat | head <= i < tail + spanN ensures InSlot(slots, published + staged, i) {
          assert i < at ==> InSlot(old(slots), log, i) && i % CAPACITY != at % CAPACITY;
        }
      }
    }

    /** One message at a time, without a span; false if and only if the ring is full.  What is pushed
        while a span is open takes the span's next position: the ring stays in order if and only if
        no span is open. */
    method TryPush(m: T) returns (ok: bool)
      requires Valid()
      modifies this
      ensures ok <==> old(tail) < head + CAPACITY
      ensures Valid() <==> !ok || !old(Open())
      ensures !ok ==> slots == old(slots) && tail == old(tail) && published == old(published)
      ensures ok ==> slots == old(slots)[old(tail) % CAPACITY := m] && tail == old(tail) + 1 && published == old(published) + [m]
      ensures head == old(head) && spanAt == old(spanAt) && spanLeft == old(spanLeft) && spanN == old(spanN)
      ensures staged == old(staged) && from == old(from)
    {
      ok := tail - head < CAPACITY;
      if ok {
        ghost var at, log := tail, published + staged;
        slots := slots[tail % CAPACITY := m];
        published := published + [m];
        tail := tail + 1;
        if !Open() {
          forall i: nat | head <= i < tail ensures InSlot(slots, published + staged, i) {
            assert i < at ==> InSlot(old(slots), log, i) && i % CAPACITY != at % CAPACITY;
          }
        }
      }
    }

    /** What becomes of such a push: the next write goes through the span, into the slot of the
        pushed message, which is lost; the position of the written one holds what was there before. */
    method PushIntoSpan(m: T, next: T)
      requires Valid() && spanLeft > 0 && spanN == 0
      modifies this
      ensures tail == old(tail) + 2 && published == old(published) + [m, next] && head == old(head)
      ensures slots == old(slots)[old(tail) % CAPACITY := next]
    {
      var ok := TryPush(m);
      PutStaged(next);
      CommitStaged();
    }

    /** The consumer reads published messages in the order they were written. */
    method TryPop() returns (ok: bool, m: T)
      requires Valid()
      modifies this`head
      ensures Valid()
      ensures ok == (old(head) < tail) && head == old(head) + (if ok then 1 else 0)
      ensures ok ==> old(head) < |published| && m == published[old(head)]
    {
      ok := head != tail;
      m := slots[head % CAPACITY];
      if ok {
        assert InSlot(slots, published + staged, head);
        head := head + 1;
      }
    }

    /** Drain up to a snapshot of the tail: exactly the messages published before it. */
    method DrainTo(snapshot: nat) returns (out: seq<T>)
      requires Valid() && head <= snapshot <= tail
      modifies this`head
      ensures Valid() && head == snapshot && old(head) <= snapshot <= |published| && out == published[old(head)..snapshot]
    {
      out := [];
      while head < snapshot
        invariant Valid() && old(head) <= head <= snapshot && out == published[old(head)..head]
        decreases snapshot - head
      {
        var ok, m := TryPop();
        out := out + [m];
      }
    }
  }

  // ---- whole runs -----------------------------------------------------------------------------

  /** What producer and consumer may do next; a write may open a span of `more + 1` slots. */
  datatype Op<T> = Write(m: T, more: nat) | Commit | Push(m: T) | Pop | Drain

  /** An operation with its answer, the messages it read, and how many messages had been published
      before it. */
  datatype Event<T> = Event(op: Op<T>, ok: bool, out: seq<T>, ready: nat)

  /** The messages the first `n` events accepted, in order. */
  ghost function Accepted<T>(log: seq<Event<T>>, n: nat): seq<T>
    requires n <= |log|
  {
    if n == 0 then []
    else Accepted(log, n - 1) + if log[n - 1].ok && Offers(log[n - 1].op) then [log[n - 1].op.m] else []
  }

  /** The messages they read, in order. */
  ghost function Read<T>(log: seq<Event<T>>, n: nat): seq<T>
    requires n <= |log|
  {
    if n == 0 then [] else Read(log, n - 1) + log[n - 1].out
  }

  predicate Offers<T>(op: Op<T>) {
    op.Write? || op.Push?
  }

  /** Event `e`, after `written` had been accepted and `read` messages had been read: an offered
      message is accepted if and only if the ring was not full, and what is read are the oldest unread
      messages that had been published. */
  ghost predicate Fits<T>(e: Event<T>, written: seq<T>, read: nat) {
    && read <= e.ready <= |written| <= read + CAPACITY
    && (e.ok <==> Offers(e.op) && |written| < read + CAPACITY)
    && (e.op.Push? ==> e.ready == |written|)
    && e.out == match e.op
                case Pop => if read < e.ready then [written[read]] else []
                case Drain => written[read..e.ready]
                case _ => []
  }

  /** How many messages are published after event `e`. */
  ghost predicate Publishes<T>(e: Event<T>, written: nat, ready: nat) {
    match e.op
    case Write(_, _) => ready == e.ready || ready == written
    case Push(_) => ready == written + if e.ok then 1 else 0
    case Commit => ready == written
    case _ => ready == e.ready
  }

  /** The log of a queue: every event fits the events before it, and so does the number published. */
  ghost predicate QueueLog<T>(log: seq<Event<T>>, ready: nat) {
    forall k: nat :: k < |log| ==> InTurn(log, k, ready)
  }

  ghost predicate InTurn<T>(log: seq<Event<T>>, k: nat, ready: nat)
    requires k < |log|
  {
    && Fits(log[k], Accepted(log, k), |Read(log, k)|)
    && Publishes(log[k], |Accepted(log, k)|, if k + 1 < |log| then log[k + 1].ready else ready)
  }

  lemma {:induction false} LogGrows<T>(log: seq<Event<T>>, e: Event<T>, n: nat)
    requires n <= |log|
    ensures Accepted(log + [e], n) == Accepted(log, n) && Read(log + [e], n) == Read(log, n)
    decreases n
  {
    if n > 0 { LogGrows(log, e, n - 1); }
  }

  lemma QueueLogGrows<T>(log: seq<Event<T>>, e: Event<T>, ready: nat)
    requires QueueLog(log, e.ready) && Fits(e, Accepted(log, |log|), |Read(log, |log|)|) && Publishes(e, |Accepted(log, |log|)|, ready)
    ensures QueueLog(log + [e], ready)
  {
    forall k: nat | k <= |log| ensures InTurn(log + [e], k, ready) {
      LogGrows(log, e, k);
      assert k < |log| ==> InTurn(log, k, e.ready);
    }
  }

  lemma TakenInOrder<T>(e: Event<T>, written: seq<T>, read: seq<T>)
    requires read <= written && Fits(e, written, |read|)
    ensures read + e.out <= written
  {
  }

  /** In such a log what has been read is a prefix of what was accepted. */
  lemma {:induction false} ReadIsPrefix<T>(log: seq<Event<T>>, ready: nat, n: nat)
    requires QueueLog(log, ready) && n <= |log|
    ensures Read(log, n) <= Accepted(log, n)
    decreases n
  {
    if n > 0 {
      ReadIsPrefix(log, ready, n - 1);
      assert InTurn(log, n - 1, ready);
      TakenInOrder(log[n - 1], Accepted(log, n - 1), Read(log, n - 1));
    }
  }

  /** Any mix of writes into spans of any length, commits, single pushes, pops and drains, in any
      order, up to the first push that finds a span open: the log is that of a queue, refusals and
      answers included, and the ring holds what was accepted and not yet read. */
  method Exercise<T(0)>(r: Ring<T>, ops: seq<Op<T>>) returns (log: seq<Event<T>>)
    requires r.Valid() && r.published == [] && r.staged == []
    modifies r
    ensures r.Valid() && |log| <= |ops| && forall k :: 0 <= k < |log| ==> log[k].op == ops[k]
    ensures |log| < |ops| ==> ops[|log|].Push? && r.Open()
    ensures QueueLog(log, |r.published|)
    ensures r.Written() == Accepted(log, |log|) && r.head == |Read(log, |log|)| && Read(log, |log|) <= r.published
  {
    log := [];
    for k := 0 to |ops|
      invariant r.Valid() && |log| == k && forall j :: 0 <= j < k ==> log[j].op == ops[j]
      invariant QueueLog(log, |r.published|)
      invariant r.Written() == Accepted(log, k) && r.head == |Read(log, k)|
    {
      if ops[k].Push? && r.Open() { break; }
      log := Record(r, ops[k], log);
    }
    ReadIsPrefix(log, |r.published|, |log|);
    assert Read(log, |log|) == Accepted(log, |log|)[..r.head] == r.published[..r.head];
  }

  method Record<T(0)>(r: Ring<T>, op: Op<T>, log: seq<Event<T>>) returns (log': seq<Event<T>>)
    requires r.Valid() && (op.Push? ==> !r.Open())
    requires QueueLog(log, |r.published|) && r.Written() == Accepted(log, |log|) && r.head == |Read(log, |log|)|
    modifies r
    ensures r.Valid() && |log'| == |log| + 1 && log' == log + [log'[|log|]] && log'[|log|].op == op
    ensures QueueLog(log', |r.published|) && r.Written() == Accepted(log', |log'|) && r.head == |Read(log', |log'|)|
  {
    var e := One(r, op);
    QueueLogGrows(log, e, |r.published|);
    LogGrows(log, e, |log|);
    log' := log + [e];
  }

  method One<T(0)>(r: Ring<T>, op: Op<T>) returns (e: Event<T>)
    requires r.Valid() && (op.Push? ==> !r.Open())
    modifies r
    ensures r.Valid() && e.op == op && e.ready == |old(r.published)|
    ensures Fits(e, old(r.Written()), old(r.head)) && Publishes(e, |old(r.Written())|, |r.published|)
    ensures r.Written() == old(r.Written()) + if e.ok then [op.m] else []
    ensures r.head == old(r.head) + |e.out|
  {
    ghost var written := r.Written();
    var ok, out, ready := false, [], r.tail;
    match op {
      case Write(m, more) => ok := r.WriteToSpan(m, more + 1);
      case Commit => r.CommitStaged();
      case Push(m) =>
        ok := r.TryPush(m);
      case Pop =>
        var some, m := r.TryPop();
        if some { out := [m]; }
      case Drain => out := r.DrainTo(r.tail);
    }
    e := Event(op, ok, out, ready);
  }
}
