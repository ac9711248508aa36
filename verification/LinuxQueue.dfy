/** The reordering queue of linux/core/inc/SegmentQueue.h. */
module LinuxQueue {
  import opened Segments

  // --- Specification functions ---

  function InsertSorted(pending: seq<Segment>, s: Segment): seq<Segment> {
    if pending == [] || pending[0].no > s.no then [s] + pending
    else [pending[0]] + InsertSorted(pending[1..], s)
  }

  function Drain(q: Queue): Queue
    decreases |q.pending|
  {
    if q.pending != [] && q.pending[0].no == q.expected
    then Drain(Queue(q.main + [q.pending[0]], q.pending[1..], q.expected + 1))
    else q
  }

  function Enqueued(q: Queue, s: Segment): Queue {
    if s.no == q.expected
    then Drain(q.(main := q.main + [s], expected := q.expected + 1))
    else Drain(q.(pending := InsertSorted(q.pending, s)))
  }

  /** What the asserts of the original demand of a new segment. */
  ghost predicate Acceptable(q: Queue, s: Segment) {
    s.no >= q.expected && !HasNo(q.pending, s.no)
  }

  // --- Meaning: the queue as a view of the set of arrivals ---

  ghost predicate Keyed(arrived: map<nat, Segment>) {
    forall n :: n in arrived ==> arrived[n].no == n
  }

  /** `l` holds the arrivals 0, 1, .. in order. */
  ghost predicate InOrder(l: seq<Segment>, arrived: map<nat, Segment>) {
    forall i :: 0 <= i < |l| ==> i in arrived && arrived[i] == l[i]
  }

  /** `pending` holds the arrivals numbered `lo` or more, ascending. */
  ghost predicate Waiting(pending: seq<Segment>, lo: nat, arrived: map<nat, Segment>) {
    && Ascending(pending)
    && (forall s :: s in pending ==> s.no >= lo && s.no in arrived && arrived[s.no] == s)
    && (forall n :: n in arrived && n >= lo ==> arrived[n] in pending)
  }

  /** `released` left the queue, in order. Everything about the queue is fixed by what arrived. */
  ghost predicate Views(q: Queue, released: seq<Segment>, arrived: map<nat, Segment>) {
    && Keyed(arrived)
    && |released| + |q.main| == q.expected
    && InOrder(released + q.main, arrived)
    && Waiting(q.pending, q.expected, arrived)
    && q.expected !in arrived
  }

  lemma {:induction false} InsertSortedMembers(pending: seq<Segment>, s: Segment)
    ensures multiset(InsertSorted(pending, s)) == multiset(pending) + multiset{s}
    ensures forall x :: x in InsertSorted(pending, s) <==> x in pending || x == s
  {
    if pending == [] || pending[0].no > s.no {
    } else {
      InsertSortedMembers(pending[1..], s);
      assert pending == [pending[0]] + pending[1..];
    }
  }

  lemma {:induction false} InsertSortedAscending(pending: seq<Segment>, s: Segment)
    requires Ascending(pending) && !HasNo(pending, s.no)
    ensures Ascending(InsertSorted(pending, s))
  {
    if pending == [] || pending[0].no > s.no {
    } else {
      var rest := pending[1..];
      assert forall i :: 0 <= i < |rest| ==> rest[i] == pending[i + 1];
      InsertSortedAscending(rest, s);
      InsertSortedMembers(rest, s);
      assert pending[0].no < s.no;
      forall x | x in InsertSorted(rest, s) ensures pending[0].no < x.no {
        if x in rest {
          var i :| 0 <= i < |rest| && rest[i] == x;
          assert pending[i + 1] == x;
        }
      }
    }
  }

  lemma WaitingInsert(pending: seq<Segment>, lo: nat, arrived: map<nat, Segment>, s: Segment)
    requires Waiting(pending, lo, arrived) && s.no !in arrived && s.no >= lo
    ensures Waiting(InsertSorted(pending, s), lo, arrived[s.no := s])
    ensures !HasNo(pending, s.no)
  {
    assert forall i :: 0 <= i < |pending| ==> pending[i] in pending;
    InsertSortedMembers(pending, s);
    InsertSortedAscending(pending, s);
  }

  /** The head of pending is the number `lo`, or `lo` did not arrive. */
  lemma WaitingHead(pending: seq<Segment>, lo: nat, arrived: map<nat, Segment>)
    requires Keyed(arrived) && Waiting(pending, lo, arrived)
    ensures lo in arrived ==> pending != [] && pending[0] == arrived[lo]
    ensures pending != [] && pending[0].no == lo ==> lo in arrived && Waiting(pending[1..], lo + 1, arrived)
  {
    if lo in arrived {
      var i :| 0 <= i < |pending| && pending[i] == arrived[lo];
      assert pending[0] in pending;
    }
    if pending != [] && pending[0].no == lo {
      assert pending == [pending[0]] + pending[1..];
      forall s | s in pending[1..] ensures s.no >= lo + 1 {
        var i :| 0 <= i < |pending[1..]| && pending[1..][i] == s;
        assert pending[0].no < pending[i + 1].no;
      }
    }
  }

  lemma {:induction false} DrainViews(q: Queue, released: seq<Segment>, arrived: map<nat, Segment>)
    requires Keyed(arrived)
    requires |released| + |q.main| == q.expected
    requires InOrder(released + q.main, arrived)
    requires Waiting(q.pending, q.expected, arrived)
    ensures Views(Drain(q), released, arrived)
    ensures Drain(q).expected >= q.expected
    decreases |q.pending|
  {
    WaitingHead(q.pending, q.expected, arrived);
    if q.pending != [] && q.pending[0].no == q.expected {
      assert q.pending[0] in q.pending;
      assert released + (q.main + [q.pending[0]]) == (released + q.main) + [q.pending[0]];
      DrainViews(Queue(q.main + [q.pending[0]], q.pending[1..], q.expected + 1), released, arrived);
    }
  }

  lemma NewIsAcceptable(q: Queue, s: Segment, released: seq<Segment>, arrived: map<nat, Segment>)
    requires Views(q, released, arrived) && s.no !in arrived
    ensures Acceptable(q, s)
  {
    assert s.no < |released + q.main| ==> s.no in arrived;
    assert forall i :: 0 <= i < |q.pending| ==> q.pending[i] in q.pending;
  }

  /** Enqueueing a segment with a new number keeps the queue a view of everything that arrived. */
  lemma EnqueueViews(q: Queue, s: Segment, released: seq<Segment>, arrived: map<nat, Segment>)
    requires Views(q, released, arrived) && s.no !in arrived
    ensures Views(Enqueued(q, s), released, arrived[s.no := s])
    ensures Enqueued(q, s).expected >= q.expected
    ensures Enqueued(q, s).expected > q.expected <==> s.no == q.expected
  {
    var arrived' := arrived[s.no := s];
    assert InOrder(released + q.main, arrived');
    NewIsAcceptable(q, s, released, arrived);
    WaitingInsert(q.pending, q.expected, arrived, s);
    if s.no == q.expected {
      assert released + (q.main + [s]) == (released + q.main) + [s];
      assert Waiting(q.pending, q.expected + 1, arrived');
      DrainViews(q.(main := q.main + [s], expected := q.expected + 1), released, arrived');
    } else {
      WaitingHead(InsertSorted(q.pending, s), q.expected, arrived');
      DrainViews(q.(pending := InsertSorted(q.pending, s)), released, arrived');
    }
  }

  /** A dequeue releases the lowest number not released yet, and what arrived still fixes the rest. */
  lemma DequeueViews(q: Queue, released: seq<Segment>, arrived: map<nat, Segment>)
    requires Views(q, released, arrived) && q.main != []
    ensures q.main[0].no == |released| && q.main[0] == arrived[|released|]
    ensures Views(q.(main := q.main[1..]), released + [q.main[0]], arrived)
  {
    assert (released + q.main)[|released|] == q.main[0];
    assert released + [q.main[0]] + q.main[1..] == released + q.main;
  }

  /** The wanted number is the least one that has not arrived. */
  lemma ExpectedIsLeastMissing(q: Queue, released: seq<Segment>, arrived: map<nat, Segment>, n: nat)
    requires Views(q, released, arrived)
    ensures q.expected !in arrived
    ensures n !in arrived ==> q.expected <= n
    ensures |q.main| == q.expected - |released|
  {
  }

  lemma {:induction false} AscendingUnique(a: seq<Segment>, b: seq<Segment>)
    requires Ascending(a) && Ascending(b)
    requires forall x :: x in a <==> x in b
    ensures a == b
  {
    if a == [] {
      assert forall i :: 0 <= i < |b| ==> b[i] in b;
    } else {
      assert a[0] in b;
      assert b[0] in a;
      var j :| 0 <= j < |b| && b[j] == a[0];
      var i :| 0 <= i < |a| && a[i] == b[0];
      assert i == 0 && j == 0;
      assert a == [a[0]] + a[1..] && b == [b[0]] + b[1..];
      assert a[0] !in a[1..] && b[0] !in b[1..];
      assert forall x :: x in a[1..] <==> x in a && x != a[0];
      assert forall x :: x in b[1..] <==> x in b && x != b[0];
      AscendingUnique(a[1..], b[1..]);
    }
  }

  /** What arrived fixes the whole queue: the order of arrival leaves no trace. */
  lemma OrderOfArrivalLeavesNoTrace(p: Queue, q: Queue, released: seq<Segment>, arrived: map<nat, Segment>)
    requires Views(p, released, arrived) && Views(q, released, arrived)
    ensures p == q
  {
    assert p.expected == q.expected;
    forall i | 0 <= i < |p.main| ensures p.main[i] == q.main[i] {
      assert (released + p.main)[|released| + i] == p.main[i];
      assert (released + q.main)[|released| + i] == q.main[i];
    }
    forall x ensures x in p.pending <==> x in q.pending {
      if x in p.pending { assert arrived[x.no] in q.pending; }
      if x in q.pending { assert arrived[x.no] in p.pending; }
    }
    AscendingUnique(p.pending, q.pending);
  }

  function EnqueueAll(q: Queue, arrivals: seq<Segment>): Queue
    decreases |arrivals|
  {
    if arrivals == [] then q else EnqueueAll(Enqueued(q, arrivals[0]), arrivals[1..])
  }

  function Arrived(arrived: map<nat, Segment>, arrivals: seq<Segment>): map<nat, Segment>
    decreases |arrivals|
  {
    if arrivals == [] then arrived else Arrived(arrived[arrivals[0].no := arrivals[0]], arrivals[1..])
  }

  ghost predicate DistinctNos(l: seq<Segment>) {
    forall i, j :: 0 <= i < j < |l| ==> l[i].no != l[j].no
  }

  lemma {:induction false} EnqueueAllViews(q: Queue, arrivals: seq<Segment>, released: seq<Segment>,
                                           arrived: map<nat, Segment>)
    requires Views(q, released, arrived) && DistinctNos(arrivals)
    requires forall i :: 0 <= i < |arrivals| ==> arrivals[i].no !in arrived
    ensures Views(EnqueueAll(q, arrivals), released, Arrived(arrived, arrivals))
    decreases |arrivals|
  {
    if arrivals != [] {
      var s, rest := arrivals[0], arrivals[1..];
      EnqueueViews(q, s, released, arrived);
      assert forall i :: 0 <= i < |rest| ==> rest[i] == arrivals[i + 1];
      EnqueueAllViews(Enqueued(q, s), rest, released, arrived[s.no := s]);
    }
  }

  lemma {:induction false} ArrivedIs(arrived: map<nat, Segment>, arrivals: seq<Segment>)
    requires Keyed(arrived) && DistinctNos(arrivals)
    ensures Keyed(Arrived(arrived, arrivals))
    ensures forall n :: n in arrived && !HasNo(arrivals, n) ==>
              n in Arrived(arrived, arrivals) && Arrived(arrived, arrivals)[n] == arrived[n]
    ensures forall i :: 0 <= i < |arrivals| ==>
              arrivals[i].no in Arrived(arrived, arrivals) && Arrived(arrived, arrivals)[arrivals[i].no] == arrivals[i]
    ensures forall n :: n in Arrived(arrived, arrivals) ==> n in arrived || HasNo(arrivals, n)
    decreases |arrivals|
  {
    if arrivals != [] {
      var s, rest := arrivals[0], arrivals[1..];
      assert forall i :: 0 <= i < |rest| ==> rest[i] == arrivals[i + 1];
      ArrivedIs(arrived[s.no := s], rest);
      assert !HasNo(rest, s.no);
    }
  }

  /** Any permutation of the numbers 0..n-1 drains completely and comes out in order. */
  lemma PermutationDrains(stream: seq<Segment>, arrivals: seq<Segment>)
    requires Numbered(stream) && DistinctNos(arrivals)
    requires forall s :: s in arrivals <==> s in stream
    ensures EnqueueAll(EMPTY_QUEUE, arrivals) == Queue(stream, [], |stream|)
  {
    assert Views(EMPTY_QUEUE, [], map[]);
    hide EnqueueAll, Views, Arrived;
    EnqueueAllViews(EMPTY_QUEUE, arrivals, [], map[]);
    ArrivedIsStream(stream, arrivals);
    var arrived := Arrived(map[], arrivals);
    StreamViews(stream, arrived);
    OrderOfArrivalLeavesNoTrace(EnqueueAll(EMPTY_QUEUE, arrivals), Queue(stream, [], |stream|), [], arrived);
  }

  lemma ArrivedIsStream(stream: seq<Segment>, arrivals: seq<Segment>)
    requires Numbered(stream) && DistinctNos(arrivals)
    requires forall s :: s in arrivals <==> s in stream
    ensures var arrived := Arrived(map[], arrivals);
      && Keyed(arrived)
      && (forall i :: 0 <= i < |stream| ==> i in arrived && arrived[i] == stream[i])
      && (forall n :: n in arrived ==> n < |stream|)
  {
    ArrivedIs(map[], arrivals);
    var arrived := Arrived(map[], arrivals);
    forall i | 0 <= i < |stream| ensures i in arrived && arrived[i] == stream[i] {
      assert stream[i] in arrivals;
    }
    forall n | n in arrived ensures n < |stream| {
      var i :| 0 <= i < |arrivals| && arrivals[i].no == n;
      assert arrivals[i] in stream;
    }
  }

  /** If exactly the stream arrived, the queue that holds all of it is the view. */
  lemma StreamViews(stream: seq<Segment>, arrived: map<nat, Segment>)
    requires Numbered(stream) && Keyed(arrived)
    requires forall i :: 0 <= i < |stream| ==> i in arrived && arrived[i] == stream[i]
    requires forall n :: n in arrived ==> n < |stream|
    ensures Views(Queue(stream, [], |stream|), [], arrived)
  {
    assert [] + stream == stream;
  }

  // --- The queue object ---

  lemma StepOver(pending: seq<Segment>, curr: nat, s: Segment)
    requires curr < |pending| && pending[curr].no <= s.no
    ensures pending[..curr] + InsertSorted(pending[curr..], s)
         == pending[..curr + 1] + InsertSorted(pending[curr + 1..], s)
  {
    assert pending[curr..][1..] == pending[curr + 1..];
  }

  lemma StopAt(pending: seq<Segment>, curr: nat, s: Segment)
    requires curr <= |pending| && (curr < |pending| ==> pending[curr].no > s.no)
    ensures pending[..curr] + InsertSorted(pending[curr..], s) == pending[..curr] + [s] + pending[curr..]
  {
  }

  /** The iterator walk of `enqueue`: stops at the first larger number. */
  method FindPosition(pending: seq<Segment>, seg: Segment) returns (curr: nat)
    requires !HasNo(pending, seg.no)
    ensures curr <= |pending|
    ensures InsertSorted(pending, seg) == pending[..curr] + [seg] + pending[curr..]
  {
    curr := 0;
    while curr < |pending|
      invariant 0 <= curr <= |pending|
      invariant InsertSorted(pending, seg) == pending[..curr] + InsertSorted(pending[curr..], seg)
    {
      var walker := pending[curr];
      assert walker.no != seg.no;
      if walker.no > seg.no { break; }
      StepOver(pending, curr, seg);
      curr := curr + 1;
    }
    StopAt(pending, curr, seg);
  }

  class SegmentQueue {
    var mMainQueue: seq<Segment>
    var mPendingQueue: seq<Segment>
    var mExpectedSeqNo: nat

    ghost function Contents(): Queue
      reads this
    {
      Queue(mMainQueue, mPendingQueue, mExpectedSeqNo)
    }

    constructor ()
      ensures Contents() == EMPTY_QUEUE
    {
      mMainQueue, mPendingQueue, mExpectedSeqNo := [], [], 0;
    }

    /** Returns whether the run of consecutive segments grew. */
    method Enqueue(seg: Segment) returns (continuous: bool)
      requires Acceptable(Contents(), seg)
      modifies this
      ensures Contents() == Enqueued(old(Contents()), seg)
      ensures continuous <==> mExpectedSeqNo > old(mExpectedSeqNo)
    {
      continuous := false;
      if seg.no == mExpectedSeqNo {
        mExpectedSeqNo := mExpectedSeqNo + 1;
        mMainQueue := mMainQueue + [seg];
        continuous := true;
      } else {
        assert seg.no > mExpectedSeqNo;
        var curr := FindPosition(mPendingQueue, seg);
        mPendingQueue := mPendingQueue[..curr] + [seg] + mPendingQueue[curr..];
      }
      while |mPendingQueue| > 0 && mPendingQueue[0].no == mExpectedSeqNo
        invariant Drain(Contents()) == Enqueued(old(Contents()), seg)
        invariant mExpectedSeqNo >= old(mExpectedSeqNo)
        invariant continuous <==> mExpectedSeqNo > old(mExpectedSeqNo)
        decreases |mPendingQueue|
      {
        mExpectedSeqNo := mExpectedSeqNo + 1;
        mMainQueue := mMainQueue + [mPendingQueue[0]];
        continuous := true;
        mPendingQueue := mPendingQueue[1..];
      }
    }

    /** An empty list has no front: nothing is released. */
    method Dequeue() returns (segment: Option<Segment>)
      modifies this
      ensures segment.None? <==> old(mMainQueue) == []
      ensures segment.None? ==> Contents() == old(Contents())
      ensures segment.Some? ==>
                && segment.value == old(mMainQueue)[0]
                && Contents() == old(Contents()).(main := old(mMainQueue)[1..])
    {
      if |mMainQueue| == 0 { return None; }
      segment := Some(mMainQueue[0]);
      mMainQueue := mMainQueue[1..];
    }
  }
}
