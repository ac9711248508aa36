/** The receive queue of the Android SegmentManager: duplicates are tolerated, pending is not sorted. */
module AndroidQueue {
  import opened Segments

  // --- Specification functions ---

  /** `ListIterator.add` after `next()`: a new segment lands behind the first larger one. */
  function InsertBehindLarger(pending: seq<Segment>, s: Segment): seq<Segment> {
    if pending == [] then [s]
    else if pending[0].no > s.no then [pending[0], s] + pending[1..]
    else [pending[0]] + InsertBehindLarger(pending[1..], s)
  }

  /** Drops obsolete and takes consecutive segments until a future one is met. */
  function Purge(q: Queue): Queue
    decreases |q.pending|
  {
    if q.pending == [] || q.expected < q.pending[0].no then q
    else if q.expected > q.pending[0].no then Purge(q.(pending := q.pending[1..]))
    else Purge(Queue(q.main + [q.pending[0]], q.pending[1..], q.expected + 1))
  }

  function Received(q: Queue, s: Segment): Queue {
    if s.no == q.expected then Purge(q.(main := q.main + [s], expected := q.expected + 1))
    else if s.no < q.expected then q
    else Purge(q.(pending := InsertBehindLarger(q.pending, s)))
  }

  /** One retransmission request, both ends included. */
  datatype Range = Range(first: nat, last: nat)

  function GapRanges(next: nat, pending: seq<Segment>): seq<Range>
    decreases |pending|
  {
    if pending == [] then []
    else if pending[0].no > next then [Range(next, pending[0].no - 1)] + GapRanges(pending[0].no + 1, pending[1..])
    else if pending[0].no == next then GapRanges(next + 1, pending[1..])
    else GapRanges(next, pending[1..])
  }

  function Gaps(q: Queue): seq<Range> {
    GapRanges(q.expected, q.pending)
  }

  // --- Invariants ---

  /** The head of pending is always a future segment. */
  ghost predicate Settled(q: Queue) {
    q.pending != [] ==> q.pending[0].no > q.expected
  }

  /** What was taken and what waits in `main` is exactly a prefix of the stream. */
  ghost predicate Safe(q: Queue, taken: seq<Segment>, stream: seq<Segment>) {
    && |taken| + |q.main| == q.expected <= |stream|
    && taken + q.main == stream[..q.expected]
    && AllGenuine(q.pending, stream)
    && Settled(q)
  }

  lemma {:induction false} PurgeSafe(q: Queue, taken: seq<Segment>, stream: seq<Segment>)
    requires |taken| + |q.main| == q.expected <= |stream|
    requires taken + q.main == stream[..q.expected]
    requires AllGenuine(q.pending, stream)
    ensures Safe(Purge(q), taken, stream)
    ensures Purge(q).expected >= q.expected
    decreases |q.pending|
  {
    if q.pending == [] || q.expected < q.pending[0].no {
    } else {
      assert q.pending[0] in q.pending;
      assert forall s :: s in q.pending[1..] ==> s in q.pending;
      if q.expected > q.pending[0].no {
        PurgeSafe(q.(pending := q.pending[1..]), taken, stream);
      } else {
        assert taken + (q.main + [q.pending[0]]) == stream[..q.expected + 1];
        PurgeSafe(Queue(q.main + [q.pending[0]], q.pending[1..], q.expected + 1), taken, stream);
      }
    }
  }

  lemma {:induction false} InsertBehindLargerMembers(pending: seq<Segment>, s: Segment)
    ensures forall x :: x in InsertBehindLarger(pending, s) <==> x in pending || x == s
    ensures multiset(InsertBehindLarger(pending, s)) == multiset(pending) + multiset{s}
  {
    if pending != [] {
      assert pending == [pending[0]] + pending[1..];
      if pending[0].no <= s.no { InsertBehindLargerMembers(pending[1..], s); }
    }
  }

  /** A new segment lands directly behind the first larger one, or at the end where there is none. */
  lemma {:induction false} LandsBehindFirstLarger(a: seq<Segment>, larger: Segment, b: seq<Segment>, s: Segment)
    requires forall i :: 0 <= i < |a| ==> a[i].no <= s.no
    ensures InsertBehindLarger(a, s) == a + [s]
    ensures larger.no > s.no ==> InsertBehindLarger(a + [larger] + b, s) == a + [larger, s] + b
    decreases |a|
  {
    var p := a + [larger] + b;
    if a == [] {
      assert p[1..] == b;
    } else {
      LandsBehindFirstLarger(a[1..], larger, b, s);
      assert p[1..] == a[1..] + [larger] + b;
      assert a == [a[0]] + a[1..];
    }
  }

  /**
   * One arrival: a late one changes nothing; an early one joins the pending, repeated or not, and nothing else happens;
   * the wanted one is followed by what was pending behind it.
   */
  lemma ArrivalExactly(q: Queue, s: Segment)
    requires Settled(q)
    ensures s.no < q.expected ==> Received(q, s) == q
    ensures s.no > q.expected ==>
        && Received(q, s).main == q.main && Received(q, s).expected == q.expected
        && multiset(Received(q, s).pending) == multiset(q.pending) + multiset{s}
    ensures s.no == q.expected ==> q.main + [s] <= Received(q, s).main && Settled(Received(q, s))
  {
    if s.no > q.expected {
      InsertBehindLargerMembers(q.pending, s);
      var p := InsertBehindLarger(q.pending, s);
      assert p[0].no > q.expected;
    } else if s.no == q.expected {
      PurgeExtends(q.(main := q.main + [s], expected := q.expected + 1));
    }
  }

  lemma {:induction false} PurgeExtends(q: Queue)
    ensures q.main <= Purge(q).main && Settled(Purge(q))
    decreases |q.pending|
  {
    if q.pending != [] && q.pending[0].no <= q.expected {
      PurgeExtends(if q.expected > q.pending[0].no then q.(pending := q.pending[1..])
                   else Queue(q.main + [q.pending[0]], q.pending[1..], q.expected + 1));
    }
  }

  /** Any genuine segment, late, early or repeated, keeps the delivered part a prefix of the stream. */
  lemma ReceivedSafe(q: Queue, s: Segment, taken: seq<Segment>, stream: seq<Segment>)
    requires Safe(q, taken, stream) && Genuine(s, stream)
    ensures Safe(Received(q, s), taken, stream)
    ensures Received(q, s).expected >= q.expected
  {
    if s.no == q.expected {
      assert taken + (q.main + [s]) == stream[..q.expected + 1];
      PurgeSafe(q.(main := q.main + [s], expected := q.expected + 1), taken, stream);
    } else if s.no > q.expected {
      InsertBehindLargerMembers(q.pending, s);
      PurgeSafe(q.(pending := InsertBehindLarger(q.pending, s)), taken, stream);
    }
  }

  // --- Gap requests ---

  /** Where the scan of the pending list ends: one past every number seen. */
  function ScanEnd(next: nat, pending: seq<Segment>): nat
    decreases |pending|
  {
    if pending == [] then next
    else ScanEnd(if pending[0].no >= next then pending[0].no + 1 else next, pending[1..])
  }

  ghost predicate InRanges(ranges: seq<Range>, n: nat) {
    exists i :: 0 <= i < |ranges| && ranges[i].first <= n <= ranges[i].last
  }

  /** `n` stands in the list with only smaller numbers before it. */
  ghost predicate NewMaximum(pending: seq<Segment>, n: nat) {
    exists i :: 0 <= i < |pending| && pending[i].no == n && forall j :: 0 <= j < i ==> pending[j].no < n
  }

  /** Ranges are non-empty, start at `lo` or later, end below `hi` and leave a hole between each other. */
  ghost predicate Spaced(ranges: seq<Range>, lo: nat, hi: nat) {
    && (forall i :: 0 <= i < |ranges| ==> lo <= ranges[i].first <= ranges[i].last < hi)
    && (forall i, j :: 0 <= i < j < |ranges| ==> ranges[i].last + 1 < ranges[j].first)
  }

  lemma {:induction false} ScanEndIsMax(next: nat, pending: seq<Segment>)
    ensures ScanEnd(next, pending) >= next
    ensures forall i :: 0 <= i < |pending| ==> pending[i].no < ScanEnd(next, pending)
    ensures ScanEnd(next, pending) == next || HasNo(pending, ScanEnd(next, pending) - 1)
    decreases |pending|
  {
    if pending != [] {
      var next' := if pending[0].no >= next then pending[0].no + 1 else next;
      ScanEndIsMax(next', pending[1..]);
      assert forall i :: 0 <= i < |pending| - 1 ==> pending[1..][i] == pending[i + 1];
    }
  }

  lemma SpacedCons(r: Range, ranges: seq<Range>, hi: nat)
    requires r.first <= r.last && r.last + 1 < hi && Spaced(ranges, r.last + 2, hi)
    ensures Spaced([r] + ranges, r.first, hi)
  {
    var all := [r] + ranges;
    assert forall i :: 1 <= i < |all| ==> all[i] == ranges[i - 1];
  }

  /** Requests are ascending, disjoint and separated by a held number. */
  lemma {:induction false} GapsSpaced(next: nat, pending: seq<Segment>)
    ensures Spaced(GapRanges(next, pending), next, ScanEnd(next, pending))
    decreases |pending|
  {
    if pending != [] {
      var n, rest := pending[0].no, pending[1..];
      if n < next {
        GapsSpaced(next, rest);
      } else {
        GapsSpaced(n + 1, rest);
        ScanEndIsMax(n + 1, rest);
        if n > next { SpacedCons(Range(next, n - 1), GapRanges(n + 1, rest), ScanEnd(n + 1, rest)); }
      }
    }
  }

  /**
   * For any pending list: `n` is requested exactly if it lies between the wanted number and the end of
   * the scan and is not held as a new maximum.
   */
  lemma {:induction false} GapsExactly(next: nat, pending: seq<Segment>, n: nat)
    ensures InRanges(GapRanges(next, pending), n)
       <==> next <= n < ScanEnd(next, pending) && !NewMaximum(pending, n)
    decreases |pending|
  {
    if pending != [] {
      var h, rest := pending[0].no, pending[1..];
      var next' := if h >= next then h + 1 else next;
      var tail := GapRanges(next', rest);
      assert GapRanges(next, pending) == if h > next then [Range(next, h - 1)] + tail else tail;
      assert ScanEnd(next, pending) == ScanEnd(next', rest);
      hide *;
      GapsExactly(next', rest, n);
      ScanEndIsMax(next', rest);
      NewMaximumStep(pending, n);
      if h > next { InRangesCons(Range(next, h - 1), tail, n); }
    }
  }

  lemma InRangesCons(r: Range, tail: seq<Range>, n: nat)
    ensures InRanges([r] + tail, n) <==> r.first <= n <= r.last || InRanges(tail, n)
  {
    var all := [r] + tail;
    if InRanges(tail, n) {
      var i :| 0 <= i < |tail| && tail[i].first <= n <= tail[i].last;
      assert all[i + 1] == tail[i];
    }
    if r.first <= n <= r.last { assert all[0] == r; }
  }

  lemma NewMaximumStep(pending: seq<Segment>, n: nat)
    requires pending != []
    ensures NewMaximum(pending, n) <==> pending[0].no == n || (pending[0].no < n && NewMaximum(pending[1..], n))
  {
    var rest := pending[1..];
    assert forall i :: 0 <= i < |rest| ==> rest[i] == pending[i + 1];
    if NewMaximum(pending, n) {
      var i :| 0 <= i < |pending| && pending[i].no == n && forall j :: 0 <= j < i ==> pending[j].no < n;
      if i > 0 {
        assert rest[i - 1].no == n;
        assert forall j :: 0 <= j < i - 1 ==> rest[j].no < n;
      }
    }
    if pending[0].no < n && NewMaximum(rest, n) {
      var i :| 0 <= i < |rest| && rest[i].no == n && forall j :: 0 <= j < i ==> rest[j].no < n;
      assert pending[i + 1].no == n;
      assert forall j :: 0 <= j < i + 1 ==> pending[j].no < n by {
        forall j | 0 <= j < i + 1 ensures pending[j].no < n {
          if j > 0 { assert rest[j - 1] == pending[j]; }
        }
      }
    }
  }

  /** Nothing missing is left out of the requests, in whatever order pending is. */
  lemma GapsComplete(q: Queue, n: nat)
    requires q.expected <= n < ScanEnd(q.expected, q.pending) && !HasNo(q.pending, n)
    ensures InRanges(Gaps(q), n)
  {
    GapsExactly(q.expected, q.pending, n);
  }

  /** On a sorted pending list the requests are exactly the missing numbers. */
  lemma GapsExactWhenSorted(q: Queue, n: nat)
    requires Ascending(q.pending)
    ensures InRanges(Gaps(q), n)
       <==> q.expected <= n < ScanEnd(q.expected, q.pending) && !HasNo(q.pending, n)
  {
    GapsExactly(q.expected, q.pending, n);
    if HasNo(q.pending, n) {
      var i :| 0 <= i < |q.pending| && q.pending[i].no == n;
      assert forall j :: 0 <= j < i ==> q.pending[j].no < n;
      assert NewMaximum(q.pending, n);
    }
  }

  // --- Recovery ---

  function ReceivedAll(q: Queue, segs: seq<Segment>): Queue
    decreases |segs|
  {
    if segs == [] then q else ReceivedAll(Received(q, segs[0]), segs[1..])
  }

  /** Each segment is the wanted one when it arrives. */
  ghost predicate AcceptedOnArrival(q: Queue, segs: seq<Segment>)
    decreases |segs|
  {
    segs != [] ==> segs[0].no == q.expected && AcceptedOnArrival(Received(q, segs[0]), segs[1..])
  }

  /** The segments of the requested ranges, ascending. */
  ghost function Requested(stream: seq<Segment>, ranges: seq<Range>): seq<Segment>
    requires forall r :: r in ranges ==> r.first <= r.last < |stream|
  {
    if ranges == [] then []
    else stream[ranges[0].first..ranges[0].last + 1] + Requested(stream, ranges[1..])
  }

  lemma {:induction false} ReceivedAllConcat(q: Queue, a: seq<Segment>, b: seq<Segment>)
    ensures ReceivedAll(q, a + b) == ReceivedAll(ReceivedAll(q, a), b)
    ensures AcceptedOnArrival(q, a + b) <==> AcceptedOnArrival(q, a) && AcceptedOnArrival(ReceivedAll(q, a), b)
    decreases |a|
  {
    if a == [] {
      assert a + b == b;
    } else {
      assert (a + b)[1..] == a[1..] + b;
      ReceivedAllConcat(Received(q, a[0]), a[1..], b);
    }
  }

  /** Filling the first gap: nothing drains before the gap is closed, then the scan of pending resumes. */
  lemma {:induction false} FillFirstGap(q: Queue, stream: seq<Segment>)
    requires Numbered(stream) && Settled(q) && q.pending != [] && q.pending[0].no <= |stream|
    ensures var gap := stream[q.expected..q.pending[0].no];
      && AcceptedOnArrival(q, gap)
      && ReceivedAll(q, gap) == Purge(Queue(q.main + gap, q.pending, q.pending[0].no))
    decreases q.pending[0].no - q.expected
  {
    var h := q.pending[0].no;
    var gap := stream[q.expected..h];
    var q' := q.(main := q.main + [gap[0]], expected := q.expected + 1);
    assert gap[1..] == stream[q'.expected..h];
    assert q.main + gap == q'.main + gap[1..];
    assert Received(q, gap[0]) == Purge(q');
    if q'.expected < h {
      FillFirstGap(q', stream);
    } else {
      assert gap == [gap[0]];
    }
  }

  lemma {:induction false} PurgeKeepsGaps(q: Queue)
    ensures Settled(Purge(q))
    ensures Gaps(Purge(q)) == Gaps(q)
    ensures ScanEnd(Purge(q).expected, Purge(q).pending) == ScanEnd(q.expected, q.pending)
    ensures |Purge(q).pending| <= |q.pending|
    ensures forall s :: s in Purge(q).pending ==> s in q.pending
    decreases |q.pending|
  {
    if q.pending == [] || q.expected < q.pending[0].no {
    } else if q.expected > q.pending[0].no {
      PurgeKeepsGaps(q.(pending := q.pending[1..]));
    } else {
      PurgeKeepsGaps(Queue(q.main + [q.pending[0]], q.pending[1..], q.expected + 1));
    }
  }

  /** Draining empties pending exactly if nothing is missing before what it holds. */
  lemma PurgeEmptiesExactly(q: Queue)
    ensures Purge(q).pending == [] <==> Gaps(q) == []
  {
    PurgeKeepsGaps(q);
    var p := Purge(q);
    assert p.pending != [] ==> Gaps(p)[0] == Range(p.expected, p.pending[0].no - 1);
  }

  /**
   * Recovery from any settled queue, sorted or not: if the ranges of one gap check arrive in ascending
   * order, each segment is taken on arrival, pending ends empty and the wanted number passes everything
   * that was pending.
   */
  lemma {:induction false} Recovery(q: Queue, stream: seq<Segment>)
    requires Numbered(stream) && Settled(q) && AllGenuine(q.pending, stream)
    ensures forall r :: r in Gaps(q) ==> r.first <= r.last < |stream|
    ensures var segs := Requested(stream, Gaps(q));
      && AcceptedOnArrival(q, segs)
      && ReceivedAll(q, segs).pending == []
      && ReceivedAll(q, segs).expected == ScanEnd(q.expected, q.pending)
    decreases |q.pending|
  {
    if q.pending != [] {
      assert q.pending[0] in q.pending;
      var h, rest := q.pending[0].no, q.pending[1..];
      var gap := stream[q.expected..h];
      var filled := Queue(q.main + gap + [q.pending[0]], rest, h + 1);
      assert Purge(Queue(q.main + gap, q.pending, h)) == Purge(filled);
      assert forall s :: s in rest ==> s in q.pending;
      assert Gaps(q) == [Range(q.expected, h - 1)] + Gaps(filled);
      assert ScanEnd(q.expected, q.pending) == ScanEnd(h + 1, rest);
      hide Purge, Received, ReceivedAll, AcceptedOnArrival, ScanEnd;
      FillFirstGap(q, stream);
      PurgeKeepsGaps(filled);
      Recovery(Purge(filled), stream);
      ReceivedAllConcat(q, gap, Requested(stream, Gaps(filled)));
    }
  }

  /** The wanted number after recovery is one past the largest pending number. */
  lemma RecoveredUpToMaximum(q: Queue, max: nat)
    requires Settled(q) && HasNo(q.pending, max)
    requires forall i :: 0 <= i < |q.pending| ==> q.pending[i].no <= max
    ensures ScanEnd(q.expected, q.pending) == max + 1
  {
    ScanEndIsMax(q.expected, q.pending);
    assert q.pending[0].no > q.expected;
    var i :| 0 <= i < |q.pending| && q.pending[i].no == max;
  }

  // --- The queue object ---

  lemma StepBehind(pending: seq<Segment>, i: nat, s: Segment)
    requires i < |pending| && pending[i].no <= s.no
    ensures pending[..i] + InsertBehindLarger(pending[i..], s)
         == pending[..i + 1] + InsertBehindLarger(pending[i + 1..], s)
  {
    assert pending[i..][1..] == pending[i + 1..];
  }

  lemma StopBehind(pending: seq<Segment>, i: nat, s: Segment)
    requires i < |pending| && pending[i].no > s.no
    ensures pending[..i] + InsertBehindLarger(pending[i..], s) == pending[..i + 1] + [s] + pending[i + 1..]
  {
    assert pending[i..][1..] == pending[i + 1..];
  }

  /** The iterator walk of `enqueue`: the cursor stops behind the first larger number. */
  method FindCursor(pending: seq<Segment>, segment: Segment) returns (cursor: nat)
    ensures cursor <= |pending|
    ensures InsertBehindLarger(pending, segment) == pending[..cursor] + [segment] + pending[cursor..]
    ensures forall k :: 0 <= k < cursor - 1 ==> pending[k].no <= segment.no
    ensures cursor < |pending| ==> cursor > 0 && pending[cursor - 1].no > segment.no
  {
    cursor := 0;
    while cursor < |pending|
      invariant 0 <= cursor <= |pending|
      invariant InsertBehindLarger(pending, segment)
             == pending[..cursor] + InsertBehindLarger(pending[cursor..], segment)
      invariant forall k :: 0 <= k < cursor ==> pending[k].no <= segment.no
    {
      var walker := pending[cursor];
      cursor := cursor + 1;
      if walker.no > segment.no {
        StopBehind(pending, cursor - 1, segment);
        return;
      }
      StepBehind(pending, cursor - 1, segment);
    }
  }

  class ReceiveQueue {
    var mQueue: seq<Segment>
    var mPendingQueue: seq<Segment>
    var mExpectedSeqNo: nat

    ghost function Contents(): Queue
      reads this
    {
      Queue(mQueue, mPendingQueue, mExpectedSeqNo)
    }

    constructor ()
      ensures Contents() == EMPTY_QUEUE
    {
      mQueue, mPendingQueue, mExpectedSeqNo := [], [], 0;
    }

    /** Returns whether a waiting reader has to be woken. */
    method Enqueue(segment: Segment) returns (enqueued: bool)
      modifies this
      ensures Contents() == Received(old(Contents()), segment)
      ensures enqueued <==> mExpectedSeqNo > old(mExpectedSeqNo)
    {
      enqueued := false;
      if segment.no == mExpectedSeqNo {
        mExpectedSeqNo := mExpectedSeqNo + 1;
        mQueue := mQueue + [segment];
        enqueued := true;
      } else if segment.no < mExpectedSeqNo {
        return;
      } else {
        var cursor := FindCursor(mPendingQueue, segment);
        mPendingQueue := mPendingQueue[..cursor] + [segment] + mPendingQueue[cursor..];
      }
      while |mPendingQueue| > 0
        invariant Purge(Contents()) == Received(old(Contents()), segment)
        invariant mExpectedSeqNo >= old(mExpectedSeqNo)
        invariant enqueued <==> mExpectedSeqNo > old(mExpectedSeqNo)
        decreases |mPendingQueue|
      {
        var walker := mPendingQueue[0];
        if mExpectedSeqNo > walker.no {
          mPendingQueue := mPendingQueue[1..];
        } else if mExpectedSeqNo < walker.no {
          break;
        } else {
          mQueue := mQueue + [walker];
          mExpectedSeqNo := mExpectedSeqNo + 1;
          enqueued := true;
          mPendingQueue := mPendingQueue[1..];
        }
      }
    }

    method Dequeue() returns (segment: Option<Segment>)
      modifies this
      ensures segment.None? <==> old(mQueue) == []
      ensures segment.None? ==> Contents() == old(Contents())
      ensures segment.Some? ==>
                && segment.value == old(mQueue)[0]
                && Contents() == old(Contents()).(main := old(mQueue)[1..])
    {
      if |mQueue| == 0 { return None; }
      segment := Some(mQueue[0]);
      mQueue := mQueue[1..];
    }

    /** The requests a gap check sends, in sending order. */
    method CheckMissing() returns (requests: seq<Range>)
      ensures requests == Gaps(Contents())
    {
      requests := [];
      var nextSeqNo := mExpectedSeqNo;
      for i := 0 to |mPendingQueue|
        invariant Gaps(Contents()) == requests + GapRanges(nextSeqNo, mPendingQueue[i..])
      {
        var seqNo := mPendingQueue[i].no;
        assert mPendingQueue[i..][1..] == mPendingQueue[i + 1..];
        if seqNo > nextSeqNo {
          requests := requests + [Range(nextSeqNo, seqNo - 1)];
          nextSeqNo := seqNo + 1;
        } else if seqNo == nextSeqNo {
          nextSeqNo := seqNo + 1;
        }
      }
    }
  }
}
