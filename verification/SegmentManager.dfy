/** The send side of the Linux SegmentManager as an object. */
module SegmentManager {
  import opened Segments
  import opened Segmentation
  import opened LinuxQueue
  import SentList

  /** Every number in the queue is below `n`. */
  ghost predicate Below(q: Queue, n: nat) {
    && q.expected <= n
    && forall i :: 0 <= i < |q.pending| ==> q.pending[i].no < n
  }

  lemma {:induction false} DrainBelow(q: Queue, n: nat)
    requires Below(q, n)
    ensures Below(Drain(q), n)
    decreases |q.pending|
  {
    if q.pending != [] && q.pending[0].no == q.expected {
      DrainBelow(Queue(q.main + [q.pending[0]], q.pending[1..], q.expected + 1), n);
    }
  }

  /** A number not handed out before is acceptable, and afterwards everything is below the next one. */
  lemma FreshIsAcceptable(q: Queue, s: Segment)
    requires Below(q, s.no)
    ensures Acceptable(q, s)
    ensures Below(Enqueued(q, s), s.no + 1)
  {
    if s.no == q.expected {
      DrainBelow(q.(main := q.main + [s], expected := q.expected + 1), s.no + 1);
    } else {
      InsertSortedMembers(q.pending, s);
      var p := InsertSorted(q.pending, s);
      forall i | 0 <= i < |p| ensures p[i].no < s.no + 1 {
        assert p[i] in p;
      }
      DrainBelow(q.(pending := p), s.no + 1);
    }
  }

  /** The loop's segment is the next fragment, and enqueueing it is the next step of enqueueing them all. */
  lemma NextFragment(q: Queue, c: Class, first: nat, data: seq<byte>, i: nat, seg: Segment)
    requires i < NumSegments(|data|) && seg == SegmentAt(c, first, data, i)
    ensures var p := Fragment(c, first, data);
      EnqueueAll(q, p[i..]) == EnqueueAll(Enqueued(q, seg), p[i + 1..])
  {
    var p := Fragment(c, first, data);
    assert p[i..][0] == seg && p[i..][1..] == p[i + 1..];
  }

  lemma NoFragmentLeft(q: Queue, rest: seq<Segment>)
    requires |rest| == 0
    ensures EnqueueAll(q, rest) == q
  {
  }

  class SegmentManager {
    const mSendQueues: PerClass<SegmentQueue>
    var mNextSeqNo: PerClass<nat>
    var mFailedSegmentList: seq<Segment>
    var mSentSegmentLists: PerClass<seq<Segment>>

    ghost predicate Valid()
      reads this, mSendQueues.data, mSendQueues.control
    {
      && mSendQueues.data != mSendQueues.control
      && Below(mSendQueues.data.Contents(), mNextSeqNo.data)
      && Below(mSendQueues.control.Contents(), mNextSeqNo.control)
    }

    constructor ()
      ensures Valid() && fresh(mSendQueues.data) && fresh(mSendQueues.control)
      ensures mSendQueues.data.Contents() == mSendQueues.control.Contents() == EMPTY_QUEUE
      ensures mNextSeqNo == PerClass(0, 0) && mFailedSegmentList == [] && mSentSegmentLists == PerClass([], [])
    {
      var data := new SegmentQueue();
      var control := new SegmentQueue();
      mSendQueues := PerClass(data, control);
      mNextSeqNo := PerClass(0, 0);
      mFailedSegmentList := [];
      mSentSegmentLists := PerClass([], []);
    }

    /** Reserves a block of numbers. */
    method GetNextSeqNo(c: Class, numSegments: nat) returns (first: nat)
      requires Valid()
      modifies this`mNextSeqNo
      ensures Valid()
      ensures first == old(mNextSeqNo).At(c) && mNextSeqNo == old(mNextSeqNo).With(c, first + numSegments)
    {
      first := mNextSeqNo.At(c);
      mNextSeqNo := mNextSeqNo.With(c, first + numSegments);
    }

    /** An undisturbed call: the queue receives exactly the fragments of `data`, numbered from the block. */
    method SendToSegmentManager(data: seq<byte>, isControl: bool)
      requires Valid() && |data| > 0
      modifies this`mNextSeqNo, if isControl then mSendQueues.control else mSendQueues.data
      ensures Valid()
      ensures var c := if isControl then Control else Data;
        && mNextSeqNo == old(mNextSeqNo).With(c, old(mNextSeqNo).At(c) + NumSegments(|data|))
        && mSendQueues.At(c).Contents()
           == EnqueueAll(old(mSendQueues.At(c).Contents()), Fragment(c, old(mNextSeqNo).At(c), data))
    {
      hide EnqueueAll, Enqueued, Fragment;
      var numOfSegments := NumSegments(|data|);
      var c := if isControl then Control else Data;
      var queue := mSendQueues.At(c);
      var seqNo := GetNextSeqNo(c, numOfSegments);
      ghost var p := Fragment(c, seqNo, data);
      ghost var target := EnqueueAll(queue.Contents(), p);
      var offset, segIdx := 0, 0;
      assert p[0..] == p;
      while segIdx < numOfSegments
        invariant segIdx <= numOfSegments
        invariant offset == if segIdx < numOfSegments then segIdx * SEG_SIZE else |data|
        invariant seqNo == old(mNextSeqNo).At(c) + segIdx
        invariant mNextSeqNo == old(mNextSeqNo).With(c, old(mNextSeqNo).At(c) + numOfSegments)
        invariant Below(queue.Contents(), seqNo)
        invariant EnqueueAll(queue.Contents(), p[segIdx..]) == target
        invariant (if isControl then mSendQueues.data else mSendQueues.control).Contents()
               == old((if isControl then mSendQueues.data else mSendQueues.control).Contents())
      {
        var len := if |data| - offset < SEG_SIZE then |data| - offset else SEG_SIZE;
        var seg := Segment(seqNo, c, offset + len < |data|, data[offset..offset + len]);
        NextFragment(queue.Contents(), c, old(mNextSeqNo).At(c), data, segIdx, seg);
        FreshIsAcceptable(queue.Contents(), seg);
        var _ := queue.Enqueue(seg);
        seqNo := seqNo + 1;
        offset := offset + len;
        segIdx := segIdx + 1;
      }
      NoFragmentLeft(queue.Contents(), p[segIdx..]);
    }

    /** The next segment to send from the queues: control before data. */
    method Dequeue() returns (segment: Option<Segment>)
      requires Valid()
      modifies mSendQueues.data, mSendQueues.control
      ensures Valid()
      ensures var c := if old(mSendQueues.control.mMainQueue) != [] then Control else Data;
        var queue := mSendQueues.At(c);
        var other := mSendQueues.At(if c == Data then Control else Data);
        && other.Contents() == old(other.Contents())
        && (if old(queue.mMainQueue) == []
            then segment == None && queue.Contents() == old(queue.Contents())
            else segment == Some(old(queue.mMainQueue)[0])
                 && queue.Contents() == old(queue.Contents()).(main := old(queue.mMainQueue)[1..]))
    {
      if |mSendQueues.control.mMainQueue| != 0 {
        segment := mSendQueues.control.Dequeue();
      } else if |mSendQueues.data.mMainQueue| != 0 {
        segment := mSendQueues.data.Dequeue();
      } else {
        segment := None;
      }
    }

    method AddFailedSegment(seg: Segment)
      modifies this`mFailedSegmentList
      ensures mFailedSegmentList == old(mFailedSegmentList) + [seg]
    {
      mFailedSegmentList := mFailedSegmentList + [seg];
    }

    method PopFailedSegment() returns (segment: Option<Segment>)
      modifies this`mFailedSegmentList
      ensures if old(mFailedSegmentList) == []
              then segment == None && mFailedSegmentList == []
              else segment == Some(old(mFailedSegmentList)[0]) && mFailedSegmentList == old(mFailedSegmentList)[1..]
    {
      if |mFailedSegmentList| == 0 { return None; }
      segment := Some(mFailedSegmentList[0]);
      mFailedSegmentList := mFailedSegmentList[1..];
    }

    /** The erasing iterator loop over one list. */
    method FreeList(list: seq<Segment>, lastSeqNo: nat) returns (kept: seq<Segment>)
      ensures kept == SentList.Freed(list, lastSeqNo)
    {
      kept := list;
      var it := 0;
      while it < |kept|
        invariant it <= |kept|
        invariant SentList.Freed(list, lastSeqNo) == kept[..it] + SentList.Freed(kept[it..], lastSeqNo)
        decreases |kept| - it
      {
        if kept[it].no <= lastSeqNo {
          assert kept[it..][1..] == (kept[..it] + kept[it + 1..])[it..];
          kept := kept[..it] + kept[it + 1..];
        } else {
          assert kept[it..][1..] == kept[it + 1..];
          assert kept[..it + 1] == kept[..it] + [kept[it]];
          it := it + 1;
        }
      }
    }

    method DeallocateSentSegmentsByPeer(lastControl: nat, lastData: nat)
      modifies this`mSentSegmentLists
      ensures mSentSegmentLists == PerClass(SentList.Freed(old(mSentSegmentLists).data, lastData),
                                            SentList.Freed(old(mSentSegmentLists).control, lastControl))
    {
      var control := FreeList(mSentSegmentLists.control, lastControl);
      var data := FreeList(mSentSegmentLists.data, lastData);
      mSentSegmentLists := PerClass(data, control);
    }

    /** An invalid type is ignored; otherwise the held segments of the range join the failed list. */
    method RetransmitMissingSegmentsByPeer(segType: int, first: nat, last: nat) returns (count: nat)
      modifies this`mFailedSegmentList
      ensures segType < 0 || segType >= 2 ==> count == 0 && mFailedSegmentList == old(mFailedSegmentList)
      ensures 0 <= segType < 2 ==>
                var list := mSentSegmentLists.At(if segType == 0 then Data else Control);
                var again := SentList.InRange(list, first, last);
                count == |again| && mFailedSegmentList == old(mFailedSegmentList) + again
    {
      count := 0;
      if segType < 0 || segType >= 2 { return; }
      var list := mSentSegmentLists.At(if segType == 0 then Data else Control);
      ghost var again := SentList.InRange(list, first, last);
      for it := 0 to |list|
        invariant mFailedSegmentList + SentList.InRange(list[it..], first, last) == old(mFailedSegmentList) + again
        invariant count + |SentList.InRange(list[it..], first, last)| == |again|
      {
        assert list[it..][1..] == list[it + 1..];
        var segment := list[it];
        if segment.no >= first && segment.no <= last {
          count := count + 1;
          AddFailedSegment(segment);
        }
      }
    }

    method AddSentSegment(c: Class, seg: Segment)
      modifies this`mSentSegmentLists
      ensures mSentSegmentLists
           == old(mSentSegmentLists).With(c, SentList.Inserted(old(mSentSegmentLists).At(c), seg))
    {
      var list := mSentSegmentLists.At(c);
      var it := |list|;
      assert list[..it] == list;
      while it > 0
        invariant 0 <= it <= |list|
        invariant mSentSegmentLists == old(mSentSegmentLists)
        invariant SentList.Inserted(list, seg) == SentList.Inserted(list[..it], seg) + list[it..]
      {
        it := it - 1;
        assert list[..it + 1][..it] == list[..it];
        assert list[it..] == [list[it]] + list[it + 1..];
        var segment := list[it];
        if segment.no < seg.no {
          it := it + 1;
          mSentSegmentLists := mSentSegmentLists.With(c, list[..it] + [seg] + list[it..]);
          return;
        } else if segment.no > seg.no {
          continue;
        } else {
          assert list[..it + 1] + list[it + 1..] == list;
          return;
        }
      }
      mSentSegmentLists := mSentSegmentLists.With(c, [seg] + list);
    }
  }
}
