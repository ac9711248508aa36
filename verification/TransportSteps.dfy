/** Every step of the transport keeps the invariant. */
module TransportSteps {
  import opened Segments
  import opened Segmentation
  import opened PacketStream
  import opened Transport
  import LinuxQueue
  import AndroidQueue
  import SentList

  function Other(c: Class): Class {
    if c == Data then Control else Data
  }

  /** Puts the invariant together again after lane `c` changed. */
  lemma Assemble(st: State, c: Class, lane': Lane, st': State)
    requires Inv(st)
    requires st'.lanes == st.lanes.With(c, lane')
    requires st.lanes.At(c).stream <= lane'.stream && st.lanes.At(c).recv.expected <= lane'.recv.expected
    requires LaneOk(lane', c) && ProducersOk(st'.producers, c, lane'.sendQ, lane'.next)
    requires KeptOk(st'.failed, st'.senders, lane')
    requires var other := st.lanes.At(Other(c));
      ProducersOk(st'.producers, Other(c), other.sendQ, other.next) && KeptOk(st'.failed, st'.senders, other)
    requires FailedOk(st.lanes, st'.failed) && WireOk(st.lanes, st'.wire)
    requires HeldOk(st.lanes, st'.senders) && NoticesOk(st.lanes, st'.notices)
    ensures Inv(st')
  {
    assert st'.lanes.At(c) == lane' && st'.lanes.At(Other(c)) == st.lanes.At(Other(c));
    assert LaneInv(st', c) && LaneInv(st', Other(c));
    assert forall s :: Real(st.lanes, s) ==> Real(st'.lanes, s);
    assert forall n :: NoticeOk(st.lanes, n) ==> NoticeOk(st'.lanes, n);
  }

  /** The parts of the invariant that speak about lane `c`, and about the rest. */
  lemma Disassemble(st: State, c: Class)
    requires Inv(st)
    ensures LaneInv(st, c) && LaneInv(st, Other(c))
  {
  }

  // --- Reserve ---

  lemma LaneGrows(lane: Lane, c: Class, m: Message, lane': Lane)
    requires LaneOk(lane, c) && ValidMessage(m)
    requires lane' == lane.(next := lane.next + NumSegments(|Serialize(m)|), messages := lane.messages + [m],
                            stream := lane.stream + Fragment(c, lane.next, Serialize(m)))
    ensures LaneOk(lane', c)
    ensures lane.stream <= lane'.stream && |lane.stream| < |lane'.stream|
  {
    StreamSnoc(c, 0, lane.messages, m);
    StreamNumbered(c, 0, lane'.messages);
    FragmentShape(c, lane.next, Serialize(m));
    var s, s' := lane.stream, lane'.stream;
    assert forall i :: 0 <= i < |s| ==> s'[i] == s[i];
    assert s'[lane.released..lane.sendQ.expected] == s[lane.released..lane.sendQ.expected];
    assert s'[..lane.recv.expected] == s[..lane.recv.expected];
  }

  lemma CoveredBelow(lane: Lane, c: Class, n: nat)
    requires LaneOk(lane, c) && Covered(lane.sendQ, n)
    ensures n < lane.next
  {
    if HasNo(lane.sendQ.pending, n) {
      var i :| 0 <= i < |lane.sendQ.pending| && lane.sendQ.pending[i].no == n;
      assert lane.sendQ.pending[i] in lane.sendQ.pending;
    }
  }

  lemma ReserveProducers(producers: seq<Producer>, i: nat, c: Class, lane: Lane, n: nat)
    requires i < |producers| && producers[i] == Idle && n > 0
    requires LaneOk(lane, c) && ProducersOk(producers, c, lane.sendQ, lane.next)
    ensures ProducersOk(producers[i := Sending(c, lane.next, lane.next + n)], c, lane.sendQ, lane.next + n)
  {
    var ps := producers[i := Sending(c, lane.next, lane.next + n)];
    forall k, x | 0 <= k < |ps| && Owns(ps[k], c, x) ensures !Covered(lane.sendQ, x) {
      if k == i && Covered(lane.sendQ, x) { CoveredBelow(lane, c, x); }
    }
    forall x | 0 <= x < lane.next + n
      ensures Covered(lane.sendQ, x) || exists k :: 0 <= k < |ps| && Owns(ps[k], c, x)
    {
      if x >= lane.next {
        assert Owns(ps[i], c, x);
      } else if !Covered(lane.sendQ, x) {
        var k :| 0 <= k < |producers| && Owns(producers[k], c, x);
        assert Owns(ps[k], c, x);
      }
    }
  }

  /** A producer that changes neither starts nor stops owning numbers of the other class. */
  lemma OtherProducers(producers: seq<Producer>, i: nat, p: Producer, c: Class, q: Queue, next: nat)
    requires i < |producers| && ProducersOk(producers, c, q, next)
    requires forall n :: !Owns(producers[i], c, n) && !Owns(p, c, n)
    requires p.Sending? ==> p.cls != c
    ensures ProducersOk(producers[i := p], c, q, next)
  {
    var ps := producers[i := p];
    forall x | 0 <= x < next ensures Covered(q, x) || exists k :: 0 <= k < |ps| && Owns(ps[k], c, x) {
      if !Covered(q, x) {
        var k :| 0 <= k < |producers| && Owns(producers[k], c, x);
        assert Owns(ps[k], c, x);
      }
    }
  }

  lemma KeptGrows(failed: seq<Segment>, senders: seq<Sender>, lane: Lane, lane': Lane)
    requires KeptOk(failed, senders, lane) && lane.released <= |lane.stream|
    requires lane.stream <= lane'.stream && lane'.released == lane.released
    requires lane'.sent == lane.sent && lane'.acked == lane.acked
    ensures KeptOk(failed, senders, lane')
  {
    assert forall n :: 0 <= n < |lane.stream| ==> lane'.stream[n] == lane.stream[n];
    forall n | 0 <= n < lane'.released && n < |lane'.stream| ensures Kept(failed, senders, lane', lane'.stream[n]) {
      assert Kept(failed, senders, lane, lane.stream[n]);
    }
  }

  /** The lane that reserves, with the block handed to producer `i`. */
  lemma ReserveLane(producers: seq<Producer>, i: nat, failed: seq<Segment>, senders: seq<Sender>, c: Class,
                    lane: Lane, m: Message, lane': Lane)
    requires i < |producers| && producers[i] == Idle && ValidMessage(m)
    requires LaneOk(lane, c) && ProducersOk(producers, c, lane.sendQ, lane.next) && KeptOk(failed, senders, lane)
    requires lane' == lane.(next := lane.next + NumSegments(|Serialize(m)|), messages := lane.messages + [m],
                            stream := lane.stream + Fragment(c, lane.next, Serialize(m)))
    ensures LaneOk(lane', c) && lane.stream <= lane'.stream && KeptOk(failed, senders, lane')
    ensures ProducersOk(producers[i := Sending(c, lane.next, lane'.next)], c, lane'.sendQ, lane'.next)
  {
    LaneGrows(lane, c, m, lane');
    ReserveProducers(producers, i, c, lane, NumSegments(|Serialize(m)|));
    KeptGrows(failed, senders, lane, lane');
  }

  lemma ReserveInv(st: State, i: nat, c: Class, m: Message)
    requires Inv(st) && Enabled(st, Reserve(i, c, m))
    ensures Inv(Apply(st, Reserve(i, c, m)))
  {
    var lane, other := st.lanes.At(c), st.lanes.At(Other(c));
    var n := NumSegments(|Serialize(m)|);
    var lane' := lane.(next := lane.next + n, messages := lane.messages + [m],
                       stream := lane.stream + Fragment(c, lane.next, Serialize(m)));
    ReserveLane(st.producers, i, st.failed, st.senders, c, lane, m, lane');
    OtherProducers(st.producers, i, Sending(c, lane.next, lane'.next), Other(c), other.sendQ, other.next);
    Assemble(st, c, lane', Apply(st, Reserve(i, c, m)));
  }

  // --- Enqueue ---

  lemma EnqueueProducers(producers: seq<Producer>, i: nat, c: Class, q: Queue, q': Queue, next: nat)
    requires i < |producers| && producers[i].Sending? && producers[i].cls == c
    requires ProducersOk(producers, c, q, next)
    requires forall n :: Covered(q', n) <==> Covered(q, n) || n == producers[i].lo
    ensures ProducersOk(producers[i := Advanced(producers[i])], c, q', next)
  {
    var p := producers[i];
    var p' := Advanced(p);
    var ps := producers[i := p'];
    assert Owns(p, c, p.lo);
    assert forall n :: Owns(p', c, n) <==> Owns(p, c, n) && n != p.lo;
    assert forall k, n :: 0 <= k < |ps| && Owns(ps[k], c, n) ==> Owns(producers[k], c, n) && n != p.lo;
    forall x | 0 <= x < next ensures Covered(q', x) || exists k :: 0 <= k < |ps| && Owns(ps[k], c, x) {
      if !Covered(q', x) {
        var k :| 0 <= k < |producers| && Owns(producers[k], c, x);
        assert Owns(ps[k], c, x);
      }
    }
  }

  lemma EnqueueLane(lane: Lane, c: Class, n: nat)
    requires LaneOk(lane, c) && n < |lane.stream| && !Covered(lane.sendQ, n)
    ensures var q' := LinuxQueue.Enqueued(lane.sendQ, lane.stream[n]);
      && LaneOk(lane.(sendQ := q'), c)
      && (forall x :: Covered(q', x) <==> Covered(lane.sendQ, x) || x == n)
  {
    EnqueueOnStream(lane.sendQ, lane.stream[n], lane.released, lane.stream);
  }

  /** The asserts of the send queue never fire. */
  lemma SendQueueAccepts(st: State, e: Event)
    requires Inv(st) && Enabled(st, e) && e.EnqueueOne?
    ensures var p := st.producers[e.i];
      && !Covered(st.lanes.At(p.cls).sendQ, p.lo)
      && LinuxQueue.Acceptable(st.lanes.At(p.cls).sendQ, st.lanes.At(p.cls).stream[p.lo])
  {
    var p := st.producers[e.i];
    Disassemble(st, p.cls);
    assert Owns(p, p.cls, p.lo);
  }

  /** The state after enqueueing, before anyone is notified. */
  function Enqueueing(st: State, i: nat): State
    requires Enabled(st, EnqueueOne(i))
  {
    var p := st.producers[i];
    var lane := st.lanes.At(p.cls);
    WithLane(st, p.cls, lane.(sendQ := LinuxQueue.Enqueued(lane.sendQ, lane.stream[p.lo])))
    .(producers := st.producers[i := Advanced(p)])
  }

  lemma EnqueueingInv(st: State, i: nat)
    requires Inv(st) && Enabled(st, EnqueueOne(i))
    ensures Inv(Enqueueing(st, i))
  {
    var p := st.producers[i];
    var c := p.cls;
    var lane, other := st.lanes.At(c), st.lanes.At(Other(c));
    SendQueueAccepts(st, EnqueueOne(i));
    EnqueueLane(lane, c, p.lo);
    var q' := LinuxQueue.Enqueued(lane.sendQ, lane.stream[p.lo]);
    EnqueueProducers(st.producers, i, c, lane.sendQ, q', lane.next);
    assert forall n :: !Owns(p, Other(c), n) && !Owns(Advanced(p), Other(c), n);
    OtherProducers(st.producers, i, Advanced(p), Other(c), other.sendQ, other.next);
    KeptGrows(st.failed, st.senders, lane, lane.(sendQ := q'));
    Assemble(st, c, lane.(sendQ := q'), Enqueueing(st, i));
  }

  lemma EnqueueOneInv(st: State, e: Event)
    requires Inv(st) && Enabled(st, e) && e.EnqueueOne?
    ensures Inv(Apply(st, e))
  {
    EnqueueingInv(st, e.i);
    SameHeld(Enqueueing(st, e.i), Apply(st, e).senders, st.owed);
  }

  // --- Senders ---

  /** Nothing kept is dropped when lists only trade places. */
  lemma KeptMoves(failed: seq<Segment>, senders: seq<Sender>, failed': seq<Segment>, senders': seq<Sender>, lane: Lane,
                  lane': Lane)
    requires KeptOk(failed, senders, lane)
    requires lane'.released == lane.released && lane'.stream == lane.stream
    requires forall s :: Kept(failed, senders, lane, s) && Genuine(s, lane.stream) ==> Kept(failed', senders', lane', s)
    requires Numbered(lane.stream)
    ensures KeptOk(failed', senders', lane')
  {
  }

  /** Waking and commanding change nothing that is held. */
  lemma SameHeld(st: State, senders': seq<Sender>, owed': nat)
    requires Inv(st) && |senders'| == |st.senders|
    requires forall k :: 0 <= k < |senders'| ==> HeldSeg(senders'[k].pc) == HeldSeg(st.senders[k].pc)
    ensures Inv(st.(senders := senders', owed := owed'))
  {
    var st' := st.(senders := senders', owed := owed');
    forall seg | IsHeld(st.senders, seg) ensures IsHeld(senders', seg) {
      var k :| 0 <= k < |st.senders| && HeldSeg(st.senders[k].pc) == Some(seg);
      assert HeldSeg(senders'[k].pc) == Some(seg);
    }
    KeptMoves(st.failed, st.senders, st'.failed, st'.senders, st.lanes.data, st.lanes.data);
    KeptMoves(st.failed, st.senders, st'.failed, st'.senders, st.lanes.control, st.lanes.control);
    assert LaneInv(st', Data) && LaneInv(st', Control);
  }

  /** What sender `j` held goes to the failed list (or stays held); nobody else changes. */
  lemma PcChange(st: State, j: nat, pc: Pc, failed: seq<Segment>)
    requires Inv(st) && j < |st.senders|
    requires forall s :: s in st.failed ==> s in failed || HeldSeg(pc) == Some(s)
    requires HeldSeg(st.senders[j].pc).Some? ==>
               HeldSeg(st.senders[j].pc).value in failed || HeldSeg(pc) == HeldSeg(st.senders[j].pc)
    requires forall s :: s in failed || HeldSeg(pc) == Some(s) ==> Real(st.lanes, s)
    ensures Inv(WithPc(st, j, pc).(failed := failed))
  {
    var st' := WithPc(st, j, pc).(failed := failed);
    HeldAfter(st.senders, j, pc);
    KeptMoves(st.failed, st.senders, st'.failed, st'.senders, st.lanes.data, st.lanes.data);
    KeptMoves(st.failed, st.senders, st'.failed, st'.senders, st.lanes.control, st.lanes.control);
    assert LaneInv(st', Data) && LaneInv(st', Control);
  }

  lemma HeldAfter(senders: seq<Sender>, j: nat, pc: Pc)
    requires j < |senders|
    ensures var after := senders[j := senders[j].(pc := pc)];
      && (forall seg :: IsHeld(senders, seg) ==> IsHeld(after, seg) || HeldSeg(senders[j].pc) == Some(seg))
      && (forall seg :: HeldSeg(pc) == Some(seg) ==> IsHeld(after, seg))
  {
    var after := senders[j := senders[j].(pc := pc)];
    forall seg | IsHeld(senders, seg) ensures IsHeld(after, seg) || HeldSeg(senders[j].pc) == Some(seg) {
      var k :| 0 <= k < |senders| && HeldSeg(senders[k].pc) == Some(seg);
      assert k != j ==> HeldSeg(after[k].pc) == Some(seg);
    }
    assert HeldSeg(after[j].pc) == HeldSeg(pc);
  }

  lemma SenderInv(st: State, e: Event)
    requires Inv(st) && Enabled(st, e) && (e.CheckPaused? || e.PopFailed? || e.Recheck?)
    ensures Inv(Apply(st, e))
  {
    var j := e.j;
    match e
    case PopFailed(_) =>
      if st.failed != [] {
        assert st.failed == [st.failed[0]] + st.failed[1..];
        PcChange(st, j, Holding(st.failed[0]), st.failed[1..]);
      } else {
        PcChange(st, j, Asking, st.failed);
      }
    case Recheck(_) =>
      var seg := st.senders[j].pc.seg;
      if st.senders[j].adapter == Sleeping { PcChange(st, j, Top, st.failed + [seg]); }
      else { PcChange(st, j, Cleared(seg), st.failed); }
    case CheckPaused(_) => PcChange(st, j, AtTop(st.senders[j].adapter), st.failed);
  }

  /** A failed send gives the segment back, whether the sender goes on or leaves its loop. */
  lemma SendFailsInv(st: State, e: Event)
    requires Inv(st) && Enabled(st, e) && e.SendFails?
    ensures Inv(Apply(st, e))
  {
    PcChange(st, e.j, if e.ends then Exited else Top, st.failed + [st.senders[e.j].pc.seg]);
  }

  /** Commands, and the end of a disconnection, touch nothing that is held. */
  lemma OrderInv(st: State, e: Event)
    requires Inv(st) && Enabled(st, e) && (e.Order? || e.Closed? || e.WakeWaiting?)
    ensures Inv(Apply(st, e))
  {
    SameHeld(st, Apply(st, e).senders, Apply(st, e).owed);
  }

  lemma SendSucceedsInv(st: State, e: Event)
    requires Inv(st) && Enabled(st, e) && e.SendSucceeds?
    ensures Inv(Apply(st, e))
  {
    var seg := st.senders[e.j].pc.seg;
    assert HeldSeg(st.senders[e.j].pc) == Some(seg);
    PcChange(st, e.j, Transmitted(seg), st.failed);
    var mid := WithPc(st, e.j, Transmitted(seg));
    var st' := Apply(st, e);
    assert LaneInv(mid, Data) && LaneInv(mid, Control);
    assert LaneInv(st', Data) && LaneInv(st', Control);
  }

  lemma ReleaseLane(lane: Lane, c: Class, lane': Lane, producers: seq<Producer>)
    requires LaneOk(lane, c) && ProducersOk(producers, c, lane.sendQ, lane.next) && lane.sendQ.main != []
    requires lane' == lane.(sendQ := lane.sendQ.(main := lane.sendQ.main[1..]), released := lane.released + 1)
    ensures LaneOk(lane', c) && ProducersOk(producers, c, lane'.sendQ, lane'.next)
    ensures lane.released < |lane.stream| && lane.sendQ.main[0] == lane.stream[lane.released]
  {
    assert lane.sendQ.main[1..] == lane.stream[lane.released + 1..lane.sendQ.expected];
    assert forall n :: Covered(lane'.sendQ, n) <==> Covered(lane.sendQ, n);
    SameCover(producers, c, lane.sendQ, lane'.sendQ, lane.next);
  }

  lemma KeptReleased(failed: seq<Segment>, senders: seq<Sender>, senders': seq<Sender>, lane: Lane, lane': Lane)
    requires KeptOk(failed, senders, lane) && lane.released < |lane.stream|
    requires lane' == lane.(sendQ := lane'.sendQ, released := lane.released + 1)
    requires IsHeld(senders', lane.stream[lane.released])
    requires forall seg :: IsHeld(senders, seg) ==> IsHeld(senders', seg)
    ensures KeptOk(failed, senders', lane')
  {
    forall n | 0 <= n < lane'.released && n < |lane.stream| ensures Kept(failed, senders', lane', lane.stream[n]) {
      if n < lane.released { assert Kept(failed, senders, lane, lane.stream[n]); }
    }
  }

  lemma ReleasedInv(st: State, j: nat, c: Class)
    requires Inv(st) && j < |st.senders| && (st.senders[j].pc == Asking || st.senders[j].pc == Woken)
    requires st.lanes.At(c).sendQ.main != []
    ensures Inv(Released(st, j, c))
    ensures st.lanes.At(c).sendQ.main[0] == st.lanes.At(c).stream[st.lanes.At(c).released]
  {
    var lane, other := st.lanes.At(c), st.lanes.At(Other(c));
    var st' := Released(st, j, c);
    var lane' := lane.(sendQ := lane.sendQ.(main := lane.sendQ.main[1..]), released := lane.released + 1);
    ReleaseLane(lane, c, lane', st.producers);
    HeldAfter(st.senders, j, Holding(lane.sendQ.main[0]));
    KeptMoves(st.failed, st.senders, st.failed, st'.senders, other, other);
    KeptReleased(st.failed, st.senders, st'.senders, lane, lane');
    Assemble(st, c, lane', st');
  }

  lemma SameCover(producers: seq<Producer>, c: Class, q: Queue, q': Queue, next: nat)
    requires ProducersOk(producers, c, q, next)
    requires forall n :: Covered(q', n) <==> Covered(q, n)
    ensures ProducersOk(producers, c, q', next)
  {
  }

  lemma DequeueInv(st: State, e: Event)
    requires Inv(st) && Enabled(st, e) && e.Dequeue?
    ensures Inv(Apply(st, e))
  {
    if st.lanes.control.sendQ.main != [] {
      ReleasedInv(st, e.j, Control);
    } else if st.lanes.data.sendQ.main != [] {
      ReleasedInv(st, e.j, Data);
    } else {
      PcChange(st, e.j, if st.senders[e.j].pc == Asking then Blocked else Top, st.failed);
    }
  }

  lemma InsertedHolds(sent: seq<Segment>, seg: Segment, stream: seq<Segment>)
    requires Ascending(sent) && AllGenuine(sent, stream) && Genuine(seg, stream)
    ensures Ascending(SentList.Inserted(sent, seg)) && AllGenuine(SentList.Inserted(sent, seg), stream)
    ensures seg in SentList.Inserted(sent, seg)
    ensures forall x :: x in sent ==> x in SentList.Inserted(sent, seg)
  {
    SentList.InsertedIs(sent, seg);
    if HasNo(sent, seg.no) {
      var i :| 0 <= i < |sent| && sent[i].no == seg.no;
      assert sent[i] in sent;
    }
  }

  lemma FileSentInv(st: State, e: Event)
    requires Inv(st) && Enabled(st, e) && e.FileSent?
    ensures Inv(Apply(st, e))
  {
    var seg := st.senders[e.j].pc.seg;
    var c := seg.cls;
    var lane, other := st.lanes.At(c), st.lanes.At(Other(c));
    var st' := Apply(st, e);
    var lane' := lane.(sent := SentList.Inserted(lane.sent, seg));
    assert HeldSeg(st.senders[e.j].pc) == Some(seg);
    InsertedHolds(lane.sent, seg, lane.stream);
    HeldAfter(st.senders, e.j, Top);
    KeptMoves(st.failed, st.senders, st.failed, st'.senders, lane, lane');
    OtherClassUnheld(st, e.j, other);
    Assemble(st, c, lane', st');
  }

  /** Filing a segment of one class away takes nothing from the other class. */
  lemma OtherClassUnheld(st: State, j: nat, other: Lane)
    requires Inv(st) && j < |st.senders| && st.senders[j].pc.Transmitted?
    requires other == st.lanes.At(Other(st.senders[j].pc.seg.cls))
    ensures KeptOk(st.failed, st.senders[j := st.senders[j].(pc := Top)], other)
  {
    HeldAfter(st.senders, j, Top);
    var after := st.senders[j := st.senders[j].(pc := Top)];
    forall n | 0 <= n < other.released && n < |other.stream| ensures Kept(st.failed, after, other, other.stream[n]) {
      assert Kept(st.failed, st.senders, other, other.stream[n]);
      assert other.stream[n].cls != st.senders[j].pc.seg.cls;
    }
  }

  // --- Channel and receiver ---

  lemma DeliverInv(st: State, e: Event)
    requires Inv(st) && Enabled(st, e) && e.Deliver?
    ensures Inv(Apply(st, e))
  {
    var c := e.seg.cls;
    var lane := st.lanes.At(c);
    assert Real(st.lanes, e.seg);
    AndroidQueue.ReceivedSafe(lane.recv, e.seg, lane.taken, lane.stream);
    var lane' := lane.(recv := AndroidQueue.Received(lane.recv, e.seg));
    KeptGrows(st.failed, st.senders, lane, lane');
    Assemble(st, c, lane', Apply(st, e));
  }

  lemma TakeInv(st: State, e: Event)
    requires Inv(st) && Enabled(st, e) && e.Take?
    ensures Inv(Apply(st, e))
  {
    var lane := st.lanes.At(e.cls);
    var recv := lane.recv;
    assert lane.taken + [recv.main[0]] + recv.main[1..] == lane.taken + recv.main;
    var lane' := lane.(recv := recv.(main := recv.main[1..]), taken := lane.taken + [recv.main[0]]);
    KeptGrows(st.failed, st.senders, lane, lane');
    Assemble(st, e.cls, lane', Apply(st, e));
  }

  lemma LoseInv(st: State, e: Event)
    requires Inv(st) && Enabled(st, e) && (e.Lose? || e.LoseNotice?)
    ensures Inv(Apply(st, e))
  {
    var st' := Apply(st, e);
    assert LaneInv(st', Data) && LaneInv(st', Control);
  }

  // --- Notices ---

  lemma NotifyInv(st: State, e: Event)
    requires Inv(st) && Enabled(st, e) && e.NotifyStatus?
    ensures Inv(Apply(st, e))
  {
    var st' := Apply(st, e);
    assert LaneInv(st', Data) && LaneInv(st', Control);
  }

  lemma RequestGapsInv(st: State, e: Event)
    requires Inv(st) && Enabled(st, e) && e.RequestGaps?
    ensures Inv(Apply(st, e))
  {
    var st' := Apply(st, e);
    var lane := st.lanes.At(e.cls);
    AndroidQueue.Recovery(lane.recv, lane.stream);
    assert LaneInv(st', Data) && LaneInv(st', Control);
  }

  lemma FreedLane(failed: seq<Segment>, senders: seq<Sender>, lane: Lane, c: Class, last: nat)
    requires LaneOk(lane, c) && last < lane.recv.expected && KeptOk(failed, senders, lane)
    ensures LaneOk(Freed(lane, last), c) && KeptOk(failed, senders, Freed(lane, last))
  {
    SentList.FreedIs(lane.sent, last);
    KeptMoves(failed, senders, failed, senders, lane, Freed(lane, last));
  }

  lemma OnNoticeInv(st: State, e: Event)
    requires Inv(st) && Enabled(st, e) && e.OnNotice?
    ensures Inv(Apply(st, e))
  {
    var st' := Apply(st, e);
    assert NoticeOk(st.lanes, e.n);
    match e.n
    case QueueStatus(lc, ld) =>
      FreedLane(st.failed, st.senders, st.lanes.data, Data, ld);
      FreedLane(st.failed, st.senders, st.lanes.control, Control, lc);
      assert LaneInv(st', Data) && LaneInv(st', Control);
      assert forall x :: Real(st'.lanes, x) <==> Real(st.lanes, x);
    case Retransmit(c, r) =>
      SentList.InRangeIs(st.lanes.At(c).sent, r.first, r.last);
      KeptMoves(st.failed, st.senders, st'.failed, st.senders, st.lanes.data, st.lanes.data);
      KeptMoves(st.failed, st.senders, st'.failed, st.senders, st.lanes.control, st.lanes.control);
      assert LaneInv(st', Data) && LaneInv(st', Control);
  }

  /** The invariant is inductive. */
  lemma StepKeepsInv(st: State, e: Event)
    requires Inv(st) && Enabled(st, e)
    ensures Inv(Apply(st, e))
  {
    match e
    case Reserve(i, c, m) => ReserveInv(st, i, c, m);
    case EnqueueOne(_) => EnqueueOneInv(st, e);
    case Dequeue(_) => DequeueInv(st, e);
    case SendSucceeds(_) => SendSucceedsInv(st, e);
    case FileSent(_) => FileSentInv(st, e);
    case Order(_, _) => OrderInv(st, e);
    case WakeWaiting => OrderInv(st, e);
    case Closed(_) => OrderInv(st, e);
    case Deliver(_, _) => DeliverInv(st, e);
    case Lose(_) => LoseInv(st, e);
    case LoseNotice(_) => LoseInv(st, e);
    case Take(_) => TakeInv(st, e);
    case NotifyStatus => NotifyInv(st, e);
    case RequestGaps(_) => RequestGapsInv(st, e);
    case OnNotice(_) => OnNoticeInv(st, e);
    case CheckPaused(_) => SenderInv(st, e);
    case PopFailed(_) => SenderInv(st, e);
    case Recheck(_) => SenderInv(st, e);
    case SendFails(_, _) => SendFailsInv(st, e);
  }
}
