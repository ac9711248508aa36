/**
 * The whole transport as a step system: Linux producers, several sender threads, a channel that loses,
 * repeats and reorders, the Android receive queues, and delayed or lost notices back to Linux.
 */
module Transport {
  import opened Segments
  import opened Segmentation
  import opened PacketStream
  import LinuxQueue
  import AndroidQueue
  import SentList

  // --- State ---

  /**
   * One class of traffic. `next`, `sendQ`, `sent` belong to Linux, `recv` to Android. The rest is history:
   * messages in reservation order, the numbered stream, how many segments left the send queue, what the
   * Android application took, and one past the largest acknowledged number.
   */
  datatype Lane = Lane(next: nat, sendQ: Queue, sent: seq<Segment>, recv: Queue,
                       messages: seq<Message>, stream: seq<Segment>, released: nat,
                       taken: seq<Segment>, acked: nat)

  /** A producer thread with the part `lo..hi` of its reserved block still to be enqueued. */
  datatype Producer = Idle | Sending(cls: Class, lo: nat, hi: nat)

  /**
   * Where a sender thread stands in its loop. Parked: waiting to be resumed. Asking: no failed segment was there,
   * dequeue comes next. Blocked: waiting inside dequeue, with both send queues empty. Woken: notified, about to look at
   * the queues once more.
   */
  datatype Pc =
    | Top | Parked | Ready | Asking | Blocked | Woken | Exited
    | Holding(seg: Segment) | Cleared(seg: Segment) | Transmitted(seg: Segment)

  /** A sender's adapter. Sleeping: the loop is paused, and the adapter sleeps once the sender has parked. */
  datatype Adapter = Disconnected | Active | Sleeping | Disconnecting

  datatype Sender = Sender(pc: Pc, adapter: Adapter)

  datatype Command = Connect | Sleep | WakeUp | Disconnect

  datatype Notice = QueueStatus(lastControl: nat, lastData: nat) | Retransmit(cls: Class, range: AndroidQueue.Range)

  /** `owed` counts the pauses that have still to notify the waiting senders. */
  datatype State = State(lanes: PerClass<Lane>, failed: seq<Segment>, producers: seq<Producer>,
                         senders: seq<Sender>, owed: nat, wire: set<Segment>, notices: set<Notice>)

  datatype Event =
    | Reserve(i: nat, cls: Class, m: Message)
    | EnqueueOne(i: nat)
    | CheckPaused(j: nat)
    | PopFailed(j: nat)
    | Dequeue(j: nat)
    | Recheck(j: nat)
    | SendFails(j: nat, ends: bool)
    | SendSucceeds(j: nat)
    | FileSent(j: nat)
    | Order(j: nat, command: Command)
    | WakeWaiting
    | Closed(j: nat)
    | Deliver(seg: Segment, again: bool)
    | Lose(seg: Segment)
    | Take(cls: Class)
    | NotifyStatus
    | RequestGaps(cls: Class)
    | OnNotice(n: Notice)
    | LoseNotice(n: Notice)

  const EMPTY_LANE: Lane := Lane(0, EMPTY_QUEUE, [], EMPTY_QUEUE, [], [], 0, [], 0)

  function Init(numProducers: nat, numSenders: nat): State {
    State(PerClass(EMPTY_LANE, EMPTY_LANE), [], seq(numProducers, _ => Idle),
          seq(numSenders, _ => Sender(Exited, Disconnected)), 0, {}, {})
  }

  // --- Commands to an adapter ---

  /** What the adapter does not reject. Only a sender that has parked can be woken up or disconnected. */
  predicate Allowed(s: Sender, command: Command) {
    match command
    case Connect => s == Sender(Exited, Disconnected)
    case Sleep => s.adapter == Active
    case WakeUp => s.pc == Parked
    case Disconnect => s.pc == Parked
  }

  function Ordered(s: Sender, command: Command): Sender {
    match command
    case Connect => Sender(Top, Active)
    case Sleep => s.(adapter := Sleeping)
    case WakeUp => Sender(Ready, Active)
    case Disconnect => Sender(Ready, Disconnecting)
  }

  /** What the sender does at the top of its loop: go on, park, or leave because its loop is disabled. */
  function AtTop(adapter: Adapter): Pc {
    if adapter == Active then Ready else if adapter == Sleeping then Parked else Exited
  }

  // --- Steps ---

  predicate Enabled(st: State, e: Event) {
    match e
    case Reserve(i, _, m) =>
      i < |st.producers| && st.producers[i] == Idle && m.id < 0x1_0000 && |m.payload| < 0x8000_0000
    case EnqueueOne(i) =>
      i < |st.producers| && st.producers[i].Sending? && st.producers[i].lo < |st.lanes.At(st.producers[i].cls).stream|
    case CheckPaused(j) => j < |st.senders| && st.senders[j].pc == Top
    case PopFailed(j) => j < |st.senders| && st.senders[j].pc == Ready
    case Dequeue(j) => j < |st.senders| && (st.senders[j].pc == Asking || st.senders[j].pc == Woken)
    case Recheck(j) => j < |st.senders| && st.senders[j].pc.Holding?
    case SendFails(j, ends) =>
      j < |st.senders| && st.senders[j].pc.Cleared? && (st.senders[j].adapter == Disconnecting ==> ends)
    case SendSucceeds(j) => j < |st.senders| && st.senders[j].pc.Cleared? && st.senders[j].adapter == Active
    case FileSent(j) => j < |st.senders| && st.senders[j].pc.Transmitted?
    case Order(j, command) => j < |st.senders| && Allowed(st.senders[j], command)
    case WakeWaiting => st.owed > 0
    case Closed(j) => j < |st.senders| && st.senders[j] == Sender(Exited, Disconnecting)
    case Deliver(seg, _) => seg in st.wire
    case Lose(seg) => seg in st.wire
    case Take(c) => st.lanes.At(c).recv.main != []
    case NotifyStatus => st.lanes.data.recv.expected > 0 && st.lanes.control.recv.expected > 0
    case RequestGaps(c) => true
    case OnNotice(n) => n in st.notices
    case LoseNotice(n) => n in st.notices
  }

  function WithLane(st: State, c: Class, lane: Lane): State {
    st.(lanes := st.lanes.With(c, lane))
  }

  function WithPc(st: State, j: nat, pc: Pc): State
    requires j < |st.senders|
  {
    st.(senders := st.senders[j := st.senders[j].(pc := pc)])
  }

  /** The head of the send queue of class `c` goes to sender `j`. */
  function Released(st: State, j: nat, c: Class): State
    requires j < |st.senders| && st.lanes.At(c).sendQ.main != []
  {
    var lane := st.lanes.At(c);
    WithPc(WithLane(st, c, lane.(sendQ := lane.sendQ.(main := lane.sendQ.main[1..]), released := lane.released + 1)),
           j, Holding(lane.sendQ.main[0]))
  }

  /** notify_all: every waiting sender will look at the queues again. */
  function WakeAll(senders: seq<Sender>): (woken: seq<Sender>)
    ensures |woken| == |senders|
  {
    seq(|senders|, k requires 0 <= k < |senders| =>
      if senders[k].pc == Blocked then senders[k].(pc := Woken) else senders[k])
  }

  function Advanced(p: Producer): Producer
    requires p.Sending?
  {
    if p.lo + 1 >= p.hi then Idle else p.(lo := p.lo + 1)
  }

  function Freed(lane: Lane, last: nat): Lane {
    lane.(sent := SentList.Freed(lane.sent, last), acked := if last + 1 > lane.acked then last + 1 else lane.acked)
  }

  function Apply(st: State, e: Event): State
    requires Enabled(st, e)
  {
    match e
    case Reserve(i, c, m) =>
      var lane := st.lanes.At(c);
      var bytes := Serialize(m);
      var n := NumSegments(|bytes|);
      WithLane(st, c, lane.(next := lane.next + n, messages := lane.messages + [m],
                            stream := lane.stream + Fragment(c, lane.next, bytes)))
      .(producers := st.producers[i := Sending(c, lane.next, lane.next + n)])
    case EnqueueOne(i) =>
      var p := st.producers[i];
      var lane := st.lanes.At(p.cls);
      var q := LinuxQueue.Enqueued(lane.sendQ, lane.stream[p.lo]);
      WithLane(st, p.cls, lane.(sendQ := q))
      .(producers := st.producers[i := Advanced(p)],
        senders := if q.expected > lane.sendQ.expected then WakeAll(st.senders) else st.senders)
    case CheckPaused(j) => WithPc(st, j, AtTop(st.senders[j].adapter))
    case PopFailed(j) =>
      if st.failed == [] then WithPc(st, j, Asking)
      else WithPc(st, j, Holding(st.failed[0])).(failed := st.failed[1..])
    case Dequeue(j) =>
      if st.lanes.control.sendQ.main != [] then Released(st, j, Control)
      else if st.lanes.data.sendQ.main != [] then Released(st, j, Data)
      else WithPc(st, j, if st.senders[j].pc == Asking then Blocked else Top)
    case Recheck(j) =>
      var seg := st.senders[j].pc.seg;
      if st.senders[j].adapter == Sleeping then WithPc(st, j, Top).(failed := st.failed + [seg])
      else WithPc(st, j, Cleared(seg))
    case SendFails(j, ends) =>
      WithPc(st, j, if ends then Exited else Top).(failed := st.failed + [st.senders[j].pc.seg])
    case SendSucceeds(j) =>
      var seg := st.senders[j].pc.seg;
      WithPc(st, j, Transmitted(seg)).(wire := st.wire + {seg})
    case FileSent(j) =>
      var seg := st.senders[j].pc.seg;
      var lane := st.lanes.At(seg.cls);
      WithPc(WithLane(st, seg.cls, lane.(sent := SentList.Inserted(lane.sent, seg))), j, Top)
    case Order(j, command) =>
      st.(senders := st.senders[j := Ordered(st.senders[j], command)],
          owed := st.owed + if command == Sleep then 1 else 0)
    case WakeWaiting => st.(senders := WakeAll(st.senders), owed := st.owed - 1)
    case Closed(j) => st.(senders := st.senders[j := Sender(Exited, Disconnected)])
    case Deliver(seg, again) =>
      var lane := st.lanes.At(seg.cls);
      WithLane(st, seg.cls, lane.(recv := AndroidQueue.Received(lane.recv, seg)))
      .(wire := if again then st.wire else st.wire - {seg})
    case Lose(seg) => st.(wire := st.wire - {seg})
    case Take(c) =>
      var lane := st.lanes.At(c);
      WithLane(st, c, lane.(recv := lane.recv.(main := lane.recv.main[1..]), taken := lane.taken + [lane.recv.main[0]]))
    case NotifyStatus =>
      st.(notices := st.notices + {QueueStatus(st.lanes.control.recv.expected - 1, st.lanes.data.recv.expected - 1)})
    case RequestGaps(c) =>
      st.(notices := st.notices + set r | r in AndroidQueue.Gaps(st.lanes.At(c).recv) :: Retransmit(c, r))
    case OnNotice(n) =>
      (match n
       case QueueStatus(lastControl, lastData) =>
         st.(lanes := PerClass(Freed(st.lanes.data, lastData), Freed(st.lanes.control, lastControl)))
       case Retransmit(c, r) =>
         st.(failed := st.failed + SentList.InRange(st.lanes.At(c).sent, r.first, r.last)))
    case LoseNotice(n) => st.(notices := st.notices - {n})
  }

  // --- Invariant ---

  /** The send queue has released exactly the first `released` segments and holds the next ones in order. */
  ghost predicate OnStream(q: Queue, released: nat, stream: seq<Segment>) {
    && released <= q.expected <= |stream|
    && q.main == stream[released..q.expected]
    && Ascending(q.pending) && AllGenuine(q.pending, stream)
    && (q.pending != [] ==> q.pending[0].no > q.expected)
  }

  /** `n` has been enqueued. */
  ghost predicate Covered(q: Queue, n: nat) {
    n < q.expected || HasNo(q.pending, n)
  }

  ghost predicate OfClass(stream: seq<Segment>, c: Class) {
    forall i :: 0 <= i < |stream| ==> stream[i].no == i && stream[i].cls == c
  }

  ghost predicate LaneOk(lane: Lane, c: Class) {
    && AllValid(lane.messages) && lane.stream == Stream(c, 0, lane.messages)
    && lane.next == |lane.stream| && OfClass(lane.stream, c)
    && OnStream(lane.sendQ, lane.released, lane.stream)
    && Ascending(lane.sent) && AllGenuine(lane.sent, lane.stream)
    && AndroidQueue.Safe(lane.recv, lane.taken, lane.stream)
    && lane.acked <= lane.recv.expected
  }

  ghost predicate Owns(p: Producer, c: Class, n: nat) {
    p.Sending? && p.cls == c && p.lo <= n < p.hi
  }

  /** Each reserved number is enqueued or still with exactly one producer. */
  ghost predicate ProducersOk(producers: seq<Producer>, c: Class, q: Queue, next: nat) {
    && (forall i :: 0 <= i < |producers| && producers[i].Sending? && producers[i].cls == c ==>
          producers[i].lo < producers[i].hi <= next)
    && (forall i, n :: 0 <= i < |producers| && Owns(producers[i], c, n) ==> !Covered(q, n))
    && (forall i, j, n :: 0 <= i < j < |producers| ==> !(Owns(producers[i], c, n) && Owns(producers[j], c, n)))
    && (forall n :: 0 <= n < next ==> Covered(q, n) || exists i :: 0 <= i < |producers| && Owns(producers[i], c, n))
  }

  function HeldSeg(pc: Pc): Option<Segment> {
    match pc
    case Holding(seg) => Some(seg)
    case Cleared(seg) => Some(seg)
    case Transmitted(seg) => Some(seg)
    case _ => None
  }

  ghost predicate IsHeld(senders: seq<Sender>, seg: Segment) {
    exists j :: 0 <= j < |senders| && HeldSeg(senders[j].pc) == Some(seg)
  }

  /** A released segment is failed, held, sent, or acknowledged. */
  ghost predicate Kept(failed: seq<Segment>, senders: seq<Sender>, lane: Lane, seg: Segment) {
    seg in failed || IsHeld(senders, seg) || seg in lane.sent || seg.no < lane.acked
  }

  ghost predicate KeptOk(failed: seq<Segment>, senders: seq<Sender>, lane: Lane) {
    forall n :: 0 <= n < lane.released && n < |lane.stream| ==> Kept(failed, senders, lane, lane.stream[n])
  }

  ghost predicate Real(lanes: PerClass<Lane>, seg: Segment) {
    Genuine(seg, lanes.At(seg.cls).stream)
  }

  ghost predicate FailedOk(lanes: PerClass<Lane>, failed: seq<Segment>) {
    forall s :: s in failed ==> Real(lanes, s)
  }

  ghost predicate WireOk(lanes: PerClass<Lane>, wire: set<Segment>) {
    forall s :: s in wire ==> Real(lanes, s)
  }

  ghost predicate HeldOk(lanes: PerClass<Lane>, senders: seq<Sender>) {
    forall j :: 0 <= j < |senders| && HeldSeg(senders[j].pc).Some? ==> Real(lanes, HeldSeg(senders[j].pc).value)
  }

  ghost predicate NoticeOk(lanes: PerClass<Lane>, n: Notice) {
    match n
    case QueueStatus(lc, ld) => lc < lanes.control.recv.expected && ld < lanes.data.recv.expected
    case Retransmit(c, r) => r.first <= r.last < |lanes.At(c).stream|
  }

  ghost predicate NoticesOk(lanes: PerClass<Lane>, notices: set<Notice>) {
    forall n :: n in notices ==> NoticeOk(lanes, n)
  }

  ghost predicate LaneInv(st: State, c: Class) {
    var lane := st.lanes.At(c);
    && LaneOk(lane, c)
    && ProducersOk(st.producers, c, lane.sendQ, lane.next)
    && KeptOk(st.failed, st.senders, lane)
  }

  ghost predicate Inv(st: State) {
    && LaneInv(st, Data) && LaneInv(st, Control)
    && FailedOk(st.lanes, st.failed) && WireOk(st.lanes, st.wire) && HeldOk(st.lanes, st.senders)
    && NoticesOk(st.lanes, st.notices)
  }

  lemma InitInv(numProducers: nat, numSenders: nat)
    ensures Inv(Init(numProducers, numSenders))
  {
    assert forall c: Class :: Stream(c, 0, []) == [];
    assert LaneOk(EMPTY_LANE, Data) && LaneOk(EMPTY_LANE, Control);
  }

  // --- The send queue on the stream ---

  lemma {:induction false} DrainOnStream(q: Queue, released: nat, stream: seq<Segment>)
    requires Numbered(stream) && released <= q.expected <= |stream| && q.main == stream[released..q.expected]
    requires Ascending(q.pending) && AllGenuine(q.pending, stream)
    requires q.pending != [] ==> q.pending[0].no >= q.expected
    ensures OnStream(LinuxQueue.Drain(q), released, stream)
    ensures forall n :: Covered(LinuxQueue.Drain(q), n) <==> Covered(q, n)
    decreases |q.pending|
  {
    if q.pending != [] && q.pending[0].no == q.expected {
      var h, rest := q.pending[0], q.pending[1..];
      assert h in q.pending;
      assert q.pending == [h] + rest;
      var q' := Queue(q.main + [h], rest, q.expected + 1);
      assert q'.main == stream[released..q'.expected];
      DrainOnStream(q', released, stream);
      forall n ensures Covered(q', n) <==> Covered(q, n) { SentList.NoCons(h, rest, n); }
    }
  }

  lemma EnqueueOnStream(q: Queue, s: Segment, released: nat, stream: seq<Segment>)
    requires Numbered(stream) && OnStream(q, released, stream) && Genuine(s, stream) && !Covered(q, s.no)
    ensures OnStream(LinuxQueue.Enqueued(q, s), released, stream)
    ensures forall n :: Covered(LinuxQueue.Enqueued(q, s), n) <==> Covered(q, n) || n == s.no
  {
    if s.no == q.expected {
      var q' := q.(main := q.main + [s], expected := q.expected + 1);
      assert q'.main == stream[released..q'.expected];
      DrainOnStream(q', released, stream);
    } else {
      LinuxQueue.InsertSortedMembers(q.pending, s);
      LinuxQueue.InsertSortedAscending(q.pending, s);
      var q' := q.(pending := LinuxQueue.InsertSorted(q.pending, s));
      DrainOnStream(q', released, stream);
      forall n ensures HasNo(q'.pending, n) <==> HasNo(q.pending, n) || n == s.no {
        SameNos(q.pending, q'.pending, s, n);
      }
    }
  }

  lemma SameNos(a: seq<Segment>, b: seq<Segment>, s: Segment, n: nat)
    requires forall x :: x in b <==> x in a || x == s
    ensures HasNo(b, n) <==> HasNo(a, n) || n == s.no
  {
    if HasNo(a, n) {
      var i :| 0 <= i < |a| && a[i].no == n;
      assert a[i] in b;
    }
    if HasNo(b, n) {
      var i :| 0 <= i < |b| && b[i].no == n;
      assert b[i] in b;
    }
    assert s in b;
  }
}
