/**
 * How far Android gets without a next message, and without anybody's help. The receiver notices a gap only when
 * something behind it arrives, so the loss of the last segments stays; and a sender waiting in dequeue is not told of a
 * retransmission.
 */
module TransportTail {
  import opened Segments
  import opened Segmentation
  import opened PacketStream
  import opened Transport
  import opened TransportSteps
  import opened TransportRuns
  import opened TransportRecovery
  import opened TransportLiveness
  import opened TransportDelivery
  import AndroidQueue
  import SentList

  // --- Without a next message ---

  predicate Reserves(e: Event, c: Class) {
    e.Reserve? && e.cls == c
  }

  ghost predicate NoReserve(events: seq<Event>, c: Class) {
    forall k :: 0 <= k < |events| ==> !Reserves(events[k], c)
  }

  /** Nothing of class `c` is under way or can be asked for. */
  ghost predicate Silent(st: State, c: Class) {
    && st.lanes.At(c).recv.pending == []
    && st.lanes.At(c).sendQ.main == [] && st.lanes.At(c).sendQ.pending == []
    && (forall i :: 0 <= i < |st.producers| && st.producers[i].Sending? ==> st.producers[i].cls != c)
    && NoneHolds(st.senders, c)
    && (forall s :: s in st.failed ==> s.cls != c)
    && (forall s :: s in st.wire ==> s.cls != c)
    && (forall n :: n in st.notices && n.Retransmit? ==> n.cls != c)
  }

  ghost predicate NoneHolds(senders: seq<Sender>, c: Class) {
    forall j :: 0 <= j < |senders| && HeldSeg(senders[j].pc).Some? ==> HeldSeg(senders[j].pc).value.cls != c
  }

  /** Nothing of class `c` is under way yet, and its receive queue is as it was. */
  ghost predicate StaysSilent(st: State, st': State, c: Class) {
    Silent(st', c) && st'.lanes.At(c).recv.expected == st.lanes.At(c).recv.expected
  }

  lemma RetransmittedClass(lane: Lane, d: Class, first: nat, last: nat)
    requires LaneOk(lane, d)
    ensures forall s :: s in SentList.InRange(lane.sent, first, last) ==> s.cls == d
  {
    SentList.InRangeIs(lane.sent, first, last);
  }

  lemma FirstOfMain(lane: Lane, d: Class)
    requires LaneOk(lane, d) && lane.sendQ.main != []
    ensures lane.sendQ.main[0].cls == d
  {
    assert lane.stream[lane.released..lane.sendQ.expected][0] == lane.stream[lane.released];
  }

  lemma SilentDequeue(st: State, e: Event, c: Class)
    requires Inv(st) && Enabled(st, e) && Silent(st, c) && e.Dequeue?
    ensures StaysSilent(st, Apply(st, e), c)
  {
    hide LaneOk;
    Disassemble(st, Control);
    if st.lanes.control.sendQ.main != [] {
      FirstOfMain(st.lanes.control, Control);
    } else if st.lanes.data.sendQ.main != [] {
      FirstOfMain(st.lanes.data, Data);
    }
    hide Inv, LaneInv;
  }

  lemma SilentProducing(st: State, e: Event, c: Class)
    requires Enabled(st, e) && Silent(st, c) && !Reserves(e, c) && (e.Reserve? || e.EnqueueOne?)
    ensures StaysSilent(st, Apply(st, e), c)
  {
  }

  lemma SilentFetching(st: State, e: Event, c: Class)
    requires Enabled(st, e) && Silent(st, c) && (e.CheckPaused? || e.PopFailed? || e.Recheck?)
    ensures StaysSilent(st, Apply(st, e), c)
  {
  }

  lemma SilentTransmitting(st: State, e: Event, c: Class)
    requires Enabled(st, e) && Silent(st, c) && (e.SendFails? || e.SendSucceeds? || e.FileSent?)
    ensures StaysSilent(st, Apply(st, e), c)
  {
  }

  lemma SilentCommanded(st: State, e: Event, c: Class)
    requires Enabled(st, e) && Silent(st, c) && (e.Order? || e.Closed? || e.WakeWaiting?)
    ensures StaysSilent(st, Apply(st, e), c)
  {
  }

  lemma SilentReceiving(st: State, e: Event, c: Class)
    requires Enabled(st, e) && Silent(st, c) && (e.Deliver? || e.Lose? || e.Take?)
    ensures StaysSilent(st, Apply(st, e), c)
  {
  }

  lemma SilentNotifying(st: State, e: Event, c: Class)
    requires Enabled(st, e) && Silent(st, c) && (e.NotifyStatus? || e.RequestGaps? || e.LoseNotice?)
    ensures StaysSilent(st, Apply(st, e), c)
  {
  }

  lemma SilentOnNotice(st: State, e: Event, c: Class)
    requires Inv(st) && Enabled(st, e) && Silent(st, c) && e.OnNotice?
    ensures StaysSilent(st, Apply(st, e), c)
  {
    hide LaneOk, SentList.InRange, SentList.Freed;
    if e.n.Retransmit? {
      Disassemble(st, e.n.cls);
      RetransmittedClass(st.lanes.At(e.n.cls), e.n.cls, e.n.range.first, e.n.range.last);
    }
    hide Inv, LaneInv;
  }

  lemma SilentStays(st: State, e: Event, c: Class)
    requires Inv(st) && Enabled(st, e) && Silent(st, c) && !Reserves(e, c)
    ensures StaysSilent(st, Apply(st, e), c)
  {
    hide Apply, Enabled, Silent, Inv, StaysSilent;
    match e {
      case OnNotice(_) => SilentOnNotice(st, e, c);
      case Dequeue(_) => SilentDequeue(st, e, c);
      case Reserve(_, _, _) => SilentProducing(st, e, c);
      case EnqueueOne(_) => SilentProducing(st, e, c);
      case CheckPaused(_) => SilentFetching(st, e, c);
      case PopFailed(_) => SilentFetching(st, e, c);
      case Recheck(_) => SilentFetching(st, e, c);
      case SendFails(_, _) => SilentTransmitting(st, e, c);
      case SendSucceeds(_) => SilentTransmitting(st, e, c);
      case FileSent(_) => SilentTransmitting(st, e, c);
      case Order(_, _) => SilentCommanded(st, e, c);
      case Closed(_) => SilentCommanded(st, e, c);
      case WakeWaiting => SilentCommanded(st, e, c);
      case Deliver(_, _) => SilentReceiving(st, e, c);
      case Lose(_) => SilentReceiving(st, e, c);
      case Take(_) => SilentReceiving(st, e, c);
      case _ => SilentNotifying(st, e, c);
    }
  }

  /** When nothing of a class is under way or pending, no run without a new message of it moves its wanted number. */
  lemma {:induction false} SilentForever(st: State, events: seq<Event>, c: Class)
    requires Inv(st) && ValidRun(st, events) && Silent(st, c) && NoReserve(events, c)
    ensures Exec(st, events).lanes.At(c).recv.expected == st.lanes.At(c).recv.expected
    decreases |events|
  {
    if events != [] {
      assert !Reserves(events[0], c);
      assert forall k :: 0 <= k < |events| - 1 ==> events[1..][k] == events[k + 1];
      SilentStays(st, events[0], c);
      StepKeepsInv(st, events[0]);
      hide Inv, Apply, Enabled, Silent;
      SilentForever(Apply(st, events[0]), events[1..], c);
    }
  }

  lemma NoReserveConcat(a: seq<Event>, b: seq<Event>, c: Class)
    requires NoReserve(a, c) && NoReserve(b, c)
    ensures NoReserve(a + b, c)
  {
  }

  /** Linux is quiet and nothing is in the channel, in either direction. */
  ghost predicate AllQuiet(st: State) {
    Quiet(st) && st.wire == {} && st.notices == {}
  }

  /** A run without a new message of class `c` that moves the wanted number on. */
  ghost predicate GetsFurther(st: State, events: seq<Event>, c: Class) {
    && ValidRun(st, events) && NoReserve(events, c)
    && Exec(st, events).lanes.At(c).recv.expected > st.lanes.At(c).recv.expected
  }

  lemma PendingIsAhead(st: State, c: Class)
    requires Reachable(st) && st.lanes.At(c).recv.pending != []
    ensures var q := st.lanes.At(c).recv; AndroidQueue.ScanEnd(q.expected, q.pending) > q.expected
  {
    ReachableInv(st);
    Disassemble(st, c);
    var q := st.lanes.At(c).recv;
    AndroidQueue.ScanEndIsMax(q.expected, q.pending);
    assert q.pending[0].no > q.expected;
  }

  lemma AloneReservesNothing(events: seq<Event>, c: Class)
    requires Alone(events)
    ensures NoReserve(events, c)
  {
    assert forall k :: 0 <= k < |events| && LeftAlone(events[k]) ==> !Reserves(events[k], c);
  }

  lemma SideReservesNothing(st: State, events: seq<Event>, c: Class)
    requires SideRun(st, events)
    ensures NoReserve(events, c)
  {
    assert forall k :: 0 <= k < |events| && OnSendSide(events[k]) ==> !Reserves(events[k], c);
  }

  /** A sender that is fetching recovers what is pending. */
  lemma BroughtUpGetsFurther(st: State, up: seq<Event>, j: nat, c: Class)
    requires Reachable(st) && st.lanes.At(c).recv.pending != [] && BroughtUp(st, up, j)
    ensures exists events :: GetsFurther(st, events, c)
  {
    hide Reachable, Inv, ValidRun, Exec, SideRun, Works, Coming, Alone, NoReserve, AndroidQueue.ScanEnd, Fetching;
    PendingIsAhead(st, c);
    ReachableInv(st);
    SideIsValid(st, up);
    var mid := Exec(st, up);
    SideRunForwards(st, up);
    ReachableExtends(st, up);
    FetchingWorks(mid, j);
    RecoveryRun(mid, c, j);
    var rest :| RecoversAlone(mid, rest, c);
    RunConcat(st, up, rest);
    SideReservesNothing(st, up, c);
    AloneReservesNothing(rest, c);
    NoReserveConcat(up, rest, c);
    assert GetsFurther(st, up + rest, c);
  }

  lemma ComingGetsFurther(st: State, c: Class, j: nat)
    requires Reachable(st) && st.lanes.At(c).recv.pending != [] && j < |st.senders| && CanCome(st, j)
    ensures exists events :: GetsFurther(st, events, c)
  {
    hide *;
    BringUpExactly(st);
    var up, k: nat :| BroughtUp(st, up, k);
    BroughtUpGetsFurther(st, up, k, c);
  }

  const PROBE: Message := Message(0, [])

  /** A message of the other class makes its producer one who will notify. */
  lemma OtherMessageNotifies(st: State, c: Class, j: nat)
    requires Reachable(st) && Quiet(st) && st.lanes.At(c).recv.pending != []
    requires j < |st.senders| && !Broken(st.senders[j])
    ensures var e := Reserve(0, Other(c), PROBE);
      && Enabled(st, e) && Reachable(Apply(st, e)) && Apply(st, e).lanes.At(c) == st.lanes.At(c)
      && Apply(st, e).senders == st.senders && CanCome(Apply(st, e), j)
  {
    var e := Reserve(0, Other(c), PROBE);
    ReachableInv(st);
    ReachableAttended(st);
    Disassemble(st, c);
    assert st.lanes.At(c).recv.pending[0] in st.lanes.At(c).recv.pending;
    assert st.lanes.At(c).stream != [];
    hide Inv, LaneInv, LaneOk, Attended;
    assert Enabled(st, e) && Apply(st, e).producers[0].Sending?;
    StepReachable(st, e);
  }

  lemma PendingGetsFurther(st: State, c: Class, j: nat)
    requires Reachable(st) && Quiet(st) && st.lanes.At(c).recv.pending != []
    requires j < |st.senders| && !Broken(st.senders[j])
    ensures exists events :: GetsFurther(st, events, c)
  {
    var e := Reserve(0, Other(c), PROBE);
    hide Reachable, Quiet, Broken, CanCome, Enabled, Apply, Exec, ValidRun;
    OtherMessageNotifies(st, c, j);
    ComingGetsFurther(Apply(st, e), c, j);
    var rest :| GetsFurther(Apply(st, e), rest, c);
    RunCons(st, e, rest);
    assert GetsFurther(st, [e] + rest, c);
  }

  /** A quiet system has a sender that has not broken off: the last one to do so would have left a failed segment. */
  lemma QuietHasUnbroken(st: State) returns (j: nat)
    requires Reachable(st) && Quiet(st) && st.senders != []
    ensures j < |st.senders| && !Broken(st.senders[j])
  {
    ReachableAttended(st);
    j :| 0 <= j < |st.senders| && !Broken(st.senders[j]);
  }

  lemma QuietIn(st: State)
    requires AllQuiet(st)
    ensures Quiet(st)
  {
  }

  lemma QuietIsSilent(st: State, c: Class)
    requires AllQuiet(st) && st.lanes.At(c).recv.pending == []
    ensures Silent(st, c)
  {
  }

  lemma SilentGetsNoFurther(st: State, c: Class)
    requires Reachable(st) && Silent(st, c)
    ensures forall events :: !GetsFurther(st, events, c)
  {
    ReachableInv(st);
    hide Silent, Inv, Reachable;
    forall events | ValidRun(st, events) && NoReserve(events, c) ensures !GetsFurther(st, events, c) {
      SilentForever(st, events, c);
    }
  }

  /**
   * When all is quiet, Android can get further without a new message of the class exactly if it holds something out of
   * order, wherever the senders stand in their loops and whatever their adapters do: the loss of the last segments is
   * never noticed.
   */
  lemma TailLossExactly(st: State, c: Class)
    requires Reachable(st) && AllQuiet(st) && st.senders != []
    ensures st.lanes.At(c).recv.pending != [] <==> exists events :: GetsFurther(st, events, c)
  {
    hide Reachable, AllQuiet, Silent, GetsFurther, Quiet, Broken;
    if st.lanes.At(c).recv.pending == [] {
      QuietIsSilent(st, c);
      SilentGetsNoFurther(st, c);
    } else {
      assert Quiet(st) by { QuietIn(st); }
      var j := QuietHasUnbroken(st);
      PendingGetsFurther(st, c, j);
    }
  }

  // --- Without a message or a command ---

  /** Nothing is on the wire, and nobody can go on. */
  ghost predicate Dead(st: State) {
    NobodyWorks(st) && st.wire == {}
  }

  lemma DeadStays(st: State, e: Event, c: Class)
    requires Dead(st) && Enabled(st, e) && LeftAlone(e)
    ensures Dead(Apply(st, e)) && Apply(st, e).lanes.At(c).recv.expected == st.lanes.At(c).recv.expected
  {
    NobodyWorksStays(st, e);
    assert e.SendSucceeds? ==> Works(st, st.senders[e.j]);
  }

  lemma {:induction false} DeadForever(st: State, events: seq<Event>, c: Class)
    requires Dead(st) && ValidRun(st, events) && Alone(events)
    ensures Exec(st, events).lanes.At(c).recv.expected == st.lanes.At(c).recv.expected
    decreases |events|
  {
    if events != [] {
      assert LeftAlone(events[0]);
      assert forall k :: 0 <= k < |events| - 1 ==> events[1..][k] == events[k + 1];
      DeadStays(st, events[0], c);
      DeadForever(Apply(st, events[0]), events[1..], c);
    }
  }

  ghost predicate GetsFurtherAlone(st: State, events: seq<Event>, c: Class) {
    GetsFurther(st, events, c) && Alone(events)
  }

  lemma QuietIsDead(st: State)
    requires AllQuiet(st) && NobodyWorks(st)
    ensures Dead(st)
  {
  }

  lemma DeadGetsNoFurther(st: State, c: Class)
    requires Dead(st)
    ensures forall events :: !GetsFurtherAlone(st, events, c)
  {
    hide Dead;
    forall events | ValidRun(st, events) && Alone(events) ensures !GetsFurther(st, events, c) {
      DeadForever(st, events, c);
    }
  }

  lemma WorkerGetsFurther(st: State, c: Class, j: nat)
    requires Reachable(st) && st.lanes.At(c).recv.pending != [] && j < |st.senders| && Works(st, st.senders[j])
    ensures exists events :: GetsFurtherAlone(st, events, c)
  {
    hide Reachable, Works, ValidRun, Exec, Alone, NoReserve, AndroidQueue.ScanEnd;
    PendingIsAhead(st, c);
    RecoveryRun(st, c, j);
    var events :| RecoversAlone(st, events, c);
    AloneReservesNothing(events, c);
    assert GetsFurtherAlone(st, events, c);
  }

  /**
   * Left alone, with neither message nor command, Android gets further from there exactly if it holds something out of
   * order and some sender in its loop has an active adapter and does not wait in dequeue without anyone to notify it.
   */
  lemma RetransmissionExactly(st: State, c: Class)
    requires Reachable(st) && AllQuiet(st)
    ensures (exists events :: GetsFurtherAlone(st, events, c))
       <==> st.lanes.At(c).recv.pending != [] && exists j :: 0 <= j < |st.senders| && Works(st, st.senders[j])
  {
    hide Reachable, AllQuiet, Silent, GetsFurther, Works, Dead;
    if st.lanes.At(c).recv.pending == [] {
      QuietIsSilent(st, c);
      SilentGetsNoFurther(st, c);
    } else if j: nat :| j < |st.senders| && Works(st, st.senders[j]) {
      WorkerGetsFurther(st, c, j);
    } else {
      QuietIsDead(st);
      DeadGetsNoFurther(st, c);
    }
  }
}
