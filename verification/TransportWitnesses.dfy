/** Runs in which the transport does less than one might hope: reachable states with nothing special about them. */
module TransportWitnesses {
  import opened Segments
  import opened Segmentation
  import opened Transport
  import opened TransportSteps
  import opened TransportRuns
  import opened TransportRecovery
  import opened TransportLiveness
  import opened TransportDelivery
  import opened TransportTail
  import opened TransportCopies
  import AndroidQueue
  import LinuxQueue
  import SentList

  // --- One producer, one sender, empty messages ---

  /** The one segment of a probe message that reserves number `n`. */
  function Probe(c: Class, n: nat): Segment {
    SegmentAt(c, n, Serialize(PROBE), 0)
  }

  lemma ProbeIsOneSegment(c: Class, n: nat)
    ensures Fragment(c, n, Serialize(PROBE)) == [Probe(c, n)]
    ensures Probe(c, n).no == n && Probe(c, n).cls == c
  {
  }

  function System(lanes: PerClass<Lane>, failed: seq<Segment>, p: Producer, pc: Pc, wire: set<Segment>,
                  notices: set<Notice>): State {
    State(lanes, failed, [p], [Sender(pc, Active)], 0, wire, notices)
  }

  lemma Step(st: State, e: Event, st': State)
    requires Reachable(st) && Enabled(st, e) && Apply(st, e) == st'
    ensures Reachable(st')
  {
    StepReachable(st, e);
  }

  lemma Started()
    ensures Reachable(System(PerClass(EMPTY_LANE, EMPTY_LANE), [], Idle, Top, {}, {}))
  {
    var st := Init(1, 1);
    assert ValidRun(st, []) && Exec(st, []) == st;
    assert st.producers == [Idle] && st.senders == [Sender(Exited, Disconnected)];
    Step(st, Order(0, Connect), System(PerClass(EMPTY_LANE, EMPTY_LANE), [], Idle, Top, {}, {}));
  }

  /** A lane with its producer and its send queue done, and the same after one more probe was sent. */
  ghost predicate Through(lane: Lane) {
    lane.sendQ == Queue([], [], lane.next) && |lane.stream| == lane.next
  }

  function AfterProbe(lane: Lane, c: Class): Lane {
    var seg := Probe(c, lane.next);
    lane.(next := lane.next + 1, sendQ := Queue([], [], lane.next + 1), messages := lane.messages + [PROBE],
          stream := lane.stream + [seg], released := lane.released + 1, sent := SentList.Inserted(lane.sent, seg))
  }

  lemma EnqueueAlone(n: nat, seg: Segment)
    requires seg.no == n
    ensures LinuxQueue.Enqueued(Queue([], [], n), seg) == Queue([seg], [], n + 1)
  {
  }

  function Reserved(lane: Lane, c: Class): Lane {
    lane.(next := lane.next + 1, messages := lane.messages + [PROBE], stream := lane.stream + [Probe(c, lane.next)])
  }

  lemma ReserveStep(lanes: PerClass<Lane>, c: Class, wire: set<Segment>)
    requires Reachable(System(lanes, [], Idle, Top, wire, {}))
    ensures var lane := lanes.At(c);
      Reachable(System(lanes.With(c, Reserved(lane, c)), [], Sending(c, lane.next, lane.next + 1), Top, wire, {}))
  {
    var n := lanes.At(c).next;
    ProbeIsOneSegment(c, n);
    hide Reachable, SegmentAt, Fragment;
    Step(System(lanes, [], Idle, Top, wire, {}), Reserve(0, c, PROBE),
         System(lanes.With(c, Reserved(lanes.At(c), c)), [], Sending(c, n, n + 1), Top, wire, {}));
  }

  lemma EnqueueStep(lanes: PerClass<Lane>, c: Class, n: nat, wire: set<Segment>)
    requires Reachable(System(lanes, [], Sending(c, n, n + 1), Top, wire, {}))
    requires var lane := lanes.At(c);
      n < |lane.stream| && lane.stream[n].no == n && lane.sendQ == Queue([], [], n)
    ensures var lane := lanes.At(c);
      Reachable(System(lanes.With(c, lane.(sendQ := Queue([lane.stream[n]], [], n + 1))), [], Idle, Top, wire, {}))
  {
    var lane := lanes.At(c);
    EnqueueAlone(n, lane.stream[n]);
    hide Reachable, LinuxQueue.Enqueued;
    Step(System(lanes, [], Sending(c, n, n + 1), Top, wire, {}), EnqueueOne(0),
         System(lanes.With(c, lane.(sendQ := Queue([lane.stream[n]], [], n + 1))), [], Idle, Top, wire, {}));
  }

  lemma AskStep(lanes: PerClass<Lane>, wire: set<Segment>)
    requires Reachable(System(lanes, [], Idle, Top, wire, {}))
    ensures Reachable(System(lanes, [], Idle, Asking, wire, {}))
  {
    hide Reachable;
    Step(System(lanes, [], Idle, Top, wire, {}), CheckPaused(0), System(lanes, [], Idle, Pc.Ready, wire, {}));
    Step(System(lanes, [], Idle, Pc.Ready, wire, {}), PopFailed(0), System(lanes, [], Idle, Asking, wire, {}));
  }

  lemma DequeueStep(lanes: PerClass<Lane>, c: Class, seg: Segment, n: nat, wire: set<Segment>)
    requires Reachable(System(lanes, [], Idle, Asking, wire, {}))
    requires lanes.At(c).sendQ == Queue([seg], [], n) && lanes.At(Other(c)).sendQ.main == []
    ensures var lane := lanes.At(c);
      var gone := lane.(sendQ := Queue([], [], n), released := lane.released + 1);
      Reachable(System(lanes.With(c, gone), [], Idle, Holding(seg), wire, {}))
  {
    var lane := lanes.At(c);
    assert [seg][1..] == [];
    hide Reachable;
    Step(System(lanes, [], Idle, Asking, wire, {}), Dequeue(0),
         System(lanes.With(c, lane.(sendQ := Queue([], [], n), released := lane.released + 1)), [], Idle, Holding(seg),
                wire, {}));
  }

  lemma SendSteps(lanes: PerClass<Lane>, c: Class, seg: Segment, wire: set<Segment>)
    requires Reachable(System(lanes, [], Idle, Holding(seg), wire, {})) && seg.cls == c
    ensures var lane := lanes.At(c);
      var filed := lane.(sent := SentList.Inserted(lane.sent, seg));
      Reachable(System(lanes.With(c, filed), [], Idle, Top, wire + {seg}, {}))
  {
    var lane := lanes.At(c);
    hide Reachable, SentList.Inserted;
    Step(System(lanes, [], Idle, Holding(seg), wire, {}), Recheck(0), System(lanes, [], Idle, Cleared(seg), wire, {}));
    Step(System(lanes, [], Idle, Cleared(seg), wire, {}), SendSucceeds(0),
         System(lanes, [], Idle, Transmitted(seg), wire + {seg}, {}));
    Step(System(lanes, [], Idle, Transmitted(seg), wire + {seg}, {}), FileSent(0),
         System(lanes.With(c, lane.(sent := SentList.Inserted(lane.sent, seg))), [], Idle, Top, wire + {seg}, {}));
  }

  lemma WithTwice(lanes: PerClass<Lane>, c: Class, a: Lane, b: Lane)
    ensures lanes.With(c, a).With(c, b) == lanes.With(c, b) && lanes.With(c, a).At(c) == a
    ensures lanes.With(c, a).At(Other(c)) == lanes.At(Other(c))
  {
  }

  /** The producer reserves and enqueues, the sender goes once around its loop. */
  lemma SendsProbe(lanes: PerClass<Lane>, c: Class, wire: set<Segment>)
    requires Reachable(System(lanes, [], Idle, Top, wire, {})) && Through(lanes.data) && Through(lanes.control)
    ensures var lane := lanes.At(c);
      Reachable(System(lanes.With(c, AfterProbe(lane, c)), [], Idle, Top, wire + {Probe(c, lane.next)}, {}))
  {
    var lane := lanes.At(c);
    var n, seg := lane.next, Probe(c, lane.next);
    ProbeIsOneSegment(c, n);
    hide Reachable, SegmentAt, SentList.Inserted, System, Probe;
    var a := Reserved(lane, c);
    var b := a.(sendQ := Queue([seg], [], n + 1));
    var gone := b.(sendQ := Queue([], [], n + 1), released := lane.released + 1);
    WithTwice(lanes, c, a, b);
    WithTwice(lanes, c, b, gone);
    WithTwice(lanes, c, gone, AfterProbe(lane, c));
    ReserveStep(lanes, c, wire);
    EnqueueStep(lanes.With(c, a), c, n, wire);
    AskStep(lanes.With(c, b), wire);
    DequeueStep(lanes.With(c, b), c, seg, n + 1, wire);
    SendSteps(lanes.With(c, gone), c, seg, wire);
  }

  lemma StartsProbe(c: Class)
    ensures Reachable(System(Lanes(c, AfterProbe(EMPTY_LANE, c)), [], Idle, Top, {Probe(c, 0)}, {}))
  {
    Started();
    hide Reachable, AfterProbe;
    SendsProbe(PerClass(EMPTY_LANE, EMPTY_LANE), c, {});
    assert {} + {Probe(c, 0)} == {Probe(c, 0)};
  }

  /** Only class `c` was ever used. */
  function Lanes(c: Class, lane: Lane): PerClass<Lane> {
    PerClass(EMPTY_LANE, EMPTY_LANE).With(c, lane)
  }

  // --- The only loop breaks off ---

  /** The first send breaks off while the adapter is active: nothing that is sent later ever gets across. */
  lemma BreakingOffHappens(c: Class, m: Message)
    requires ValidMessage(m)
    ensures exists st :: Reachable(st) && DeadEnd(st, c, m)
  {
    var seg, reserved := Probe(c, 0), Reserved(EMPTY_LANE, c);
    var queued := reserved.(sendQ := Queue([seg], [], 1));
    var gone := queued.(sendQ := Queue([], [], 1), released := 1);
    var start := PerClass(EMPTY_LANE, EMPTY_LANE);
    assert start.At(c) == EMPTY_LANE && start.At(Other(c)).sendQ.main == [];
    assert |reserved.stream| == 1 && reserved.stream[0] == seg && reserved.sendQ == Queue([], [], 0);
    ProbeIsOneSegment(c, 0);
    Started();
    WithTwice(start, c, reserved, queued);
    WithTwice(start, c, queued, gone);
    hide *;
    ReserveStep(start, c, {});
    EnqueueStep(start.With(c, reserved), c, 0, {});
    AskStep(start.With(c, queued), {});
    DequeueStep(start.With(c, queued), c, seg, 1, {});
    BreakStep(start.With(c, gone), seg);
    var st := System(start.With(c, gone), [seg], Idle, Exited, {}, {});
    EndsDead(start.With(c, gone), seg, c, m);
  }

  lemma EndsDead(lanes: PerClass<Lane>, seg: Segment, c: Class, m: Message)
    requires ValidMessage(m) && Reachable(System(lanes, [seg], Idle, Exited, {}, {}))
    ensures DeadEnd(System(lanes, [seg], Idle, Exited, {}, {}), c, m)
  {
    hide Reachable, Delivers;
    AlwaysDeliverable(System(lanes, [seg], Idle, Exited, {}, {}), c, 0, m);
  }

  lemma BreakStep(lanes: PerClass<Lane>, seg: Segment)
    requires Reachable(System(lanes, [], Idle, Holding(seg), {}, {}))
    ensures Reachable(System(lanes, [seg], Idle, Exited, {}, {}))
  {
    assert [] + [seg] == [seg];
    hide Reachable;
    Step(System(lanes, [], Idle, Holding(seg), {}, {}), Recheck(0), System(lanes, [], Idle, Cleared(seg), {}, {}));
    Step(System(lanes, [], Idle, Cleared(seg), {}, {}), SendFails(0, true),
         System(lanes, [seg], Idle, Exited, {}, {}));
  }

  /** There are a producer and a sender, and still no continuation delivers one more message. */
  ghost predicate DeadEnd(st: State, c: Class, m: Message) {
    st.producers != [] && st.senders != [] && forall events :: !Delivers(st, events, c, m)
  }

  // --- The last segment is lost ---

  /** All is quiet, nothing is pending, and still Android has not got what was reserved. */
  ghost predicate TailLost(st: State, c: Class) {
    && AllQuiet(st) && st.senders != [] && st.lanes.At(c).recv.pending == []
    && st.lanes.At(c).recv.expected < st.lanes.At(c).next
  }

  /** One message, sent by a sender that was never paused, and the channel loses it. */
  lemma TailLossHappens(c: Class)
    ensures exists st :: Reachable(st) && TailLost(st, c)
  {
    var lane := AfterProbe(EMPTY_LANE, c);
    StartsProbe(c);
    var st := System(Lanes(c, lane), [], Idle, Top, {}, {});
    assert {Probe(c, 0)} - {Probe(c, 0)} == {};
    Step(System(Lanes(c, lane), [], Idle, Top, {Probe(c, 0)}, {}), Lose(Probe(c, 0)), st);
    assert TailLost(st, c);
  }

  // --- The retransmission that nobody sends ---

  /** Two messages were sent, the first got lost, the second arrived, and the sender waits in dequeue. */
  function FirstLost(c: Class, pc: Pc): State {
    var lane := AfterProbe(AfterProbe(EMPTY_LANE, c), c);
    System(Lanes(c, lane.(recv := Queue([], [Probe(c, 1)], 0))), [], Idle, pc, {}, {})
  }

  lemma FirstIsLost(c: Class)
    ensures Reachable(FirstLost(c, Top))
  {
    var lane1 := AfterProbe(EMPTY_LANE, c);
    var lane2 := AfterProbe(lane1, c);
    StartsProbe(c);
    SendsProbe(Lanes(c, lane1), c, {Probe(c, 0)});
    assert Lanes(c, lane1).With(c, lane2) == Lanes(c, lane2);
    var s0, s1 := Probe(c, 0), Probe(c, 1);
    ProbeIsOneSegment(c, 0);
    ProbeIsOneSegment(c, 1);
    assert AndroidQueue.Received(EMPTY_QUEUE, s1) == Queue([], [s1], 0);
    assert {s0} + {s1} - {s0} == {s1} && {s1} - {s1} == {};
    hide Reachable, SegmentAt, AndroidQueue.Received, SentList.Inserted;
    Step(System(Lanes(c, lane2), [], Idle, Top, {s0} + {s1}, {}), Lose(s0),
         System(Lanes(c, lane2), [], Idle, Top, {s1}, {}));
    Step(System(Lanes(c, lane2), [], Idle, Top, {s1}, {}), Deliver(s1, false), FirstLost(c, Top));
  }

  // --- Left alone too long ---

  /** Linux is still quiet, no pause is about to notify anybody, and the lanes and who can be woken are as before. */
  ghost predicate Drowsy(st: State, st': State) {
    && Quiet(st') && st'.owed == 0 && st'.lanes == st.lanes && |st'.senders| == |st.senders|
    && forall k :: 0 <= k < |st.senders| ==> Alive(st.senders[k]) == Alive(st'.senders[k])
  }

  lemma DrowsyHasNoWaker(st: State)
    requires Quiet(st) && st.owed == 0
    ensures !Waker(st)
  {
    assert st.lanes.At(Data).sendQ.main == [] && st.lanes.At(Control).sendQ.main == [];
  }

  function SleepyStep(pc: Pc, j: nat): Event {
    if pc == Top then CheckPaused(j) else if pc == Pc.Ready then PopFailed(j) else Dequeue(j)
  }

  /** With nothing to fetch, a sender that can go on comes closer to waiting in dequeue. */
  lemma SleepyCloser(st: State, j: nat)
    requires Quiet(st) && st.owed == 0 && j < |st.senders| && Works(st, st.senders[j])
    ensures var e := SleepyStep(st.senders[j].pc, j);
      && Enabled(st, e) && LeftAlone(e)
      && Drowsy(st, Apply(st, e)) && SendersRank(Apply(st, e).senders) < SendersRank(st.senders)
  {
    var e := SleepyStep(st.senders[j].pc, j);
    DrowsyHasNoWaker(st);
    assert HeldSeg(st.senders[j].pc) == None;
    assert st.lanes.At(Data).sendQ.main == [] && st.lanes.At(Control).sendQ.main == [];
    SendersUpdate(st.senders, j, Apply(st, e).senders[j]);
  }

  ghost predicate FallsAsleep(st: State, events: seq<Event>) {
    ValidRun(st, events) && Alone(events) && Drowsy(st, Exec(st, events)) && NobodyWorks(Exec(st, events))
  }

  lemma AsleepCons(st: State, e: Event, rest: seq<Event>)
    requires Enabled(st, e) && LeftAlone(e) && Drowsy(st, Apply(st, e)) && FallsAsleep(Apply(st, e), rest)
    ensures FallsAsleep(st, [e] + rest)
  {
    hide Quiet, NobodyWorks, Apply, Enabled, Alive;
    RunCons(st, e, rest);
    AloneConcat([e], rest);
  }

  lemma {:induction false} FallAsleep(st: State)
    requires Quiet(st) && st.owed == 0
    ensures exists events :: FallsAsleep(st, events)
    decreases SendersRank(st.senders)
  {
    if j: nat :| j < |st.senders| && Works(st, st.senders[j]) {
      var e := SleepyStep(st.senders[j].pc, j);
      SleepyCloser(st, j);
      assert Quiet(Apply(st, e)) && Apply(st, e).owed == 0;
      hide *;
      FallAsleep(Apply(st, e));
      var rest :| FallsAsleep(Apply(st, e), rest);
      AsleepCons(st, e, rest);
    } else {
      assert FallsAsleep(st, []);
    }
  }

  /** What is asked for first has been filed, so it is filed again. */
  lemma AskedIsFailed(st: State, c: Class)
    requires Reachable(st) && Quiet(st) && st.lanes.At(c).recv.pending != []
    ensures Asked(st, c).failed != []
  {
    ReachableInv(st);
    Disassemble(st, c);
    var lane := st.lanes.At(c);
    var n := lane.recv.expected;
    assert AndroidQueue.Gaps(lane.recv)[0] == AndroidQueue.Range(n, lane.recv.pending[0].no - 1);
    assert AndroidQueue.InRanges(AndroidQueue.Gaps(lane.recv), n);
    GapBounds(lane, c, n);
    QuietFiled(st, c, n);
    RefiledHolds(lane.sent, AndroidQueue.Gaps(lane.recv), lane.stream[n]);
  }

  lemma AskedKeepsThemAsleep(st: State, c: Class)
    requires NobodyWorks(st) && Asked(st, c).failed != []
    ensures Stuck(Asked(st, c))
  {
    var asked := Asked(st, c);
    assert asked.senders == st.senders && Waker(asked) == Waker(st);
    forall j | 0 <= j < |asked.senders| ensures !Works(asked, asked.senders[j]) { assert !Works(st, st.senders[j]); }
  }

  /** A run in which nobody intervenes and after which a retransmission waits for somebody to intervene. */
  ghost predicate GetsStuckAlone(st: State, events: seq<Event>) {
    && ValidRun(st, events) && Alone(events) && Stuck(Exec(st, events)) && Exec(st, events).failed != []
    && |Exec(st, events).senders| == |st.senders|
    && forall k :: 0 <= k < |st.senders| ==> Alive(st.senders[k]) == Alive(Exec(st, events).senders[k])
  }

  /**
   * Whenever Linux is quiet and Android holds something out of order, the answer to its gap check may come too late:
   * all senders wait in dequeue by then, and it stays in the failed list until a message or a command comes.
   */
  lemma MayGetStuck(st: State, c: Class)
    requires Reachable(st) && Quiet(st) && st.owed == 0 && st.lanes.At(c).recv.pending != []
    ensures exists events :: GetsStuckAlone(st, events)
  {
    hide Reachable, Quiet, NobodyWorks, Stuck, AskEvents, Exec, ValidRun, Alive;
    FallAsleep(st);
    var doze :| FallsAsleep(st, doze);
    var asleep := Exec(st, doze);
    ReachableExtends(st, doze);
    AskedIsFailed(asleep, c);
    AskedKeepsThemAsleep(asleep, c);
    AskRun(asleep, c);
    RunConcat(st, doze, AskEvents(asleep, c));
    AloneConcat(doze, AskEvents(asleep, c));
    assert GetsStuckAlone(st, doze + AskEvents(asleep, c));
  }

  /** Such a state is reached by two messages of which the first gets lost, with a sender that was never paused. */
  lemma StuckHappens(c: Class)
    ensures exists st :: Reachable(st) && StuckAwake(st)
  {
    var st := FirstLost(c, Top);
    FirstIsLost(c);
    assert Quiet(st) && st.lanes.At(c).recv.pending != [] && Alive(st.senders[0]);
    hide Reachable, Quiet, Stuck, Exec, ValidRun, Alive;
    MayGetStuck(st, c);
    var events :| GetsStuckAlone(st, events);
    ReachableExtends(st, events);
    assert StuckAwake(Exec(st, events));
  }

  /** A retransmission waits for somebody to intervene, although every sender is in its loop with an active adapter. */
  ghost predicate StuckAwake(st: State) {
    Stuck(st) && st.failed != [] && st.senders != [] && forall k :: 0 <= k < |st.senders| ==> Alive(st.senders[k])
  }

  // --- A freed segment that is still to be sent again ---

  lemma WantedArrives(s: Segment)
    requires s.no == 0
    ensures AndroidQueue.Received(EMPTY_QUEUE, s) == Queue([s], [], 1)
  {
  }

  lemma EarlyArrives(s: Segment)
    requires s.no == 1
    ensures AndroidQueue.Received(EMPTY_QUEUE, s) == Queue([], [s], 0)
    ensures AndroidQueue.Gaps(Queue([], [s], 0)) == [AndroidQueue.Range(0, 0)]
  {
    assert [s][1..] == [] && AndroidQueue.GapRanges(2, []) == [];
    assert AndroidQueue.InsertBehindLarger([], s) == [s];
    assert AndroidQueue.GapRanges(0, [s]) == [AndroidQueue.Range(0, 0)] + AndroidQueue.GapRanges(2, [s][1..]);
  }

  lemma LateArrives(s0: Segment, s1: Segment)
    requires s0.no == 0 && s1.no == 1
    ensures AndroidQueue.Received(Queue([], [s1], 0), s0) == Queue([s0, s1], [], 2)
  {
    var q := Queue([s0], [s1], 1);
    assert [] + [s0] == [s0] && [s1][1..] == [] && q.main + [s1] == [s0, s1];
    assert AndroidQueue.Received(Queue([], [s1], 0), s0) == AndroidQueue.Purge(q);
    assert AndroidQueue.Purge(q) == AndroidQueue.Purge(Queue(q.main + [s1], [s1][1..], 2));
  }

  /** Control message first, then two data messages; the second arrives before the first. */
  lemma SecondArrives()
    ensures var control := AfterProbe(EMPTY_LANE, Control).(recv := Queue([Probe(Control, 0)], [], 1));
      var data := AfterProbe(AfterProbe(EMPTY_LANE, Data), Data).(recv := Queue([], [Probe(Data, 1)], 0));
      Reachable(System(PerClass(data, control), [], Idle, Top, {Probe(Data, 0)}, {}))
  {
    var c0, d0, d1 := Probe(Control, 0), Probe(Data, 0), Probe(Data, 1);
    var sentControl, sentData := AfterProbe(EMPTY_LANE, Control), AfterProbe(EMPTY_LANE, Data);
    var twice := AfterProbe(sentData, Data);
    var control := sentControl.(recv := Queue([c0], [], 1));
    assert c0.cls == Control && c0.no == 0 && d0.no == 0 && d0.cls == d1.cls == Data && d1.no == 1;
    WantedArrives(c0);
    EarlyArrives(d1);
    assert {c0} - {c0} == {} && {} + {d0} == {d0} && {d0} + {d1} - {d1} == {d0};
    StartsProbe(Control);
    hide Reachable, SegmentAt, AndroidQueue.Received, SentList.Inserted, Probe;
    Step(System(PerClass(EMPTY_LANE, sentControl), [], Idle, Top, {c0}, {}), Deliver(c0, false),
         System(PerClass(EMPTY_LANE, control), [], Idle, Top, {}, {}));
    SendsProbe(PerClass(EMPTY_LANE, control), Data, {});
    SendsProbe(PerClass(sentData, control), Data, {d0});
    Step(System(PerClass(twice, control), [], Idle, Top, {d0} + {d1}, {}), Deliver(d1, false),
         System(PerClass(twice.(recv := Queue([], [d1], 0)), control), [], Idle, Top, {d0}, {}));
  }

  lemma SentTwice()
    ensures AfterProbe(AfterProbe(EMPTY_LANE, Data), Data).sent == [Probe(Data, 0), Probe(Data, 1)]
    ensures SentList.InRange([Probe(Data, 0), Probe(Data, 1)], 0, 0) == [Probe(Data, 0)]
  {
    var d0, d1 := Probe(Data, 0), Probe(Data, 1);
    assert d0.no == 0 && d1.no == 1;
    hide Probe;
    assert [d0] + [d1] == [d0, d1];
    assert [d0, d1][1..] == [d1] && [d1][1..] == [];
    assert SentList.InRange([d1], 0, 0) == [];
  }

  /** The data lane when the first of two segments is late, and when both are there. */
  function LateLane(recv: Queue): Lane {
    AfterProbe(AfterProbe(EMPTY_LANE, Data), Data).(recv := recv)
  }

  lemma AsksAgain(control: Lane, early: Lane, d0: Segment)
    requires Reachable(System(PerClass(early, control), [], Idle, Top, {d0}, {}))
    requires AndroidQueue.Gaps(early.recv) == [AndroidQueue.Range(0, 0)] && SentList.InRange(early.sent, 0, 0) == [d0]
    ensures Reachable(System(PerClass(early, control), [d0], Idle, Top, {d0},
                             {Retransmit(Data, AndroidQueue.Range(0, 0))}))
  {
    var ask := Retransmit(Data, AndroidQueue.Range(0, 0));
    assert [] + [d0] == [d0];
    hide Reachable, AndroidQueue.Gaps, SentList.InRange;
    Step(System(PerClass(early, control), [], Idle, Top, {d0}, {}), RequestGaps(Data),
         System(PerClass(early, control), [], Idle, Top, {d0}, {ask}));
    Step(System(PerClass(early, control), [], Idle, Top, {d0}, {ask}), OnNotice(ask),
         System(PerClass(early, control), [d0], Idle, Top, {d0}, {ask}));
  }

  lemma ArrivesLate(control: Lane, early: Lane, recv: Queue, d0: Segment, ask: Notice)
    requires Reachable(System(PerClass(early, control), [d0], Idle, Top, {d0}, {ask}))
    requires d0.cls == Data && AndroidQueue.Received(early.recv, d0) == recv
    requires recv.expected == 2 && control.recv.expected == 1
    ensures Reachable(System(PerClass(early.(recv := recv), control), [d0], Idle, Top, {}, {ask, QueueStatus(0, 1)}))
  {
    assert {d0} - {d0} == {};
    hide Reachable, AndroidQueue.Received;
    Step(System(PerClass(early, control), [d0], Idle, Top, {d0}, {ask}), Deliver(d0, false),
         System(PerClass(early.(recv := recv), control), [d0], Idle, Top, {}, {ask}));
    Step(System(PerClass(early.(recv := recv), control), [d0], Idle, Top, {}, {ask}), NotifyStatus,
         System(PerClass(early.(recv := recv), control), [d0], Idle, Top, {}, {ask, QueueStatus(0, 1)}));
  }

  /** The missing segment is asked for and filed again, and only then arrives; a status notice follows. */
  lemma FreesInUseHappens()
    ensures exists st, n, s :: Reachable(st) && n in st.notices && n.QueueStatus? && FreesInUse(st, n, s)
  {
    var d0, d1 := Probe(Data, 0), Probe(Data, 1);
    var control := AfterProbe(EMPTY_LANE, Control).(recv := Queue([Probe(Control, 0)], [], 1));
    var early, recv := LateLane(Queue([], [d1], 0)), Queue([d0, d1], [], 2);
    var ask, ack := Retransmit(Data, AndroidQueue.Range(0, 0)), QueueStatus(0, 1);
    assert d0.no == 0 && d0.cls == d1.cls == Data && d1.no == 1;
    EarlyArrives(d1);
    LateArrives(d0, d1);
    SentTwice();
    SecondArrives();
    assert early.sent == [d0, d1];
    hide Reachable, AndroidQueue.Received, AndroidQueue.Gaps, AfterProbe, Probe, SentList.InRange, FreesInUse;
    AsksAgain(control, early, d0);
    ArrivesLate(control, early, recv, d0, ask);
    var st := System(PerClass(early.(recv := recv), control), [d0], Idle, Top, {}, {ask, ack});
    FreesInUseIs(st, ack, d0);
  }
}
