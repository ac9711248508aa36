/**
 * Laws of the transport's steps and runs that do not follow from its invariant: what an acknowledgement frees, the
 * order of the failed list, who is served first and who is woken, what a paused sender does, and what the channel may
 * do.
 */
module TransportLaws {
  import opened Segments
  import opened Transport
  import opened TransportSteps
  import opened TransportRuns
  import opened TransportLiveness
  import AndroidQueue
  import LinuxQueue
  import SentList

  // --- Queue status ---

  /** Linux has freed, of both classes, exactly what Android has received. */
  ghost predicate FreedReceived(lane: Lane, lane': Lane) {
    && (forall s :: s in lane'.sent <==> s in lane.sent && s.no >= lane.recv.expected)
    && lane'.acked == lane.recv.expected
    && lane'.recv == lane.recv && lane'.sendQ == lane.sendQ && lane'.stream == lane.stream
  }

  lemma NoticeFreesBelow(st: State, n: Notice, c: Class)
    requires Inv(st) && n in st.notices && n.QueueStatus? && LastFreed(n, c) + 1 == st.lanes.At(c).recv.expected
    ensures FreedReceived(st.lanes.At(c), Apply(st, OnNotice(n)).lanes.At(c))
  {
    Disassemble(st, c);
    SentList.FreedIs(st.lanes.At(c).sent, LastFreed(n, c));
    hide Inv, LaneInv, SentList.Freed;
  }

  /** The step tells Linux exactly what Android wants next, of each class, and nothing already under way is dropped. */
  ghost predicate TellsStatus(st: State, st': State) {
    && st' == st.(notices := st'.notices) && st.notices <= st'.notices
    && exists n :: n in st'.notices && n.QueueStatus? && st'.notices - st.notices <= {n}
         && forall c: Class :: FreedReceived(st'.lanes.At(c), Apply(st', OnNotice(n)).lanes.At(c))
  }

  /**
   * An acknowledgement sent now and handled at once frees, of both classes, exactly the sent segments that Android has
   * received, and no more can be acknowledged.
   */
  lemma StatusFreesReceived(st: State)
    requires Reachable(st) && Enabled(st, NotifyStatus)
    ensures TellsStatus(st, Apply(st, NotifyStatus))
  {
    var n := QueueStatus(st.lanes.control.recv.expected - 1, st.lanes.data.recv.expected - 1);
    var st' := Apply(st, NotifyStatus);
    assert n in st'.notices;
    ReachableInv(st);
    StepKeepsInv(st, NotifyStatus);
    forall c: Class ensures FreedReceived(st'.lanes.At(c), Apply(st', OnNotice(n)).lanes.At(c)) {
      NoticeFreesBelow(st', n, c);
    }
  }

  // --- The failed list ---

  /** What a step takes off the failed list. */
  function Popped(st: State, e: Event): seq<Segment>
    requires Enabled(st, e)
  {
    if e.PopFailed? && HeldSeg(Apply(st, e).senders[e.j].pc).Some? then [HeldSeg(Apply(st, e).senders[e.j].pc).value]
    else []
  }

  /** What a step gives back: the segment a sender lets go of unsent, or what is to be repeated. */
  function Joined(st: State, e: Event): seq<Segment>
    requires Enabled(st, e)
  {
    match e
    case Recheck(j) => LetGo(st.senders[j].pc, Apply(st, e).senders[j].pc)
    case SendFails(j, _) => LetGo(st.senders[j].pc, Apply(st, e).senders[j].pc)
    case OnNotice(Retransmit(c, r)) => SentList.InRange(st.lanes.At(c).sent, r.first, r.last)
    case _ => []
  }

  function LetGo(before: Pc, after: Pc): seq<Segment> {
    if HeldSeg(before).Some? && HeldSeg(after).None? then [HeldSeg(before).value] else []
  }

  lemma StepIsFifo(st: State, e: Event)
    requires Enabled(st, e)
    ensures Popped(st, e) + Apply(st, e).failed == st.failed + Joined(st, e)
  {
    hide SentList.InRange, SentList.Freed, SentList.Inserted;
  }

  function PoppedIn(st: State, events: seq<Event>): seq<Segment>
    requires ValidRun(st, events)
    decreases |events|
  {
    if events == [] then [] else Popped(st, events[0]) + PoppedIn(Apply(st, events[0]), events[1..])
  }

  function JoinedIn(st: State, events: seq<Event>): seq<Segment>
    requires ValidRun(st, events)
    decreases |events|
  {
    if events == [] then [] else Joined(st, events[0]) + JoinedIn(Apply(st, events[0]), events[1..])
  }

  lemma Rotate(a: seq<Segment>, b: seq<Segment>, c: seq<Segment>, d: seq<Segment>, e: seq<Segment>, f: seq<Segment>,
               g: seq<Segment>)
    requires a + b == c + d && e + f == b + g
    ensures (a + e) + f == c + (d + g)
  {
    assert (a + e) + f == a + (e + f) == (a + b) + g == (c + d) + g == c + (d + g);
  }

  /** Over any run, with any number of senders: segments to be sent again are taken in the order in which they came. */
  lemma {:induction false} FailedIsFifo(st: State, events: seq<Event>)
    requires ValidRun(st, events)
    ensures PoppedIn(st, events) + Exec(st, events).failed == st.failed + JoinedIn(st, events)
    decreases |events|
  {
    if events != [] {
      var st1, rest := Apply(st, events[0]), events[1..];
      StepIsFifo(st, events[0]);
      FailedIsFifo(st1, rest);
      Rotate(Popped(st, events[0]), st1.failed, st.failed, Joined(st, events[0]), PoppedIn(st1, rest),
             Exec(st1, rest).failed, JoinedIn(st1, rest));
      hide Popped, Joined, Enabled, Apply;
    }
  }

  // --- Dequeue ---

  /**
   * A sender in dequeue gets a segment exactly if a send queue has one: the next of the control stream if there is one,
   * of the data stream otherwise.
   */
  lemma ControlGoesFirst(st: State, e: Event)
    requires Inv(st) && Enabled(st, e) && e.Dequeue?
    ensures var pc := Apply(st, e).senders[e.j].pc;
      && (BothEmpty(st) <==> !pc.Holding?)
      && (pc.Holding? ==>
            var c := if st.lanes.control.sendQ.main != [] then Control else Data;
            var lane := st.lanes.At(c);
            pc.seg.cls == c && pc.seg.no == lane.released && pc.seg == lane.stream[lane.released])
  {
    if st.lanes.control.sendQ.main != [] {
      FirstOfLane(st, Control);
    } else if st.lanes.data.sendQ.main != [] {
      FirstOfLane(st, Data);
    }
  }

  lemma FirstOfLane(st: State, c: Class)
    requires Inv(st) && st.lanes.At(c).sendQ.main != []
    ensures var lane := st.lanes.At(c);
      && lane.released < |lane.stream| && lane.sendQ.main[0] == lane.stream[lane.released]
      && lane.stream[lane.released].cls == c && lane.stream[lane.released].no == lane.released
  {
    Disassemble(st, c);
  }

  /** A sender that waits in dequeue is woken exactly by an owed notification, or when there is something to send. */
  lemma WokenExactly(st: State, e: Event, j: nat)
    requires Reachable(st) && Enabled(st, e) && j < |st.senders| && st.senders[j].pc == Blocked
    ensures Apply(st, e).senders[j].pc == if e == WakeWaiting || !BothEmpty(Apply(st, e)) then Woken else Blocked
  {
    NoEnqueueIsMissed(st);
    assert BothEmpty(st);
    hide Reachable;
    if e.EnqueueOne? {
      var p := st.producers[e.i];
      EnqueueGrows(st.lanes.At(p.cls).sendQ, st.lanes.At(p.cls).stream[p.lo]);
      EnqueueInStep(st.lanes.At(p.cls).sendQ, st.lanes.At(p.cls).stream[p.lo]);
      hide LinuxQueue.Enqueued;
    } else {
      NothingToDequeue(st, e);
    }
  }

  lemma {:induction false} DrainInStep(q: Queue)
    ensures |LinuxQueue.Drain(q).main| == |q.main| + LinuxQueue.Drain(q).expected - q.expected
    decreases |q.pending|
  {
    if q.pending != [] && q.pending[0].no == q.expected {
      DrainInStep(Queue(q.main + [q.pending[0]], q.pending[1..], q.expected + 1));
    }
  }

  /** The wanted number grows by what joins the consecutive run. */
  lemma EnqueueInStep(q: Queue, s: Segment)
    ensures var q' := LinuxQueue.Enqueued(q, s); |q'.main| == |q.main| + q'.expected - q.expected
  {
    if s.no == q.expected {
      DrainInStep(q.(main := q.main + [s], expected := q.expected + 1));
    } else {
      DrainInStep(q.(pending := LinuxQueue.InsertSorted(q.pending, s)));
    }
  }

  lemma NothingToDequeue(st: State, e: Event)
    requires BothEmpty(st) && Enabled(st, e) && !e.EnqueueOne?
    ensures BothEmpty(Apply(st, e))
  {
  }

  // --- A paused sender ---

  /** The steps of sender `j` itself. */
  predicate ByLoop(e: Event, j: nat) {
    e == CheckPaused(j) || e == PopFailed(j) || e == Dequeue(j) || e == Recheck(j) || e == SendFails(j, true)
    || e == SendFails(j, false) || e == SendSucceeds(j) || e == FileSent(j)
  }

  lemma TwoSteps(st: State, a: Event, b: Event)
    requires ValidRun(st, [a, b])
    ensures Enabled(st, a) && Enabled(Apply(st, a), b) && Exec(st, [a, b]) == Apply(Apply(st, a), b)
  {
    assert [a, b][1..] == [b] && [b][1..] == [];
    var st1 := Apply(st, a);
    assert ValidRun(st1, [b]) && Exec(st, [a, b]) == Exec(st1, [b]);
    assert Exec(st1, [b]) == Exec(Apply(st1, b), []);
    hide Apply, Enabled;
  }

  lemma GivesBack(st: State, j: nat, seg: Segment, e: Event)
    requires j < |st.senders| && st.senders[j] == Sender(Holding(seg), Sleeping) && ByLoop(e, j) && Enabled(st, e)
    ensures Apply(st, e) == st.(senders := st.senders[j := Sender(Top, Sleeping)], failed := st.failed + [seg])
  {
  }

  lemma Parks(st: State, j: nat, e: Event)
    requires j < |st.senders| && st.senders[j] == Sender(Top, Sleeping) && ByLoop(e, j) && Enabled(st, e)
    ensures Apply(st, e) == st.(senders := st.senders[j := Sender(Parked, Sleeping)])
  {
  }

  /** Told to sleep before it looks once more, a sender gives its segment back unsent and parks. */
  lemma PausedGivesBack(st: State, j: nat, seg: Segment, a: Event, b: Event)
    requires j < |st.senders| && st.senders[j] == Sender(Holding(seg), Sleeping)
    requires ByLoop(a, j) && ByLoop(b, j) && ValidRun(st, [a, b])
    ensures Exec(st, [a, b]) == st.(senders := st.senders[j := Sender(Parked, Sleeping)], failed := st.failed + [seg])
  {
    TwoSteps(st, a, b);
    hide Apply, Enabled, ByLoop, Exec, ValidRun;
    GivesBack(st, j, seg, a);
    Parks(Apply(st, a), j, b);
    assert st.senders[j := Sender(Top, Sleeping)][j := Sender(Parked, Sleeping)]
        == st.senders[j := Sender(Parked, Sleeping)];
  }

  /** What a sender does that was parked and is resumed for a disconnection, with something to be sent again. */
  lemma Resumes(st: State, j: nat)
    requires j < |st.senders| && st.senders[j].pc == Parked
    ensures Enabled(st, Order(j, Disconnect))
    ensures var s := Apply(st, Order(j, Disconnect)).senders[j]; s == Sender(Ready, Disconnecting)
    ensures Apply(st, Order(j, Disconnect)) == st.(senders := st.senders[j := Sender(Ready, Disconnecting)])
  {
  }

  lemma TakesFailed(st: State, j: nat, e: Event)
    requires j < |st.senders| && st.senders[j] == Sender(Ready, Disconnecting) && ByLoop(e, j) && Enabled(st, e)
    requires st.failed != []
    ensures Apply(st, e)
         == st.(senders := st.senders[j := Sender(Holding(st.failed[0]), Disconnecting)], failed := st.failed[1..])
  {
  }

  lemma GoesOn(st: State, j: nat, seg: Segment, e: Event)
    requires j < |st.senders| && st.senders[j] == Sender(Holding(seg), Disconnecting) && ByLoop(e, j) && Enabled(st, e)
    ensures Apply(st, e) == st.(senders := st.senders[j := Sender(Cleared(seg), Disconnecting)])
  {
  }

  lemma FailsForGood(st: State, j: nat, seg: Segment, e: Event)
    requires j < |st.senders| && st.senders[j] == Sender(Cleared(seg), Disconnecting) && ByLoop(e, j) && Enabled(st, e)
    ensures Apply(st, e) == st.(senders := st.senders[j := Sender(Exited, Disconnecting)], failed := st.failed + [seg])
  {
  }

  lemma Overwritten(senders: seq<Sender>, j: nat, a: Sender, b: Sender)
    requires j < |senders|
    ensures senders[j := a][j := b] == senders[j := b]
  {
  }

  /**
   * A parked sender whose adapter is disconnected does not just stop: it takes the first segment to be sent again,
   * fails to send it, gives it back behind the others and leaves its loop, whatever its steps are.
   */
  lemma DisconnectedGivesBack(st: State, j: nat, a: Event, b: Event, c: Event)
    requires j < |st.senders| && st.senders[j].pc == Parked && st.failed != []
    requires ByLoop(a, j) && ByLoop(b, j) && ByLoop(c, j)
    requires Enabled(st, Order(j, Disconnect)) && ValidRun(Apply(st, Order(j, Disconnect)), [a, b, c])
    ensures Exec(Apply(st, Order(j, Disconnect)), [a, b, c])
         == st.(senders := st.senders[j := Sender(Exited, Disconnecting)], failed := st.failed[1..] + [st.failed[0]])
  {
    var st0 := Apply(st, Order(j, Disconnect));
    ThreeSteps(st0, a, b, c);
    hide Apply, Enabled, ByLoop, Exec, ValidRun;
    var seg := st.failed[0];
    Resumes(st, j);
    TakesFailed(st0, j, a);
    var st1 := Apply(st0, a);
    GoesOn(st1, j, seg, b);
    FailsForGood(Apply(st1, b), j, seg, c);
    Overwritten(st.senders, j, Sender(Ready, Disconnecting), Sender(Holding(seg), Disconnecting));
    Overwritten(st.senders, j, Sender(Holding(seg), Disconnecting), Sender(Cleared(seg), Disconnecting));
    Overwritten(st.senders, j, Sender(Cleared(seg), Disconnecting), Sender(Exited, Disconnecting));
  }

  lemma ThreeSteps(st: State, a: Event, b: Event, c: Event)
    requires ValidRun(st, [a, b, c])
    ensures Enabled(st, a) && Enabled(Apply(st, a), b) && Enabled(Apply(Apply(st, a), b), c)
    ensures Exec(st, [a, b, c]) == Apply(Apply(Apply(st, a), b), c)
  {
    assert [a, b, c][1..] == [b, c];
    var st1 := Apply(st, a);
    assert ValidRun(st1, [b, c]) && Exec(st, [a, b, c]) == Exec(st1, [b, c]);
    TwoSteps(st1, b, c);
  }

  /** A sender just connected looks at its pause before it takes anything. */
  lemma ConnectedParks(st: State, j: nat, e: Event)
    requires j < |st.senders| && st.senders[j] == Sender(Exited, Disconnected) && ByLoop(e, j)
    requires ValidRun(st, [Order(j, Connect), Order(j, Sleep), e])
    ensures var senders := Exec(st, [Order(j, Connect), Order(j, Sleep), e]).senders;
      senders == st.senders[j := Sender(Parked, Sleeping)]
  {
    ThreeSteps(st, Order(j, Connect), Order(j, Sleep), e);
    hide ByLoop, Exec, ValidRun;
    var st1 := Apply(st, Order(j, Connect));
    OrderedNow(st, j, Connect);
    OrderedNow(st1, j, Sleep);
    hide Apply, Enabled;
    Parks(Apply(st1, Order(j, Sleep)), j, e);
    Overwritten(st.senders, j, Sender(Top, Active), Sender(Top, Sleeping));
    Overwritten(st.senders, j, Sender(Top, Sleeping), Sender(Parked, Sleeping));
  }

  lemma OrderedNow(st: State, j: nat, command: Command)
    requires Enabled(st, Order(j, command))
    ensures Apply(st, Order(j, command)).senders == st.senders[j := Ordered(st.senders[j], command)]
  {
  }

  /** A pause owes the waiting senders one notification, and every notification owed is given once. */
  lemma OwedExactly(st: State, e: Event)
    requires Enabled(st, e)
    ensures Apply(st, e).owed
         == st.owed + (if e.Order? && e.command == Sleep then 1 else 0) - (if e == WakeWaiting then 1 else 0)
  {
  }

  // --- The channel ---

  /** A segment gets on the wire exactly when the sender that holds it sends it, with its adapter active. */
  lemma WireGrowsExactly(st: State, e: Event, s: Segment)
    requires Enabled(st, e) && s !in st.wire
    ensures s in Apply(st, e).wire
       <==> e.SendSucceeds? && HeldSeg(st.senders[e.j].pc) == Some(s)
    ensures s in Apply(st, e).wire ==> st.senders[e.j].adapter == Active
  {
    assert e.SendSucceeds? ==> Apply(st, e).wire == st.wire + {st.senders[e.j].pc.seg};
  }

  /** It leaves the wire exactly when it is lost, or delivered for the last time. */
  lemma WireShrinksExactly(st: State, e: Event, s: Segment)
    requires Enabled(st, e) && s in st.wire
    ensures s !in Apply(st, e).wire <==> e == Lose(s) || e == Deliver(s, false)
  {
  }

  function Repeated(s: Segment, times: nat): seq<Event> {
    if times == 0 then [] else [Deliver(s, true)] + Repeated(s, times - 1)
  }

  /** The channel may deliver a segment any number of times, and lose it after all, or any notice. */
  lemma {:induction false} ChannelRepeats(st: State, s: Segment, times: nat)
    requires s in st.wire
    ensures ValidRun(st, Repeated(s, times)) && s in Exec(st, Repeated(s, times)).wire
    ensures Enabled(Exec(st, Repeated(s, times)), Lose(s))
    decreases times
  {
    if times > 0 {
      var events := Repeated(s, times);
      assert events[0] == Deliver(s, true) && events[1..] == Repeated(s, times - 1);
      ChannelRepeats(Apply(st, Deliver(s, true)), s, times - 1);
    }
  }

  /** A notice, once under way, can be handled any number of times, and at any time be lost. */
  lemma NoticesStay(st: State, e: Event, n: Notice)
    requires Enabled(st, e) && n in st.notices
    ensures n in Apply(st, e).notices <==> e != LoseNotice(n)
    ensures Enabled(st, OnNotice(n)) && Enabled(st, LoseNotice(n))
  {
  }

  /** The application takes one segment at a time, the first there is. */
  lemma TakesOne(st: State, c: Class)
    requires Enabled(st, Take(c))
    ensures var lane, lane' := st.lanes.At(c), Apply(st, Take(c)).lanes.At(c);
      |lane'.taken| == |lane.taken| + 1 && lane'.taken + lane'.recv.main == lane.taken + lane.recv.main
  {
    var main := st.lanes.At(c).recv.main;
    assert main == [main[0]] + main[1..];
  }

  /** What is asked for is exactly what the receive queue lacks; other notices are not touched. */
  lemma AsksForGaps(st: State, c: Class, n: Notice)
    requires Enabled(st, RequestGaps(c)) && n !in st.notices
    ensures n in Apply(st, RequestGaps(c)).notices
       <==> n.Retransmit? && n.cls == c && n.range in AndroidQueue.Gaps(st.lanes.At(c).recv)
  {
  }
}
