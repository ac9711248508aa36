/**
 * What it takes to get everything across. The receiver notices a gap only when something behind it arrives, so the
 * loss of the last segments stays until the next message; and a sender waiting in dequeue is not told of a
 * retransmission.
 */
module TransportDelivery {
  import opened Segments
  import opened Segmentation
  import opened PacketStream
  import opened Transport
  import opened TransportSteps
  import opened TransportRuns
  import opened TransportRecovery
  import opened TransportLiveness
  import AndroidQueue
  import SentList

  // --- A quiet system has sent everything ---

  lemma QuietFiled(st: State, c: Class, n: nat)
    requires Reachable(st) && Quiet(st) && n < st.lanes.At(c).next
    ensures n < |st.lanes.At(c).stream|
    ensures st.lanes.At(c).stream[n] in st.lanes.At(c).sent || n < st.lanes.At(c).acked
  {
    NoLoss(st, c, n);
  }

  lemma QuietOnWire(st: State, c: Class, n: nat)
    requires Reachable(st) && Quiet(st) && n < st.lanes.At(c).next
    requires n < |st.lanes.At(c).stream| && Coming(st, c, n)
    ensures st.lanes.At(c).stream[n] in st.wire
  {
    QuietFiled(st, c, n);
  }

  /** The threads finish all work on their own, and what was coming gets onto the wire. */
  ghost predicate FinishesWork(st: State, events: seq<Event>) {
    && SideRun(st, events) && Alone(events) && Quiet(Exec(st, events))
    && Reachable(Exec(st, events)) && Forwarded(st, Exec(st, events))
  }

  lemma FinishWork(st: State, j: nat)
    requires Reachable(st) && j < |st.senders| && Works(st, st.senders[j])
    ensures exists events :: FinishesWork(st, events)
  {
    hide Reachable, Inv, NoneMissed, Quiet, Forwarded, Exec, ValidRun, Works, Alone;
    ReachableInv(st);
    NoEnqueueIsMissed(st);
    BecomesQuiet(st, j);
    var events :| SideRun(st, events) && Alone(events) && Quiet(Exec(st, events));
    SideRunForwards(st, events);
    ReachableExtends(st, events);
    assert FinishesWork(st, events);
  }

  // --- Deliveries in a chosen order ---

  function Deliveries(segs: seq<Segment>): seq<Event> {
    if segs == [] then [] else [Deliver(segs[0], false)] + Deliveries(segs[1..])
  }

  lemma {:induction false} PurgeGrows(q: Queue)
    ensures AndroidQueue.Purge(q).expected >= q.expected
    decreases |q.pending|
  {
    if q.pending != [] && q.expected >= q.pending[0].no {
      PurgeGrows(if q.expected > q.pending[0].no then q.(pending := q.pending[1..])
                 else Queue(q.main + [q.pending[0]], q.pending[1..], q.expected + 1));
    }
  }

  /** Segments that are each accepted on arrival have ascending numbers. */
  lemma {:induction false} AcceptedAhead(q: Queue, segs: seq<Segment>)
    requires AndroidQueue.AcceptedOnArrival(q, segs)
    ensures forall k :: 0 <= k < |segs| ==> segs[k].no >= q.expected
    decreases |segs|
  {
    if segs != [] {
      PurgeGrows(q.(main := q.main + [segs[0]], expected := q.expected + 1));
      AcceptedAhead(AndroidQueue.Received(q, segs[0]), segs[1..]);
      assert forall k :: 1 <= k < |segs| ==> segs[k] == segs[1..][k - 1];
    }
  }

  lemma NotAgain(q: Queue, segs: seq<Segment>)
    requires segs != [] && AndroidQueue.AcceptedOnArrival(q, segs)
    ensures segs[0] !in segs[1..]
  {
    PurgeGrows(q.(main := q.main + [segs[0]], expected := q.expected + 1));
    AcceptedAhead(AndroidQueue.Received(q, segs[0]), segs[1..]);
  }

  lemma {:induction false} DeliveriesRun(st: State, c: Class, segs: seq<Segment>)
    requires forall s :: s in segs ==> s.cls == c && s in st.wire
    requires AndroidQueue.AcceptedOnArrival(st.lanes.At(c).recv, segs)
    ensures ValidRun(st, Deliveries(segs)) && Alone(Deliveries(segs))
    ensures Exec(st, Deliveries(segs)).lanes.At(c)
         == st.lanes.At(c).(recv := AndroidQueue.ReceivedAll(st.lanes.At(c).recv, segs))
    decreases |segs|
  {
    if segs != [] {
      var e, rest := Deliver(segs[0], false), segs[1..];
      var st1 := Apply(st, e);
      assert segs[0] in segs && forall s :: s in rest ==> s in segs;
      NotAgain(st.lanes.At(c).recv, segs);
      DeliveriesRun(st1, c, rest);
      RunCons(st, e, Deliveries(rest));
    }
  }

  lemma AloneConcat(a: seq<Event>, b: seq<Event>)
    requires Alone(a) && Alone(b)
    ensures Alone(a + b)
  {
  }

  // --- Recovery ---

  /** All transmitted segments are filed. */
  ghost predicate AllFiled(st: State) {
    forall k :: 0 <= k < |st.senders| ==> !st.senders[k].pc.Transmitted?
  }

  lemma {:induction false} FileAll(st: State, j: nat)
    requires j < |st.senders| && Works(st, st.senders[j])
    ensures exists events :: SideRun(st, events) && Alone(events) && FiledBy(Exec(st, events), j)
    decreases Work(st)
  {
    if k: nat :| k < |st.senders| && st.senders[k].pc.Transmitted? {
      HolderLessWork(st, k);
      var st1 := Apply(st, FileSent(k));
      FileAll(st1, j);
      var rest :| SideRun(st1, rest) && Alone(rest) && FiledBy(Exec(st1, rest), j);
      SideCons(st, FileSent(k), rest);
    } else {
      assert SideRun(st, []) && Alone([]) && FiledBy(Exec(st, []), j);
    }
  }

  ghost predicate FiledBy(st: State, j: nat) {
    AllFiled(st) && j < |st.senders| && Works(st, st.senders[j])
  }

  function Requesting(st: State, c: Class): State {
    st.(notices := st.notices + set r | r in AndroidQueue.Gaps(st.lanes.At(c).recv) :: Retransmit(c, r))
  }

  /** The gap check and its answers: what was filed as sent waits to be sent again. */
  function Asked(st: State, c: Class): State {
    Requesting(st, c).(failed := st.failed + Refiled(st.lanes.At(c).sent, AndroidQueue.Gaps(st.lanes.At(c).recv)))
  }

  function AskEvents(st: State, c: Class): seq<Event> {
    [RequestGaps(c)] + Answers(c, AndroidQueue.Gaps(st.lanes.At(c).recv))
  }

  lemma {:induction false} AnswersAreAlone(c: Class, ranges: seq<AndroidQueue.Range>)
    ensures Alone(Answers(c, ranges))
  {
    if ranges != [] {
      AnswersAreAlone(c, ranges[1..]);
      AloneConcat([OnNotice(Retransmit(c, ranges[0]))], Answers(c, ranges[1..]));
    }
  }

  lemma AskRun(st: State, c: Class)
    ensures ValidRun(st, AskEvents(st, c)) && Alone(AskEvents(st, c)) && Exec(st, AskEvents(st, c)) == Asked(st, c)
  {
    var gaps := AndroidQueue.Gaps(st.lanes.At(c).recv);
    var st1 := Requesting(st, c);
    assert Enabled(st, RequestGaps(c)) && Apply(st, RequestGaps(c)) == st1;
    AnswersRun(st1, c, gaps);
    RunCons(st, RequestGaps(c), Answers(c, gaps));
    AnswersAreAlone(c, gaps);
    AloneConcat([RequestGaps(c)], Answers(c, gaps));
  }

  lemma GapBounds(lane: Lane, c: Class, n: nat)
    requires LaneOk(lane, c) && AndroidQueue.InRanges(AndroidQueue.Gaps(lane.recv), n)
    ensures lane.acked <= lane.recv.expected <= n < lane.next == |lane.stream| && lane.stream[n].no == n
  {
    var q, gaps := lane.recv, AndroidQueue.Gaps(lane.recv);
    AndroidQueue.GapsExactly(q.expected, q.pending, n);
    AndroidQueue.Recovery(q, lane.stream);
    var i :| 0 <= i < |gaps| && gaps[i].first <= n <= gaps[i].last;
    assert gaps[i] in gaps;
  }

  /** Whatever the gap check asks for is then on its way, wherever Linux had it. */
  lemma AskedIsComing(st: State, c: Class, n: nat)
    requires Inv(st) && AllFiled(st) && AndroidQueue.InRanges(AndroidQueue.Gaps(st.lanes.At(c).recv), n)
    ensures n < |st.lanes.At(c).stream| && n < st.lanes.At(c).next
    ensures Coming(Asked(st, c), c, n)
  {
    Disassemble(st, c);
    var lane := st.lanes.At(c);
    GapBounds(lane, c, n);
    RefiledHolds(lane.sent, AndroidQueue.Gaps(lane.recv), lane.stream[n]);
    hide Inv, LaneInv, LaneOk, AndroidQueue.Gaps, AndroidQueue.InRanges, Refiled;
  }

  /** Nothing is pending any more and the wanted number is past everything that was. */
  ghost predicate Recovered(lane: Lane, lane': Lane) {
    && lane'.recv.pending == []
    && lane'.recv.expected == AndroidQueue.ScanEnd(lane.recv.expected, lane.recv.pending)
    && lane'.messages == lane.messages && lane'.stream == lane.stream && lane'.next == lane.next
  }

  lemma {:induction false} RequestedMembers(stream: seq<Segment>, ranges: seq<AndroidQueue.Range>, s: Segment)
    requires Numbered(stream)
    requires forall r :: r in ranges ==> r.first <= r.last < |stream|
    requires s in AndroidQueue.Requested(stream, ranges)
    ensures Genuine(s, stream) && AndroidQueue.InRanges(ranges, s.no)
    decreases |ranges|
  {
    var r := ranges[0];
    assert r in ranges && ranges == [r] + ranges[1..];
    AndroidQueue.InRangesCons(r, ranges[1..], s.no);
    if s !in stream[r.first..r.last + 1] {
      RequestedMembers(stream, ranges[1..], s);
    }
  }

  /** A run in which nobody intervenes and the receive queue of class `c` recovers. */
  ghost predicate RecoversAlone(st: State, events: seq<Event>, c: Class) {
    ValidRun(st, events) && Alone(events) && Recovered(st.lanes.At(c), Exec(st, events).lanes.At(c))
  }

  ghost predicate RequestedOnWire(st: State, c: Class) {
    var lane := st.lanes.At(c);
    forall n :: 0 <= n < |lane.stream| && AndroidQueue.InRanges(AndroidQueue.Gaps(lane.recv), n) ==>
      lane.stream[n] in st.wire
  }

  /** With all requested segments on the wire, delivering them in order recovers the queue. */
  lemma DeliverRequested(st: State, c: Class)
    requires Reachable(st)
    requires RequestedOnWire(st, c)
    ensures exists events :: RecoversAlone(st, events, c)
  {
    ReachableInv(st);
    Disassemble(st, c);
    var lane := st.lanes.At(c);
    var gaps := AndroidQueue.Gaps(lane.recv);
    AndroidQueue.Recovery(lane.recv, lane.stream);
    var segs := AndroidQueue.Requested(lane.stream, gaps);
    forall s | s in segs ensures s.cls == c && s in st.wire {
      RequestedMembers(lane.stream, gaps, s);
    }
    DeliveriesRun(st, c, segs);
    assert RecoversAlone(st, Deliveries(segs), c);
  }

  /** From the asked state the threads transmit everything requested. */
  lemma AskedGetsOnWire(st: State, c: Class, j: nat)
    requires Reachable(st) && FiledBy(st, j)
    ensures exists events :: FinishesWork(Asked(st, c), events)
    ensures forall events :: FinishesWork(Asked(st, c), events) ==>
              RequestedOnWire(Exec(Asked(st, c), events), c)
  {
    AskRun(st, c);
    ReachableExtends(st, AskEvents(st, c));
    var asked := Asked(st, c);
    assert Works(asked, asked.senders[j]);
    FinishWork(asked, j);
    forall events | FinishesWork(asked, events) ensures RequestedOnWire(Exec(asked, events), c) {
      QuietHasRequested(st, c, Exec(asked, events));
    }
  }

  lemma QuietHasRequested(st: State, c: Class, st': State)
    requires Reachable(st) && AllFiled(st)
    requires Reachable(st') && Quiet(st') && Forwarded(Asked(st, c), st')
    ensures RequestedOnWire(st', c)
  {
    ReachableInv(st);
    var lane := st'.lanes.At(c);
    assert lane.recv == st.lanes.At(c).recv && lane.stream == st.lanes.At(c).stream && lane.next == st.lanes.At(c).next;
    hide Inv, Reachable, Quiet, Coming, AllFiled, AndroidQueue.InRanges, AndroidQueue.Gaps;
    forall n | 0 <= n < |lane.stream| && AndroidQueue.InRanges(AndroidQueue.Gaps(lane.recv), n)
      ensures lane.stream[n] in st'.wire
    {
      AskedIsComing(st, c, n);
      assert n < |Asked(st, c).lanes.At(c).stream|;
      QuietOnWire(st', c, n);
    }
  }

  /** With everything filed: the gap check, its answers, the transmissions and the deliveries recover the queue. */
  lemma RecoverFiled(st: State, c: Class, j: nat)
    requires Reachable(st) && FiledBy(st, j)
    ensures exists events :: RecoversAlone(st, events, c)
  {
    hide Reachable, FiledBy, ValidRun, Exec, Quiet, SideRun, AskEvents, RequestedOnWire, AndroidQueue.ScanEnd;
    AskRun(st, c);
    AskedGetsOnWire(st, c, j);
    var asked, ask := Asked(st, c), AskEvents(st, c);
    var work :| FinishesWork(asked, work);
    SideIsValid(asked, work);
    var quiet := Exec(asked, work);
    DeliverRequested(quiet, c);
    var last :| RecoversAlone(quiet, last, c);
    RunConcat(st, ask, work);
    RunConcat(st, ask + work, last);
    AloneConcat(ask, work);
    AloneConcat(ask + work, last);
    assert RecoversAlone(st, ask + work + last, c);
  }

  ghost predicate Files(st: State, events: seq<Event>, j: nat) {
    && SideRun(st, events) && Alone(events) && FiledBy(Exec(st, events), j)
    && SameLane(st.lanes.data, Exec(st, events).lanes.data)
    && SameLane(st.lanes.control, Exec(st, events).lanes.control)
  }

  lemma FileRun(st: State, j: nat)
    requires Reachable(st) && j < |st.senders| && Works(st, st.senders[j])
    ensures exists events :: Files(st, events, j)
  {
    hide Reachable, Inv, FiledBy, ValidRun, Exec, Works, Alone, Coming;
    ReachableInv(st);
    FileAll(st, j);
    var file :| SideRun(st, file) && Alone(file) && FiledBy(Exec(st, file), j);
    SideRunForwards(st, file);
    assert Files(st, file, j);
  }

  /**
   * From every reachable state in which some sender can go on, and without any message or command: a gap check, its
   * answers and the work of the threads leave nothing pending, and the wanted number passes everything that was.
   */
  lemma RecoveryRun(st: State, c: Class, j: nat)
    requires Reachable(st) && j < |st.senders| && Works(st, st.senders[j])
    ensures exists events :: RecoversAlone(st, events, c)
  {
    hide Reachable, Inv, FiledBy, ValidRun, Exec, SideRun, Works, Alone, AndroidQueue.ScanEnd;
    FileRun(st, j);
    var file :| Files(st, file, j);
    SideIsValid(st, file);
    var filed := Exec(st, file);
    ReachableExtends(st, file);
    RecoverFiled(filed, c, j);
    var rest :| RecoversAlone(filed, rest, c);
    RunConcat(st, file, rest);
    AloneConcat(file, rest);
    assert RecoversAlone(st, file + rest, c);
  }

  // --- What arrived is not forgotten ---

  ghost predicate Seen(q: Queue, n: nat) {
    n < q.expected || HasNo(q.pending, n)
  }

  lemma {:induction false} PurgeSees(q: Queue, n: nat)
    ensures Seen(AndroidQueue.Purge(q), n) <==> Seen(q, n)
    decreases |q.pending|
  {
    if q.pending != [] && q.expected >= q.pending[0].no {
      var h, rest := q.pending[0], q.pending[1..];
      assert q.pending == [h] + rest;
      SentList.NoCons(h, rest, n);
      PurgeSees(if q.expected > h.no then q.(pending := rest) else Queue(q.main + [h], rest, q.expected + 1), n);
    }
  }

  /** A number has been seen exactly if it was before or is the one that arrives. */
  lemma ArrivalSees(q: Queue, s: Segment, n: nat)
    ensures Seen(AndroidQueue.Received(q, s), n) <==> Seen(q, n) || n == s.no
  {
    if s.no == q.expected {
      PurgeSees(q.(main := q.main + [s], expected := q.expected + 1), n);
    } else if s.no > q.expected {
      var p := AndroidQueue.InsertBehindLarger(q.pending, s);
      AndroidQueue.InsertBehindLargerMembers(q.pending, s);
      SameNos(q.pending, p, s, n);
      PurgeSees(q.(pending := p), n);
    }
  }

  /** Once the last reserved number has been seen, a gap check reaches to the end of the stream. */
  lemma ScanReachesEnd(lane: Lane, c: Class)
    requires LaneOk(lane, c) && lane.next > 0 && Seen(lane.recv, lane.next - 1)
    ensures AndroidQueue.ScanEnd(lane.recv.expected, lane.recv.pending) == lane.next
  {
    var q := lane.recv;
    AndroidQueue.ScanEndIsMax(q.expected, q.pending);
    assert forall i :: 0 <= i < |q.pending| ==> q.pending[i] in q.pending;
  }

  // --- The application reads on ---

  function Takes(c: Class, n: nat): seq<Event> {
    if n == 0 then [] else [Take(c)] + Takes(c, n - 1)
  }

  lemma {:induction false} TakesRun(st: State, c: Class, n: nat)
    requires n == |st.lanes.At(c).recv.main|
    ensures ValidRun(st, Takes(c, n)) && Alone(Takes(c, n))
    ensures var lane := st.lanes.At(c);
      Exec(st, Takes(c, n)).lanes.At(c) == lane.(recv := lane.recv.(main := []), taken := lane.taken + lane.recv.main)
    decreases n
  {
    var lane := st.lanes.At(c);
    if n == 0 {
      assert lane.taken + [] == lane.taken;
    } else {
      var e, main := Take(c), lane.recv.main;
      var st1 := Apply(st, e);
      assert st1.lanes.At(c) == lane.(recv := lane.recv.(main := main[1..]), taken := lane.taken + [main[0]]);
      assert Enabled(st, e) && LeftAlone(e) && Takes(c, n) == [e] + Takes(c, n - 1);
      hide *;
      TakesRun(st1, c, n - 1);
      RunCons(st, e, Takes(c, n - 1));
      AloneConcat([e], Takes(c, n - 1));
      assert lane.taken + [main[0]] + main[1..] == lane.taken + main;
    }
  }

  /** All messages of a class have arrived, each once, in order and unchanged. */
  ghost predicate Delivered(st: State, c: Class, ms: seq<Message>) {
    && st.lanes.At(c).messages == ms && st.lanes.At(c).taken == st.lanes.At(c).stream
    && Reassembled(Int, st.lanes.At(c).taken) == Outcomes(ms)
  }

  lemma AllTaken(st: State, c: Class)
    requires Reachable(st)
    requires st.lanes.At(c).recv.main == [] && st.lanes.At(c).recv.expected == st.lanes.At(c).next
    ensures Delivered(st, c, st.lanes.At(c).messages)
  {
    ReachableInv(st);
    Disassemble(st, c);
    var lane := st.lanes.At(c);
    assert lane.taken + [] == lane.taken && lane.stream[..|lane.stream|] == lane.stream;
    CompleteDelivery(st, c);
  }

  /** A run in which nobody intervenes and all messages of the class get across. */
  ghost predicate DeliversAlone(st: State, events: seq<Event>, c: Class) {
    ValidRun(st, events) && Alone(events) && Delivered(Exec(st, events), c, st.lanes.At(c).messages)
  }

  lemma EndIsAhead(st: State, c: Class)
    requires Reachable(st) && st.lanes.At(c).next > 0 && Seen(st.lanes.At(c).recv, st.lanes.At(c).next - 1)
    ensures AndroidQueue.ScanEnd(st.lanes.At(c).recv.expected, st.lanes.At(c).recv.pending) == st.lanes.At(c).next
  {
    ReachableInv(st);
    Disassemble(st, c);
    ScanReachesEnd(st.lanes.At(c), c);
  }

  /** Once the last number has been seen, one gap check gets everything across, as long as a sender can go on. */
  lemma GapCheckDelivers(st: State, c: Class, j: nat)
    requires Reachable(st) && j < |st.senders| && Works(st, st.senders[j])
    requires st.lanes.At(c).next > 0 && Seen(st.lanes.At(c).recv, st.lanes.At(c).next - 1)
    ensures exists events :: DeliversAlone(st, events, c)
  {
    hide Reachable, Works, ValidRun, Exec, Alone, AndroidQueue.ScanEnd, Delivered, Seen;
    EndIsAhead(st, c);
    RecoveryRun(st, c, j);
    var repair :| RecoversAlone(st, repair, c);
    var st1 := Exec(st, repair);
    var n := |st1.lanes.At(c).recv.main|;
    TakesRun(st1, c, n);
    RunConcat(st, repair, Takes(c, n));
    AloneConcat(repair, Takes(c, n));
    ReachableExtends(st, repair + Takes(c, n));
    AllTaken(Exec(st1, Takes(c, n)), c);
    assert DeliversAlone(st, repair + Takes(c, n), c);
  }

  // --- One more message ---

  /** The threads alone get segment `n` onto the wire, and sender `j` can still go on. */
  ghost predicate Transmits(st: State, events: seq<Event>, c: Class, n: nat, j: nat) {
    && SideRun(st, events) && Alone(events)
    && OnWire(Exec(st, events), c, n) && j < |Exec(st, events).senders|
    && Works(Exec(st, events), Exec(st, events).senders[j])
  }

  ghost predicate OnWire(st: State, c: Class, n: nat) {
    n < |st.lanes.At(c).stream| && st.lanes.At(c).stream[n] in st.wire
  }

  lemma TransmitsCons(st: State, e: Event, rest: seq<Event>, c: Class, n: nat, j: nat)
    requires Enabled(st, e) && OnSendSide(e) && LeftAlone(e) && Transmits(Apply(st, e), rest, c, n, j)
    ensures Transmits(st, [e] + rest, c, n, j)
  {
    SideCons(st, e, rest);
  }

  lemma StepReachable(st: State, e: Event)
    requires Reachable(st) && Enabled(st, e)
    ensures Reachable(Apply(st, e))
  {
    assert [e][1..] == [] && Exec(st, [e]) == Apply(st, e);
    ReachableExtends(st, [e]);
  }

  lemma {:induction false} GetsOnWire(st: State, c: Class, n: nat, j: nat)
    requires Reachable(st) && j < |st.senders| && Works(st, st.senders[j])
    requires n < |st.lanes.At(c).stream| && n < st.lanes.At(c).next && Coming(st, c, n)
    ensures exists events :: Transmits(st, events, c, n, j)
    decreases Work(st)
  {
    hide Reachable, Inv, NoneMissed, Quiet, Apply, Enabled, Works, Work, Coming, SideRun, SentSorted;
    if st.lanes.At(c).stream[n] in st.wire {
      NothingToDo(st);
      assert Transmits(st, [], c, n, j);
    } else {
      ReachableInv(st);
      NoEnqueueIsMissed(st);
      if Quiet(st) { QuietOnWire(st, c, n); }
      QuietOrCloser(st, j);
      var e :| Closer(st, e, j);
      StepReachable(st, e);
      SideStepElsewhere(st, e);
      InvSorts(st);
      ComingStays(st, e, c, n);
      GetsOnWire(Apply(st, e), c, n, j);
      var rest :| Transmits(Apply(st, e), rest, c, n, j);
      TransmitsCons(st, e, rest, c, n, j);
    }
  }

  /** Segment `n` has not arrived, is not on the wire, and is not about to be sent by an active adapter. */
  ghost predicate NotSent(st: State, c: Class, n: nat) {
    NotSentIn(st.lanes.At(c), st.wire, st.senders, c, n)
  }

  ghost predicate NotSentIn(lane: Lane, wire: set<Segment>, senders: seq<Sender>, c: Class, n: nat) {
    && n < |lane.stream| && !Seen(lane.recv, n)
    && var s := lane.stream[n];
    && s.no == n && s.cls == c && s !in wire && s !in lane.sent
    && (forall k :: 0 <= k < |senders| ==> senders[k].pc != Transmitted(s))
    && (forall k :: 0 <= k < |senders| && senders[k].pc == Cleared(s) ==> senders[k].adapter != Active)
  }

  lemma NotGenuine(stream: seq<Segment>, s: Segment, l: seq<Segment>)
    requires s.no >= |stream| && AllGenuine(l, stream)
    ensures s !in l && !HasNo(l, s.no)
  {
    assert forall k :: 0 <= k < |l| ==> l[k] in l;
  }

  lemma NowhereYet(st: State, c: Class, s: Segment)
    requires Inv(st) && s.cls == c && s.no >= |st.lanes.At(c).stream|
    ensures !Seen(st.lanes.At(c).recv, s.no) && s !in st.wire && s !in st.lanes.At(c).sent
    ensures forall k :: 0 <= k < |st.senders| ==> HeldSeg(st.senders[k].pc) != Some(s)
  {
    Disassemble(st, c);
    var lane := st.lanes.At(c);
    NotGenuine(lane.stream, s, lane.recv.pending);
    NotGenuine(lane.stream, s, lane.sent);
    assert !Real(st.lanes, s);
  }

  lemma ReserveLeaves(st: State, c: Class, i: nat, m: Message)
    requires Enabled(st, Reserve(i, c, m))
    ensures var st1 := Apply(st, Reserve(i, c, m));
      var lane, lane1 := st.lanes.At(c), st1.lanes.At(c);
      && st1.senders == st.senders && st1.wire == st.wire && lane1.recv == lane.recv && lane1.sent == lane.sent
      && lane1.next > lane.next && lane1.messages == lane.messages + [m]
      && i < |st1.producers| && st1.producers[i].Sending?
  {
  }

  lemma NumberedLane(st: State, c: Class)
    requires Inv(st)
    ensures var lane := st.lanes.At(c);
      lane.next == |lane.stream| && forall n :: 0 <= n < lane.next ==> lane.stream[n].no == n && lane.stream[n].cls == c
  {
    Disassemble(st, c);
  }

  lemma NotSentYet(st: State, st1: State, c: Class)
    requires Inv(st) && Inv(st1) && st1.senders == st.senders && st1.wire == st.wire
    requires st1.lanes.At(c).recv == st.lanes.At(c).recv && st1.lanes.At(c).sent == st.lanes.At(c).sent
    requires st1.lanes.At(c).next > st.lanes.At(c).next
    ensures NotSent(st1, c, st1.lanes.At(c).next - 1)
  {
    NumberedLane(st, c);
    NumberedLane(st1, c);
    var n := st1.lanes.At(c).next - 1;
    hide Inv, Seen;
    NowhereYet(st, c, st1.lanes.At(c).stream[n]);
  }

  lemma NotSentIsComing(st: State, c: Class, n: nat)
    requires Inv(st) && NotSent(st, c, n)
    ensures Coming(st, c, n)
  {
    Disassemble(st, c);
  }

  /** The last segment of a message just reserved is yet to be sent; a sender that waits will be notified. */
  lemma ReservedIsNotSent(st: State, c: Class, i: nat, m: Message)
    requires Reachable(st) && Enabled(st, Reserve(i, c, m))
    ensures var st1 := Apply(st, Reserve(i, c, m));
      && st1.senders == st.senders && Waker(st1) && Reachable(st1)
      && st1.lanes.At(c).messages == st.lanes.At(c).messages + [m]
      && 0 < st1.lanes.At(c).next <= |st1.lanes.At(c).stream|
      && NotSent(st1, c, st1.lanes.At(c).next - 1) && Coming(st1, c, st1.lanes.At(c).next - 1)
  {
    hide Reachable, Inv, Apply, NotSent, Enabled, Coming;
    StepReachable(st, Reserve(i, c, m));
    ReachableInv(st);
    var st1 := Apply(st, Reserve(i, c, m));
    ReachableInv(st1);
    ReserveLeaves(st, c, i, m);
    NotSentYet(st, st1, c);
    NumberedLane(st1, c);
    NotSentIsComing(st1, c, st1.lanes.At(c).next - 1);
  }

  lemma DeliverShows(st: State, c: Class, n: nat, j: nat)
    requires OnWire(st, c, n) && st.lanes.At(c).stream[n].cls == c && st.lanes.At(c).stream[n].no == n
    requires j < |st.senders| && Works(st, st.senders[j])
    ensures var e := Deliver(st.lanes.At(c).stream[n], false);
      && Enabled(st, e) && LeftAlone(e) && Seen(Apply(st, e).lanes.At(c).recv, n)
      && j < |Apply(st, e).senders| && Works(Apply(st, e), Apply(st, e).senders[j])
      && Apply(st, e).lanes.At(c).next == st.lanes.At(c).next
      && Apply(st, e).lanes.At(c).messages == st.lanes.At(c).messages
  {
    ArrivalSees(st.lanes.At(c).recv, st.lanes.At(c).stream[n], n);
    hide Seen;
  }

  lemma AloneCons(st: State, e: Event, rest: seq<Event>, c: Class)
    requires Enabled(st, e) && LeftAlone(e) && DeliversAlone(Apply(st, e), rest, c)
    requires Apply(st, e).lanes.At(c).messages == st.lanes.At(c).messages
    ensures DeliversAlone(st, [e] + rest, c)
  {
    RunCons(st, e, rest);
  }

  /** On the wire, the last segment is delivered; then a gap check gets everything across. */
  lemma ShownDelivers(st: State, c: Class, j: nat)
    requires Reachable(st) && j < |st.senders| && Works(st, st.senders[j])
    requires st.lanes.At(c).next > 0 && OnWire(st, c, st.lanes.At(c).next - 1)
    ensures exists events :: DeliversAlone(st, events, c)
  {
    hide *;
    var n := st.lanes.At(c).next - 1;
    ReachableInv(st);
    NumberedLane(st, c);
    var e := Deliver(st.lanes.At(c).stream[n], false);
    DeliverShows(st, c, n, j);
    StepReachable(st, e);
    GapCheckDelivers(Apply(st, e), c, j);
    var rest :| DeliversAlone(Apply(st, e), rest, c);
    AloneCons(st, e, rest, c);
  }

  lemma DeliversAfter(st: State, a: seq<Event>, b: seq<Event>, c: Class)
    requires SideRun(st, a) && Alone(a) && Forwarded(st, Exec(st, a)) && DeliversAlone(Exec(st, a), b, c)
    ensures DeliversAlone(st, a + b, c)
  {
    var messages := st.lanes.At(c).messages;
    assert Exec(st, a).lanes.At(c).messages == messages;
    hide Alone, Delivered, Forwarded;
    RunConcat(st, a, b);
    AloneConcat(a, b);
  }

  lemma SameEnd(st: State, st': State, c: Class)
    requires Forwarded(st, st')
    ensures st'.lanes.At(c).next == st.lanes.At(c).next
  {
  }

  lemma TransmittedDelivers(st: State, send: seq<Event>, c: Class, j: nat)
    requires Reachable(st) && st.lanes.At(c).next > 0 && Transmits(st, send, c, st.lanes.At(c).next - 1, j)
    ensures exists events :: DeliversAlone(st, events, c)
  {
    var n := st.lanes.At(c).next - 1;
    hide Reachable, Inv, Works, Exec, ValidRun, Alone, DeliversAlone, SideRun, Forwarded, OnWire;
    ReachableInv(st);
    SideIsValid(st, send);
    var st1 := Exec(st, send);
    assert OnWire(st1, c, n) && j < |st1.senders| && Works(st1, st1.senders[j]) && Alone(send) && SideRun(st, send);
    hide *;
    SideRunForwards(st, send);
    SameEnd(st, st1, c);
    ReachableExtends(st, send);
    ShownDelivers(st1, c, j);
    var rest :| DeliversAlone(st1, rest, c);
    DeliversAfter(st, send, rest, c);
  }

  /** Where the last reserved segment is coming and a sender can go on, everything gets across without intervention. */
  lemma LastDelivers(st: State, c: Class, j: nat)
    requires Reachable(st) && j < |st.senders| && Works(st, st.senders[j])
    requires 0 < st.lanes.At(c).next <= |st.lanes.At(c).stream| && Coming(st, c, st.lanes.At(c).next - 1)
    ensures exists events :: DeliversAlone(st, events, c)
  {
    var n := st.lanes.At(c).next - 1;
    hide *;
    GetsOnWire(st, c, n, j);
    var send :| Transmits(st, send, c, n, j);
    TransmittedDelivers(st, send, c, j);
  }

  // --- Nobody can send it ---

  /** Segment `n` is yet to be sent, and no sender in its loop has an active adapter. */
  ghost predicate Grounded(st: State, c: Class, n: nat) {
    NotSent(st, c, n) && forall k :: 0 <= k < |st.senders| ==> !Alive(st.senders[k])
  }

  lemma GroundedWhenDelivering(st: State, e: Event, c: Class, n: nat)
    requires Inv(st) && Grounded(st, c, n) && Enabled(st, e) && e.Deliver?
    ensures Grounded(Apply(st, e), c, n)
  {
    assert Real(st.lanes, e.seg);
    ArrivalSees(st.lanes.At(e.seg.cls).recv, e.seg, n);
    hide Seen;
  }

  lemma GroundedWhenProducing(st: State, e: Event, c: Class, n: nat)
    requires Grounded(st, c, n) && Enabled(st, e) && (e.EnqueueOne? || e.WakeWaiting?)
    ensures Grounded(Apply(st, e), c, n)
  {
  }

  lemma GroundedWhenFetching(st: State, e: Event, c: Class, n: nat)
    requires Grounded(st, c, n) && Enabled(st, e) && (e.CheckPaused? || e.PopFailed? || e.Recheck?)
    ensures Grounded(Apply(st, e), c, n)
  {
    assert !Alive(st.senders[e.j]);
    hide Seen;
  }

  lemma GroundedWhenDequeuing(st: State, e: Event, c: Class, n: nat)
    requires Grounded(st, c, n) && Enabled(st, e) && e.Dequeue?
    ensures Grounded(Apply(st, e), c, n)
  {
    assert !Alive(st.senders[e.j]);
    hide Seen;
  }

  lemma GroundedWhenSending(st: State, e: Event, c: Class, n: nat)
    requires Grounded(st, c, n) && Enabled(st, e) && (e.SendFails? || e.SendSucceeds?)
    ensures Grounded(Apply(st, e), c, n)
  {
  }

  lemma HeldIsGenuine(st: State, j: nat)
    requires Inv(st) && j < |st.senders| && HeldSeg(st.senders[j].pc).Some?
    ensures var seg := HeldSeg(st.senders[j].pc).value;
      Genuine(seg, st.lanes.At(seg.cls).stream) && LaneOk(st.lanes.At(seg.cls), seg.cls)
  {
    Disassemble(st, HeldSeg(st.senders[j].pc).value.cls);
    assert Real(st.lanes, HeldSeg(st.senders[j].pc).value);
  }

  lemma FilingKeepsNotSent(lane: Lane, c: Class, seg: Segment, s: Segment)
    requires LaneOk(lane, c) && Genuine(seg, lane.stream) && s !in lane.sent && seg != s
    ensures s !in SentList.Inserted(lane.sent, seg)
  {
    SentList.InsertedIs(lane.sent, seg);
  }

  lemma FilingLeaves(st: State, j: nat, c: Class)
    requires Enabled(st, FileSent(j))
    ensures var lane, seg, st' := st.lanes.At(c), st.senders[j].pc.seg, Apply(st, FileSent(j));
      && st'.wire == st.wire && st'.senders == st.senders[j := st.senders[j].(pc := Top)]
      && st'.lanes.At(c).recv == lane.recv && st'.lanes.At(c).stream == lane.stream
      && st'.lanes.At(c).sent == if seg.cls == c then SentList.Inserted(lane.sent, seg) else lane.sent
  {
    hide SentList.Inserted;
  }

  lemma GroundedWhenFiling(st: State, j: nat, c: Class, n: nat)
    requires Inv(st) && Grounded(st, c, n) && Enabled(st, FileSent(j))
    ensures Grounded(Apply(st, FileSent(j)), c, n)
  {
    var seg := st.senders[j].pc.seg;
    var lane, s := st.lanes.At(c), st.lanes.At(c).stream[n];
    assert seg != s && s !in lane.sent && HeldSeg(st.senders[j].pc) == Some(seg) && st.senders[j].pc.Transmitted?;
    hide *;
    FilingLeaves(st, j, c);
    HeldIsGenuine(st, j);
    if seg.cls == c { FilingKeepsNotSent(lane, c, seg, s); }
    GroundedAtTop(st, Apply(st, FileSent(j)), j, c, n);
  }

  lemma GroundedAtTop(st: State, st': State, j: nat, c: Class, n: nat)
    requires Grounded(st, c, n) && j < |st.senders|
    requires st'.wire == st.wire && st'.senders == st.senders[j := st.senders[j].(pc := Top)]
    requires st.senders[j].pc.Transmitted?
    requires st'.lanes.At(c).recv == st.lanes.At(c).recv && st'.lanes.At(c).stream == st.lanes.At(c).stream
    requires n < |st.lanes.At(c).stream| && st.lanes.At(c).stream[n] !in st'.lanes.At(c).sent
    ensures Grounded(st', c, n)
  {
    hide Seen;
  }

  lemma GroundedElsewhere(st: State, e: Event, c: Class, n: nat)
    requires Grounded(st, c, n) && Enabled(st, e)
    requires e.Lose? || e.Take? || e.NotifyStatus? || e.RequestGaps? || e.LoseNotice? || e.Closed?
    ensures Grounded(Apply(st, e), c, n)
  {
  }

  lemma GroundedOnNotice(st: State, e: Event, c: Class, n: nat)
    requires Inv(st) && Grounded(st, c, n) && Enabled(st, e) && e.OnNotice?
    ensures Grounded(Apply(st, e), c, n)
  {
    hide Seen, SentList.Freed, SentList.InRange;
    Disassemble(st, c);
    if e.n.QueueStatus? {
      SentList.FreedIs(st.lanes.data.sent, e.n.lastData);
      SentList.FreedIs(st.lanes.control.sent, e.n.lastControl);
    }
    hide Inv, LaneInv;
  }

  lemma GroundedStays(st: State, e: Event, c: Class, n: nat)
    requires Inv(st) && Grounded(st, c, n) && Enabled(st, e) && LeftAlone(e)
    ensures Grounded(Apply(st, e), c, n)
  {
    hide Inv, Grounded, Enabled, Apply;
    match e
    case Deliver(_, _) => GroundedWhenDelivering(st, e, c, n);
    case EnqueueOne(_) => GroundedWhenProducing(st, e, c, n);
    case WakeWaiting => GroundedWhenProducing(st, e, c, n);
    case CheckPaused(_) => GroundedWhenFetching(st, e, c, n);
    case PopFailed(_) => GroundedWhenFetching(st, e, c, n);
    case Dequeue(_) => GroundedWhenDequeuing(st, e, c, n);
    case Recheck(_) => GroundedWhenFetching(st, e, c, n);
    case SendFails(_, _) => GroundedWhenSending(st, e, c, n);
    case SendSucceeds(_) => GroundedWhenSending(st, e, c, n);
    case FileSent(j) => GroundedWhenFiling(st, j, c, n);
    case OnNotice(_) => GroundedOnNotice(st, e, c, n);
    case _ => GroundedElsewhere(st, e, c, n);
  }

  lemma {:induction false} GroundedForever(st: State, events: seq<Event>, c: Class, n: nat)
    requires Inv(st) && Grounded(st, c, n) && ValidRun(st, events) && Alone(events)
    ensures Inv(Exec(st, events)) && Grounded(Exec(st, events), c, n)
    decreases |events|
  {
    if events != [] {
      assert LeftAlone(events[0]);
      assert forall k :: 0 <= k < |events| - 1 ==> events[1..][k] == events[k + 1];
      hide Inv, Grounded, Enabled, Apply;
      GroundedStays(st, events[0], c, n);
      StepKeepsInv(st, events[0]);
      GroundedForever(Apply(st, events[0]), events[1..], c, n);
    }
  }

  lemma GroundedIsNotDelivered(st: State, c: Class, n: nat, ms: seq<Message>)
    requires Inv(st) && Grounded(st, c, n)
    ensures !Delivered(st, c, ms)
  {
    Disassemble(st, c);
  }

  lemma NoDeliveryWhenGrounded(st: State, c: Class, n: nat)
    requires Reachable(st) && Grounded(st, c, n)
    ensures forall events :: !DeliversAlone(st, events, c)
  {
    hide Inv, Reachable, Grounded, Delivered, Alone;
    ReachableInv(st);
    forall events | ValidRun(st, events) && Alone(events) ensures !DeliversAlone(st, events, c) {
      GroundedForever(st, events, c, n);
      GroundedIsNotDelivered(Exec(st, events), c, n, st.lanes.At(c).messages);
    }
  }

  /**
   * Whatever a run has lost: one more message brings every message of the class across, without any command, exactly
   * if some sender in its loop has an active adapter. It may be waiting: the message wakes it, and a gap check does the
   * rest.
   */
  lemma NextMessageDeliversAll(st: State, c: Class, i: nat, m: Message)
    requires Reachable(st) && Enabled(st, Reserve(i, c, m))
    ensures Apply(st, Reserve(i, c, m)).lanes.At(c).messages == st.lanes.At(c).messages + [m]
    ensures (exists events :: DeliversAlone(Apply(st, Reserve(i, c, m)), events, c))
       <==> exists j :: 0 <= j < |st.senders| && Alive(st.senders[j])
  {
    var st1 := Apply(st, Reserve(i, c, m));
    hide Reachable, NotSent, Apply, Enabled, DeliversAlone, Waker, Coming;
    ReservedIsNotSent(st, c, i, m);
    if j: nat :| j < |st.senders| && Alive(st.senders[j]) {
      LastDelivers(st1, c, j);
    } else {
      NoDeliveryWhenGrounded(st1, c, st1.lanes.At(c).next - 1);
    }
  }

  // --- From everywhere ---

  /** A run in which one more message is sent and everything gets across. */
  ghost predicate Delivers(st: State, events: seq<Event>, c: Class, m: Message) {
    ValidRun(st, events) && Delivered(Exec(st, events), c, st.lanes.At(c).messages + [m])
  }

  lemma FetchingWorks(st: State, j: nat)
    requires j < |st.senders| && Fetching(st.senders[j])
    ensures Works(st, st.senders[j])
  {
  }

  /** The producers finish what they have begun, which changes no adapter. */
  ghost predicate Frees(st: State, events: seq<Event>) {
    && SideRun(st, events)
    && (forall i :: 0 <= i < |Exec(st, events).producers| ==> Exec(st, events).producers[i] == Idle)
    && SameBroken(st.senders, Exec(st, events).senders)
  }

  ghost predicate SameBroken(senders: seq<Sender>, senders': seq<Sender>) {
    |senders| == |senders'| && forall k :: 0 <= k < |senders| ==> Broken(senders[k]) == Broken(senders'[k])
  }

  lemma FreesCons(st: State, e: Event, rest: seq<Event>)
    requires Enabled(st, e) && OnSendSide(e) && SameBroken(st.senders, Apply(st, e).senders)
    requires Frees(Apply(st, e), rest)
    ensures Frees(st, [e] + rest)
  {
    hide Broken, Apply, Enabled;
    SideCons(st, e, rest);
  }

  lemma EnqueueFrees(st: State, k: nat)
    requires ItsTurn(st, k)
    ensures Enabled(st, EnqueueOne(k)) && OnSendSide(EnqueueOne(k))
    ensures Unsent(Apply(st, EnqueueOne(k)).producers) < Unsent(st.producers)
    ensures SameBroken(st.senders, Apply(st, EnqueueOne(k)).senders)
  {
    UnsentUpdate(st.producers, k, Advanced(st.producers[k]));
  }

  lemma {:induction false} ProducersFinish(st: State)
    requires Inv(st)
    ensures exists events :: Frees(st, events)
    decreases Unsent(st.producers)
  {
    hide *;
    if i: nat :| i < |st.producers| && st.producers[i] != Idle {
      var k := NextOwner(st, i);
      var e := EnqueueOne(k);
      EnqueueFrees(st, k);
      StepKeepsInv(st, e);
      ProducersFinish(Apply(st, e));
      var rest :| Frees(Apply(st, e), rest);
      FreesCons(st, e, rest);
    } else {
      FreesNothing(st);
    }
  }

  lemma FreesNothing(st: State)
    requires forall i :: 0 <= i < |st.producers| ==> st.producers[i] == Idle
    ensures Frees(st, [])
  {
    NothingToDo(st);
  }

  /** A run of the sending side, then what delivers everything there. */
  lemma DeliversNext(st: State, a: seq<Event>, b: seq<Event>, c: Class, ms: seq<Message>)
    requires SideRun(st, a) && Forwarded(st, Exec(st, a)) && DeliversAlone(Exec(st, a), b, c)
    requires st.lanes.At(c).messages == ms
    ensures ValidRun(st, a + b) && Delivered(Exec(st, a + b), c, ms)
  {
    assert Exec(st, a).lanes.At(c).messages == ms;
    hide Delivered, Forwarded;
    RunConcat(st, a, b);
  }

  /** With somebody to notify the waiting senders, any sender that has not broken off can be brought to deliver all. */
  lemma WakerDelivers(st: State, c: Class, j: nat)
    requires Reachable(st) && Waker(st) && j < |st.senders| && !Broken(st.senders[j])
    requires 0 < st.lanes.At(c).next <= |st.lanes.At(c).stream| && Coming(st, c, st.lanes.At(c).next - 1)
    ensures exists events :: ValidRun(st, events) && Delivered(Exec(st, events), c, st.lanes.At(c).messages)
  {
    assert CanCome(st, j);
    hide *;
    ReachableInv(st);
    BringUpExactly(st);
    var up, k: nat :| BroughtUp(st, up, k);
    BroughtUpDelivers(st, up, k, c);
  }

  lemma StillComing(st: State, st': State, c: Class)
    requires Forwarded(st, st')
    requires 0 < st.lanes.At(c).next <= |st.lanes.At(c).stream| && Coming(st, c, st.lanes.At(c).next - 1)
    ensures 0 < st'.lanes.At(c).next <= |st'.lanes.At(c).stream| && Coming(st', c, st'.lanes.At(c).next - 1)
  {
    hide Coming;
  }

  lemma BroughtUpDelivers(st: State, up: seq<Event>, j: nat, c: Class)
    requires Reachable(st) && BroughtUp(st, up, j)
    requires 0 < st.lanes.At(c).next <= |st.lanes.At(c).stream| && Coming(st, c, st.lanes.At(c).next - 1)
    ensures exists events :: ValidRun(st, events) && Delivered(Exec(st, events), c, st.lanes.At(c).messages)
  {
    hide Reachable, Inv, Exec, ValidRun, SideRun, Coming, Fetching, Forwarded, Delivered, DeliversAlone, Works;
    SideIsValid(st, up);
    var st1 := Exec(st, up);
    ReachableInv(st);
    SideRunForwards(st, up);
    ReachableExtends(st, up);
    FetchingWorks(st1, j);
    StillComing(st, st1, c);
    LastDelivers(st1, c, j);
    var rest :| DeliversAlone(st1, rest, c);
    DeliversNext(st, up, rest, c, st.lanes.At(c).messages);
  }

  lemma DeliversOn(st: State, a: seq<Event>, e: Event, b: seq<Event>, c: Class, m: Message)
    requires ValidRun(st, a) && Enabled(Exec(st, a), e) && ValidRun(Apply(Exec(st, a), e), b)
    requires Apply(Exec(st, a), e).lanes.At(c).messages == st.lanes.At(c).messages + [m]
    requires Delivered(Exec(Apply(Exec(st, a), e), b), c, Apply(Exec(st, a), e).lanes.At(c).messages)
    ensures Delivers(st, a + ([e] + b), c, m)
  {
    RunCons(Exec(st, a), e, b);
    RunConcat(st, a, [e] + b);
  }

  lemma UnbrokenDelivers(st: State, c: Class, i: nat, m: Message, j: nat)
    requires Reachable(st) && i < |st.producers| && ValidMessage(m) && j < |st.senders| && !Broken(st.senders[j])
    ensures exists events :: Delivers(st, events, c, m)
  {
    hide Reachable, Inv, Exec, ValidRun, SideRun, Coming, Delivers, Delivered, Broken, Waker, NotSent, Forwarded;
    ReachableInv(st);
    ProducersFinish(st);
    var a :| Frees(st, a);
    SideIsValid(st, a);
    SideRunForwards(st, a);
    ReachableExtends(st, a);
    SameMessages(st, Exec(st, a), c, i);
    var mid, e := Exec(st, a), Reserve(i, c, m);
    assert Enabled(mid, e);
    hide Enabled, Apply;
    ReservedIsNotSent(mid, c, i, m);
    var st1 := Apply(mid, e);
    ReachableInv(st1);
    NumberedLane(st1, c);
    NotSentIsComing(st1, c, st1.lanes.At(c).next - 1);
    WakerDelivers(st1, c, j);
    var b :| ValidRun(st1, b) && Delivered(Exec(st1, b), c, st1.lanes.At(c).messages);
    DeliversOn(st, a, e, b, c, m);
  }

  lemma SameMessages(st: State, st': State, c: Class, i: nat)
    requires Forwarded(st, st') && i < |st.producers|
    ensures st'.lanes.At(c).messages == st.lanes.At(c).messages && i < |st'.producers|
  {
  }

  // --- When all have broken off ---

  /** All senders have broken off, and nothing numbered `n` or more has arrived or is on the wire. */
  ghost predicate Capped(st: State, c: Class, n: nat) {
    && AllBroken(st.senders) && (forall s :: s in st.wire && s.cls == c ==> s.no < n)
    && (forall k :: k >= n ==> !Seen(st.lanes.At(c).recv, k))
  }

  lemma ReachableCapped(st: State, c: Class)
    requires Inv(st) && AllBroken(st.senders)
    ensures Capped(st, c, |st.lanes.At(c).stream|)
  {
    Disassemble(st, c);
    assert forall s :: s in st.wire ==> Real(st.lanes, s);
    hide Inv, LaneInv, LaneOk, Seen, AllBroken;
    forall k: nat | k >= |st.lanes.At(c).stream| ensures !Seen(st.lanes.At(c).recv, k) {
      NothingBeyond(st.lanes.At(c), c, k);
    }
  }

  lemma NothingBeyond(lane: Lane, c: Class, k: nat)
    requires LaneOk(lane, c) && k >= |lane.stream|
    ensures !Seen(lane.recv, k)
  {
    var pending := lane.recv.pending;
    forall i | 0 <= i < |pending| ensures pending[i].no < |lane.stream| { assert pending[i] in pending; }
  }

  lemma CappedStays(st: State, e: Event, c: Class, n: nat)
    requires Capped(st, c, n) && Enabled(st, e)
    ensures Capped(Apply(st, e), c, n)
  {
    AllBrokenStays(st, e);
    var st' := Apply(st, e);
    forall k: nat | k >= n ensures !Seen(st'.lanes.At(c).recv, k) {
      assert !Seen(st.lanes.At(c).recv, k);
      if e.Deliver? { ArrivalSees(st.lanes.At(e.seg.cls).recv, e.seg, k); }
    }
    hide AllBroken, Seen;
  }

  lemma {:induction false} CappedForever(st: State, events: seq<Event>, c: Class, n: nat)
    requires Capped(st, c, n) && ValidRun(st, events)
    ensures Capped(Exec(st, events), c, n)
    decreases |events|
  {
    if events != [] {
      CappedStays(st, events[0], c, n);
      hide Capped, Enabled, Apply;
      CappedForever(Apply(st, events[0]), events[1..], c, n);
    }
  }

  lemma LongerStream(c: Class, ms: seq<Message>, m: Message)
    requires AllValid(ms) && AllValid(ms + [m])
    ensures |Stream(c, 0, ms + [m])| > |Stream(c, 0, ms)|
  {
    assert ValidMessage((ms + [m])[|ms|]);
    StreamSnoc(c, 0, ms, m);
  }

  lemma CappedIsNotDelivered(st: State, st': State, c: Class, m: Message)
    requires Inv(st) && Inv(st') && Capped(st', c, |st.lanes.At(c).stream|)
    ensures !Delivered(st', c, st.lanes.At(c).messages + [m])
  {
    Disassemble(st, c);
    Disassemble(st', c);
    var lane, lane' := st.lanes.At(c), st'.lanes.At(c);
    assert !Seen(lane'.recv, |lane.stream|);
    if lane'.messages == lane.messages + [m] { LongerStream(c, lane.messages, m); }
  }

  /**
   * In every reachable state, whatever was lost, repeated, failed or commanded: some continuation with one more message
   * brings every message of the class across, once, in order and unchanged, exactly if some sender has not broken off.
   */
  lemma AlwaysDeliverable(st: State, c: Class, i: nat, m: Message)
    requires Reachable(st) && i < |st.producers| && ValidMessage(m)
    ensures (exists events :: Delivers(st, events, c, m))
       <==> exists j :: 0 <= j < |st.senders| && !Broken(st.senders[j])
  {
    if j: nat :| j < |st.senders| && !Broken(st.senders[j]) {
      UnbrokenDelivers(st, c, i, m, j);
    } else {
      ReachableInv(st);
      ReachableCapped(st, c);
      hide Capped, Inv, Delivered, Broken;
      forall events | ValidRun(st, events) ensures !Delivers(st, events, c, m) {
        CappedForever(st, events, c, |st.lanes.At(c).stream|);
        RunKeepsInv(st, events);
        CappedIsNotDelivered(st, Exec(st, events), c, m);
      }
    }
  }
}
