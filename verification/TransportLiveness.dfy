/**
 * When the sending side can finish its work. A sender that found nothing waits inside dequeue until it is notified:
 * by an enqueue that lets the send queue grow, or by a pause. A retransmission only joins the failed list.
 */
module TransportLiveness {
  import opened Segments
  import opened Transport
  import opened TransportSteps
  import opened TransportRuns
  import opened TransportRecovery
  import AndroidQueue
  import LinuxQueue
  import SentList

  // --- The send queue and its waiters ---

  lemma {:induction false} DrainGrows(q: Queue)
    ensures LinuxQueue.Drain(q).expected - q.expected == |LinuxQueue.Drain(q).main| - |q.main| >= 0
    ensures q.main <= LinuxQueue.Drain(q).main
    ensures |LinuxQueue.Drain(q).main| + |LinuxQueue.Drain(q).pending| == |q.main| + |q.pending|
    decreases |q.pending|
  {
    if q.pending != [] && q.pending[0].no == q.expected {
      DrainGrows(Queue(q.main + [q.pending[0]], q.pending[1..], q.expected + 1));
    }
  }

  lemma {:induction false} InsertCounts(pending: seq<Segment>, s: Segment)
    ensures |LinuxQueue.InsertSorted(pending, s)| == |pending| + 1
  {
    if pending != [] && pending[0].no <= s.no { InsertCounts(pending[1..], s); }
  }

  function Queued(q: Queue): nat {
    |q.main| + |q.pending|
  }

  /** One more segment; the wanted number and the main queue grow together, and they do for the wanted segment. */
  lemma EnqueueGrows(q: Queue, s: Segment)
    ensures var q' := LinuxQueue.Enqueued(q, s);
      && Queued(q') == Queued(q) + 1
      && q'.expected >= q.expected
      && (q'.expected == q.expected ==> q'.main == q.main)
      && (s.no == q.expected ==> q'.expected > q.expected && q'.main != [])
  {
    if s.no == q.expected {
      DrainGrows(q.(main := q.main + [s], expected := q.expected + 1));
    } else {
      InsertCounts(q.pending, s);
      DrainGrows(q.(pending := LinuxQueue.InsertSorted(q.pending, s)));
    }
  }

  predicate BothEmpty(st: State) {
    st.lanes.control.sendQ.main == [] && st.lanes.data.sendQ.main == []
  }

  /** Nobody waits while there is something in a send queue. */
  ghost predicate NoneMissed(st: State) {
    forall k :: 0 <= k < |st.senders| && st.senders[k].pc == Blocked ==> BothEmpty(st)
  }

  lemma StepKeepsNoneMissed(st: State, e: Event)
    requires NoneMissed(st) && Enabled(st, e)
    ensures NoneMissed(Apply(st, e))
  {
    if e.EnqueueOne? {
      var p := st.producers[e.i];
      EnqueueGrows(st.lanes.At(p.cls).sendQ, st.lanes.At(p.cls).stream[p.lo]);
    }
  }

  lemma {:induction false} RunKeepsNoneMissed(st: State, events: seq<Event>)
    requires NoneMissed(st) && ValidRun(st, events)
    ensures NoneMissed(Exec(st, events))
    decreases |events|
  {
    if events != [] {
      StepKeepsNoneMissed(st, events[0]);
      RunKeepsNoneMissed(Apply(st, events[0]), events[1..]);
    }
  }

  // --- Senders and their adapters ---

  /** A sender parks only while its adapter sleeps, and a disconnected adapter's sender is out of its loop. */
  predicate Linked(s: Sender) {
    (s.pc == Parked ==> s.adapter == Sleeping) && (s.adapter == Disconnected ==> s.pc == Exited)
  }

  /**
   * The loop broke off while its adapter was not being disconnected. The adapter then stays active, or going to sleep:
   * it rejects a connection, and it is never seen asleep.
   */
  predicate Broken(s: Sender) {
    s.pc == Exited && (s.adapter == Active || s.adapter == Sleeping)
  }

  ghost predicate AllBroken(senders: seq<Sender>) {
    forall k :: 0 <= k < |senders| ==> Broken(senders[k])
  }

  /** The last sender to break off has left a failed segment; without producers there is nothing to send. */
  ghost predicate Attended(st: State) {
    && (forall k :: 0 <= k < |st.senders| ==> Linked(st.senders[k]))
    && (AllBroken(st.senders) && st.senders != [] ==> st.failed != [])
    && (st.producers == [] ==> st.lanes.data.stream == [] && st.lanes.control.stream == [])
  }

  lemma LastOneFiles(st: State, e: Event)
    requires Attended(st) && Enabled(st, e)
    requires AllBroken(Apply(st, e).senders) && st.senders != []
    ensures Apply(st, e).failed != []
  {
    if !AllBroken(st.senders) {
      var k :| 0 <= k < |st.senders| && !Broken(st.senders[k]);
      assert Broken(Apply(st, e).senders[k]);
    } else {
      assert forall k :: 0 <= k < |st.senders| ==> Broken(st.senders[k]) && st.senders[k].pc == Exited;
    }
  }

  lemma StepKeepsLinked(st: State, e: Event)
    requires Enabled(st, e) && forall k :: 0 <= k < |st.senders| ==> Linked(st.senders[k])
    ensures forall k :: 0 <= k < |st.senders| ==> Linked(Apply(st, e).senders[k])
    ensures |Apply(st, e).senders| == |st.senders|
  {
  }

  lemma NoProducerStays(st: State, e: Event)
    requires Enabled(st, e) && (st.producers == [] ==> st.lanes.data.stream == [] && st.lanes.control.stream == [])
    ensures var st' := Apply(st, e);
      st'.producers == [] ==> st'.lanes.data.stream == [] && st'.lanes.control.stream == []
  {
  }

  lemma StepKeepsAttended(st: State, e: Event)
    requires Attended(st) && Enabled(st, e)
    ensures Attended(Apply(st, e))
  {
    hide AllBroken, Apply, Enabled, Linked;
    StepKeepsLinked(st, e);
    NoProducerStays(st, e);
    if AllBroken(Apply(st, e).senders) && st.senders != [] { LastOneFiles(st, e); }
  }

  lemma {:induction false} RunKeepsAttended(st: State, events: seq<Event>)
    requires Attended(st) && ValidRun(st, events)
    ensures Attended(Exec(st, events))
    decreases |events|
  {
    if events != [] {
      StepKeepsAttended(st, events[0]);
      hide Attended, Apply, Enabled;
      RunKeepsAttended(Apply(st, events[0]), events[1..]);
    }
  }

  lemma ReachableAttended(st: State)
    requires Reachable(st)
    ensures Attended(st)
  {
    var producers: nat, senders: nat, events: seq<Event> :|
      ValidRun(Init(producers, senders), events) && Exec(Init(producers, senders), events) == st;
    assert senders > 0 ==> !Broken(Init(producers, senders).senders[0]);
    RunKeepsAttended(Init(producers, senders), events);
  }

  /** Whatever happens and whatever is commanded, senders that have all broken off stay so. */
  lemma AllBrokenStays(st: State, e: Event)
    requires AllBroken(st.senders) && Enabled(st, e)
    ensures AllBroken(Apply(st, e).senders) && Apply(st, e).wire <= st.wire
  {
    assert forall k :: 0 <= k < |st.senders| ==> Broken(st.senders[k]) && st.senders[k].pc == Exited;
  }

  /** No notification of an enqueue is ever lost: in every reachable state waiting senders see two empty queues. */
  lemma NoEnqueueIsMissed(st: State)
    requires Reachable(st)
    ensures NoneMissed(st)
  {
    var producers: nat, senders: nat, events: seq<Event> :|
      ValidRun(Init(producers, senders), events) && Exec(Init(producers, senders), events) == st;
    RunKeepsNoneMissed(Init(producers, senders), events);
  }

  // --- Steps of the sending side ---

  predicate OnSendSide(e: Event) {
    match e
    case EnqueueOne(_) => true
    case CheckPaused(_) => true
    case PopFailed(_) => true
    case Dequeue(_) => true
    case Recheck(_) => true
    case SendFails(_, _) => true
    case SendSucceeds(_) => true
    case FileSent(_) => true
    case Order(_, _) => true
    case WakeWaiting => true
    case Closed(_) => true
    case _ => false
  }

  /** Nobody reserves for a message or commands an adapter. */
  predicate LeftAlone(e: Event) {
    !e.Reserve? && !e.Order?
  }

  ghost predicate SideRun(st: State, events: seq<Event>) {
    ValidRun(st, events) && forall k :: 0 <= k < |events| ==> OnSendSide(events[k])
  }

  ghost predicate Alone(events: seq<Event>) {
    forall k :: 0 <= k < |events| ==> LeftAlone(events[k])
  }

  lemma NothingToDo(st: State)
    ensures SideRun(st, []) && Exec(st, []) == st && Alone([])
  {
  }

  lemma SideIsValid(st: State, events: seq<Event>)
    requires SideRun(st, events)
    ensures ValidRun(st, events)
  {
  }

  lemma SideCons(st: State, e: Event, rest: seq<Event>)
    requires Enabled(st, e) && OnSendSide(e) && SideRun(Apply(st, e), rest)
    ensures SideRun(st, [e] + rest) && Exec(st, [e] + rest) == Exec(Apply(st, e), rest)
    ensures LeftAlone(e) && Alone(rest) ==> Alone([e] + rest)
  {
    RunCons(st, e, rest);
  }

  /**
   * Segment `n` is on the wire, or will be once Linux has finished its work: it waits to be sent again, is being sent,
   * or was never filed as sent.
   */
  ghost predicate Coming(st: State, c: Class, n: nat)
    requires n < |st.lanes.At(c).stream|
  {
    var s := st.lanes.At(c).stream[n];
    || s in st.wire || s in st.failed
    || (exists j :: 0 <= j < |st.senders| && (st.senders[j].pc == Holding(s) || st.senders[j].pc == Cleared(s)))
    || (s !in st.lanes.At(c).sent && n >= st.lanes.At(c).acked && InNobodysHands(st.senders, s))
  }

  /** No sender has transmitted it and has still to file it. */
  ghost predicate InNobodysHands(senders: seq<Sender>, s: Segment) {
    forall j :: 0 <= j < |senders| ==> senders[j].pc != Transmitted(s)
  }

  /** Everything but the send queues, the sent lists, the failed list and the senders is as before. */
  ghost predicate SameLane(a: Lane, b: Lane) {
    && b.recv == a.recv && b.taken == a.taken && b.messages == a.messages
    && b.stream == a.stream && b.next == a.next && b.acked == a.acked
  }

  ghost predicate IdleStays(ps: seq<Producer>, ps': seq<Producer>) {
    |ps| == |ps'| && forall i :: 0 <= i < |ps| && ps[i] == Idle ==> ps'[i] == Idle
  }

  ghost predicate Forwarded(st: State, st': State) {
    && SameLane(st.lanes.data, st'.lanes.data) && SameLane(st.lanes.control, st'.lanes.control)
    && |st'.senders| == |st.senders| && IdleStays(st.producers, st'.producers)
    && st'.notices == st.notices && st.wire <= st'.wire
    && (forall c: Class, n :: 0 <= n < |st.lanes.At(c).stream| && Coming(st, c, n) ==> Coming(st', c, n))
  }

  lemma HandsAfter(senders: seq<Sender>, senders': seq<Sender>, j: nat, s: Segment)
    requires j < |senders| == |senders'| && forall k :: 0 <= k < |senders| && k != j ==> senders'[k].pc == senders[k].pc
    ensures InNobodysHands(senders, s) && senders'[j].pc != Transmitted(s) ==> InNobodysHands(senders', s)
  {
  }

  /** Only sender `j` moved: a segment somebody else was about to send still is. */
  lemma ComingElsewhere(st: State, st': State, j: nat, c: Class, n: nat)
    requires n < |st.lanes.At(c).stream| && Coming(st, c, n)
    requires j < |st.senders| == |st'.senders|
    requires forall k :: 0 <= k < |st.senders| && k != j ==> st'.senders[k].pc == st.senders[k].pc
    requires st'.lanes.At(c).stream == st.lanes.At(c).stream && st'.lanes.At(c).acked == st.lanes.At(c).acked
    requires st.wire <= st'.wire
    requires var s := st.lanes.At(c).stream[n];
      && (s in st.failed ==> s in st'.failed || st'.senders[j].pc == Holding(s))
      && (st.senders[j].pc == Holding(s) || st.senders[j].pc == Cleared(s) ==>
            s in st'.wire || s in st'.failed || st'.senders[j].pc == Holding(s) || st'.senders[j].pc == Cleared(s))
      && (s in st'.lanes.At(c).sent ==> s in st.lanes.At(c).sent || st.senders[j].pc == Transmitted(s))
      && (st'.senders[j].pc == Transmitted(s) ==> st.senders[j].pc == Transmitted(s) || s in st'.wire)
    ensures Coming(st', c, n)
  {
    var s := st.lanes.At(c).stream[n];
    if k: nat :| k < |st.senders| && (st.senders[k].pc == Holding(s) || st.senders[k].pc == Cleared(s)) {
      assert k != j ==> st'.senders[k].pc == st.senders[k].pc;
    }
    HandsAfter(st.senders, st'.senders, j, s);
  }

  lemma ComingWhenWoken(st: State, st': State, c: Class, n: nat)
    requires n < |st.lanes.At(c).stream| && Coming(st, c, n)
    requires |st.senders| == |st'.senders| && st'.failed == st.failed && st'.wire == st.wire
    requires forall k :: 0 <= k < |st.senders| ==>
      (st'.senders[k].pc == st.senders[k].pc || (HeldSeg(st.senders[k].pc).None? && HeldSeg(st'.senders[k].pc).None?))
    requires var lane, lane' := st.lanes.At(c), st'.lanes.At(c);
      lane'.stream == lane.stream && lane'.sent == lane.sent && lane'.acked == lane.acked
    ensures Coming(st', c, n)
  {
    var s := st.lanes.At(c).stream[n];
    if k: nat :| k < |st.senders| && (st.senders[k].pc == Holding(s) || st.senders[k].pc == Cleared(s)) {
      assert st'.senders[k].pc == st.senders[k].pc;
    }
  }

  ghost predicate SentSorted(st: State) {
    Ascending(st.lanes.data.sent) && Ascending(st.lanes.control.sent)
  }

  lemma InvSorts(st: State)
    requires Inv(st)
    ensures SentSorted(st)
  {
    Disassemble(st, Data);
  }

  lemma ComingFiled(st: State, j: nat, c: Class, n: nat)
    requires SentSorted(st) && Enabled(st, FileSent(j))
    requires n < |st.lanes.At(c).stream| && Coming(st, c, n)
    ensures n < |Apply(st, FileSent(j)).lanes.At(c).stream| && Coming(Apply(st, FileSent(j)), c, n)
  {
    var seg := st.senders[j].pc.seg;
    SentList.InsertedIs(st.lanes.At(seg.cls).sent, seg);
    ComingElsewhere(st, Apply(st, FileSent(j)), j, c, n);
  }

  lemma ComingWaking(st: State, e: Event, c: Class, n: nat)
    requires Enabled(st, e) && (e.EnqueueOne? || e.WakeWaiting? || e.Order? || e.Closed?)
    requires n < |st.lanes.At(c).stream| && Coming(st, c, n)
    ensures n < |Apply(st, e).lanes.At(c).stream| && Coming(Apply(st, e), c, n)
  {
    ComingWhenWoken(st, Apply(st, e), c, n);
  }

  lemma ComingFetched(st: State, e: Event, c: Class, n: nat)
    requires Enabled(st, e) && (e.PopFailed? || e.CheckPaused? || e.Dequeue?)
    requires n < |st.lanes.At(c).stream| && Coming(st, c, n)
    ensures n < |Apply(st, e).lanes.At(c).stream| && Coming(Apply(st, e), c, n)
  {
    assert st.failed != [] ==> st.failed == [st.failed[0]] + st.failed[1..];
    ComingElsewhere(st, Apply(st, e), e.j, c, n);
  }

  lemma ComingSent(st: State, e: Event, c: Class, n: nat)
    requires Enabled(st, e) && (e.Recheck? || e.SendFails? || e.SendSucceeds?)
    requires n < |st.lanes.At(c).stream| && Coming(st, c, n)
    ensures n < |Apply(st, e).lanes.At(c).stream| && Coming(Apply(st, e), c, n)
  {
    ComingElsewhere(st, Apply(st, e), e.j, c, n);
  }

  lemma ComingStays(st: State, e: Event, c: Class, n: nat)
    requires SentSorted(st) && Enabled(st, e) && OnSendSide(e)
    requires n < |st.lanes.At(c).stream| && Coming(st, c, n)
    ensures n < |Apply(st, e).lanes.At(c).stream| && Coming(Apply(st, e), c, n)
  {
    hide SentSorted, Enabled, Apply, Coming;
    match e
    case EnqueueOne(_) => ComingWaking(st, e, c, n);
    case WakeWaiting => ComingWaking(st, e, c, n);
    case Order(_, _) => ComingWaking(st, e, c, n);
    case Closed(_) => ComingWaking(st, e, c, n);
    case FileSent(j) => ComingFiled(st, j, c, n);
    case PopFailed(_) => ComingFetched(st, e, c, n);
    case CheckPaused(_) => ComingFetched(st, e, c, n);
    case Dequeue(_) => ComingFetched(st, e, c, n);
    case Recheck(_) => ComingSent(st, e, c, n);
    case SendFails(_, _) => ComingSent(st, e, c, n);
    case SendSucceeds(_) => ComingSent(st, e, c, n);
  }

  lemma SideStepElsewhere(st: State, e: Event)
    requires Enabled(st, e) && OnSendSide(e)
    ensures var st' := Apply(st, e);
      && SameLane(st.lanes.data, st'.lanes.data) && SameLane(st.lanes.control, st'.lanes.control)
      && |st'.senders| == |st.senders| && IdleStays(st.producers, st'.producers)
      && st'.notices == st.notices && st.wire <= st'.wire
  {
    hide LinuxQueue.Enqueued, SentList.Inserted, WakeAll;
  }

  lemma SideStepForwards(st: State, e: Event)
    requires SentSorted(st) && Enabled(st, e) && OnSendSide(e)
    ensures Forwarded(st, Apply(st, e))
  {
    SideStepElsewhere(st, e);
    hide SentSorted, Enabled, Apply, Coming;
    forall c: Class, n | 0 <= n < |st.lanes.At(c).stream| && Coming(st, c, n) ensures Coming(Apply(st, e), c, n) {
      ComingStays(st, e, c, n);
    }
  }

  lemma ForwardedTwice(st: State, st1: State, st2: State)
    requires Forwarded(st, st1) && Forwarded(st1, st2)
    ensures Forwarded(st, st2)
  {
    hide Coming;
  }

  /** Whatever the sending side does, nothing that was coming gets lost and the receiver is not touched. */
  lemma {:induction false} SideRunForwards(st: State, events: seq<Event>)
    requires Inv(st) && SideRun(st, events)
    ensures Inv(Exec(st, events)) && Forwarded(st, Exec(st, events))
    decreases |events|
  {
    if events == [] {
      SameIsForwarded(st);
    } else {
      SideTail(st, events);
      var st1 := Apply(st, events[0]);
      hide *;
      InvSorts(st);
      SideStepForwards(st, events[0]);
      StepKeepsInv(st, events[0]);
      SideRunForwards(st1, events[1..]);
      ForwardedTwice(st, st1, Exec(st, events));
    }
  }

  lemma SameIsForwarded(st: State)
    ensures Forwarded(st, st)
  {
    hide Coming;
  }

  lemma SideTail(st: State, events: seq<Event>)
    requires SideRun(st, events) && events != []
    ensures Enabled(st, events[0]) && OnSendSide(events[0])
    ensures SideRun(Apply(st, events[0]), events[1..])
    ensures Exec(st, events) == Exec(Apply(st, events[0]), events[1..])
  {
  }

  // --- Who can still work ---

  /** A waiting sender will be notified, or an asking one will find a segment. */
  ghost predicate Waker(st: State) {
    !BothEmpty(st) || st.owed > 0 || exists i :: 0 <= i < |st.producers| && st.producers[i].Sending?
  }

  /** In its loop, with its adapter active. */
  predicate Alive(s: Sender) {
    s.adapter == Active && s.pc != Exited && s.pc != Parked
  }

  /** In its loop, its adapter active, and not caught in dequeue without anyone to wake it. */
  ghost predicate Works(st: State, s: Sender) {
    Alive(s) && (s.pc == Asking || s.pc == Blocked ==> Waker(st))
  }

  function Unsent(ps: seq<Producer>): nat {
    if ps == [] then 0 else Remaining(ps[0]) + Unsent(ps[1..])
  }

  function Remaining(p: Producer): nat {
    if p.Sending? && p.lo < p.hi then p.hi - p.lo else 0
  }

  /** Steps on the way to the next segment, and from there to the top of the loop. */
  function SenderRank(s: Sender): nat {
    match s.pc
    case Exited => 0
    case Parked => 0
    case Holding(_) => if s.adapter == Active then 15 else 40
    case Cleared(_) => if s.adapter == Active then 14 else 38
    case Transmitted(_) => 13
    case Woken => 13
    case Top => 12
    case Ready => 11
    case Asking => 10
    case Blocked => 9
  }

  function SendersRank(senders: seq<Sender>): nat {
    if senders == [] then 0 else SenderRank(senders[0]) + SendersRank(senders[1..])
  }

  /** What one notification can cost. */
  function Unit(st: State): nat {
    100 + 4 * |st.senders|
  }

  function Work(st: State): nat {
    Unit(st) * (Unsent(st.producers) + st.owed)
    + 20 * (Queued(st.lanes.data.sendQ) + Queued(st.lanes.control.sendQ) + |st.failed|)
    + SendersRank(st.senders)
  }

  lemma {:induction false} UnsentUpdate(ps: seq<Producer>, i: nat, p: Producer)
    requires i < |ps|
    ensures Unsent(ps[i := p]) + Remaining(ps[i]) == Unsent(ps) + Remaining(p)
    decreases |ps|
  {
    var after := ps[i := p];
    if i == 0 {
      assert after[1..] == ps[1..];
    } else {
      assert after[1..] == ps[1..][i - 1 := p];
      UnsentUpdate(ps[1..], i - 1, p);
    }
  }

  lemma {:induction false} SendersUpdate(senders: seq<Sender>, j: nat, s: Sender)
    requires j < |senders|
    ensures SendersRank(senders[j := s]) + SenderRank(senders[j]) == SendersRank(senders) + SenderRank(s)
    decreases |senders|
  {
    var after := senders[j := s];
    if j == 0 {
      assert after[1..] == senders[1..];
    } else {
      assert after[1..] == senders[1..][j - 1 := s];
      SendersUpdate(senders[1..], j - 1, s);
    }
  }

  lemma {:induction false} WakeCosts(senders: seq<Sender>)
    ensures SendersRank(WakeAll(senders)) <= SendersRank(senders) + 4 * |senders|
  {
    if senders != [] {
      assert WakeAll(senders)[1..] == WakeAll(senders[1..]);
      WakeCosts(senders[1..]);
    }
  }

  // --- Some step always gets closer ---

  /** Linux has nothing left to do: all that was reserved was transmitted and filed, or is acknowledged. */
  ghost predicate Quiet(st: State) {
    && (forall i :: 0 <= i < |st.producers| ==> st.producers[i] == Idle)
    && (forall j :: 0 <= j < |st.senders| ==> HeldSeg(st.senders[j].pc) == None)
    && st.failed == []
    && (forall c: Class :: st.lanes.At(c).sendQ.main == [] && st.lanes.At(c).sendQ.pending == [])
  }

  /** A step of the threads themselves that leaves less work and sender `j` able to go on. */
  ghost predicate Closer(st: State, e: Event, j: nat) {
    && Enabled(st, e) && OnSendSide(e) && LeftAlone(e) && Work(Apply(st, e)) < Work(st)
    && j < |Apply(st, e).senders| && Works(Apply(st, e), Apply(st, e).senders[j])
  }

  lemma OneUnitLess(st: State, k: nat)
    requires k > 0
    ensures Unit(st) * (k - 1) == Unit(st) * k - Unit(st)
  {
  }

  /** It is the turn of producer `k`: the number it has next is the wanted one. */
  ghost predicate ItsTurn(st: State, k: nat) {
    && k < |st.producers| && st.producers[k].Sending? && st.producers[k].lo < st.producers[k].hi
    && var lane := st.lanes.At(st.producers[k].cls);
    && st.producers[k].lo == lane.sendQ.expected < |lane.stream|
    && lane.stream[lane.sendQ.expected].no == lane.sendQ.expected
  }

  lemma OwnerOfExpected(lane: Lane, c: Class, producers: seq<Producer>, i: nat) returns (k: nat)
    requires LaneOk(lane, c) && ProducersOk(producers, c, lane.sendQ, lane.next)
    requires i < |producers| && producers[i].Sending? && producers[i].cls == c
    ensures k < |producers| && producers[k].Sending? && producers[k].cls == c
    ensures producers[k].lo == lane.sendQ.expected < lane.next && producers[k].lo < producers[k].hi
  {
    var q := lane.sendQ;
    assert Owns(producers[i], c, producers[i].lo);
    assert forall x :: 0 <= x < |q.pending| ==> q.pending[x].no > q.expected;
    assert !Covered(q, q.expected);
    assert !Covered(q, producers[i].lo);
    assert q.expected <= producers[i].lo < lane.next;
    k :| 0 <= k < |producers| && Owns(producers[k], c, q.expected);
    assert Owns(producers[k], c, producers[k].lo);
    assert !Covered(q, producers[k].lo);
  }

  lemma NextOwner(st: State, i: nat) returns (k: nat)
    requires Inv(st) && i < |st.producers| && st.producers[i].Sending?
    ensures ItsTurn(st, k)
  {
    var c := st.producers[i].cls;
    Disassemble(st, c);
    k := OwnerOfExpected(st.lanes.At(c), c, st.producers, i);
  }

  lemma EnqueueLessWork(st: State, k: nat)
    requires ItsTurn(st, k)
    ensures Enabled(st, EnqueueOne(k)) && Work(Apply(st, EnqueueOne(k))) < Work(st)
  {
    var p := st.producers[k];
    var lane := st.lanes.At(p.cls);
    EnqueueGrows(lane.sendQ, lane.stream[p.lo]);
    UnsentUpdate(st.producers, k, Advanced(p));
    WakeCosts(st.senders);
    OneUnitLess(st, Unsent(st.producers) + st.owed);
  }

  lemma EnqueueCloser(st: State, k: nat, j: nat)
    requires ItsTurn(st, k) && j < |st.senders| && Alive(st.senders[j])
    ensures Closer(st, EnqueueOne(k), j)
  {
    var lane := st.lanes.At(st.producers[k].cls);
    EnqueueLessWork(st, k);
    hide Work;
    EnqueueGrows(lane.sendQ, lane.stream[st.producers[k].lo]);
    assert Waker(Apply(st, EnqueueOne(k)));
  }

  lemma PcCloser(st: State, j: nat, pc: Pc)
    requires j < |st.senders|
    ensures Work(WithPc(st, j, pc)) + SenderRank(st.senders[j]) == Work(st) + SenderRank(st.senders[j].(pc := pc))
  {
    SendersUpdate(st.senders, j, st.senders[j].(pc := pc));
  }

  /** The next step of a sender that holds a segment: only an active adapter sends it. */
  function HolderStep(s: Sender, k: nat): Event {
    if s.pc.Holding? then Recheck(k)
    else if s.pc.Transmitted? then FileSent(k)
    else if s.adapter == Active then SendSucceeds(k)
    else SendFails(k, s.adapter == Disconnecting)
  }

  lemma HolderLessWork(st: State, k: nat)
    requires k < |st.senders| && HeldSeg(st.senders[k].pc).Some?
    ensures var e := HolderStep(st.senders[k], k);
      Enabled(st, e) && Work(Apply(st, e)) < Work(st)
  {
    var pc, adapter := st.senders[k].pc, st.senders[k].adapter;
    PcCloser(st, k, if pc.Holding? && adapter != Sleeping then Cleared(pc.seg)
                    else if pc.Cleared? && adapter == Active then Transmitted(pc.seg)
                    else if pc.Cleared? && adapter == Disconnecting then Exited
                    else Top);
  }

  /** A sender that holds a segment gets rid of it; one whose adapter is not active gives it back. */
  lemma HolderCloser(st: State, k: nat, j: nat)
    requires k < |st.senders| && HeldSeg(st.senders[k].pc).Some?
    requires j < |st.senders| && Works(st, st.senders[j])
    ensures exists e :: Closer(st, e, j)
  {
    hide Work;
    HolderLessWork(st, k);
    assert Closer(st, HolderStep(st.senders[k], k), j);
  }

  lemma WakeCloser(st: State, j: nat)
    requires j < |st.senders| && Works(st, st.senders[j]) && st.senders[j].pc == Blocked && st.owed > 0
    ensures Closer(st, WakeWaiting, j)
  {
    WakeCosts(st.senders);
    OneUnitLess(st, Unsent(st.producers) + st.owed);
  }

  /** A sender that can go on and has something to fetch gets closer to it. */
  lemma FetcherCloser(st: State, j: nat)
    requires NoneMissed(st) && j < |st.senders| && Works(st, st.senders[j]) && HeldSeg(st.senders[j].pc).None?
    requires forall i :: 0 <= i < |st.producers| ==> st.producers[i] == Idle
    requires st.failed != [] || !BothEmpty(st)
    ensures exists e :: Closer(st, e, j)
  {
    match st.senders[j].pc {
      case Top =>
        PcCloser(st, j, Pc.Ready);
        assert Closer(st, CheckPaused(j), j);
      case Ready =>
        PcCloser(st, j, if st.failed == [] then Asking else Holding(st.failed[0]));
        assert Closer(st, PopFailed(j), j);
      case Blocked => WakeCloser(st, j);
      case _ => DequeueCloser(st, j);
    }
  }

  lemma DequeueLessWork(st: State, j: nat)
    requires j < |st.senders| && (st.senders[j].pc == Asking || st.senders[j].pc == Woken)
    requires Works(st, st.senders[j])
    ensures Work(Apply(st, Dequeue(j))) < Work(st)
  {
    assert st.senders[j].adapter == Active;
    hide Works;
    if st.lanes.control.sendQ.main != [] {
      PcCloser(st, j, Holding(st.lanes.control.sendQ.main[0]));
    } else if st.lanes.data.sendQ.main != [] {
      PcCloser(st, j, Holding(st.lanes.data.sendQ.main[0]));
    } else {
      PcCloser(st, j, if st.senders[j].pc == Asking then Blocked else Top);
    }
  }

  lemma DequeueCloser(st: State, j: nat)
    requires j < |st.senders| && (st.senders[j].pc == Asking || st.senders[j].pc == Woken)
    requires Works(st, st.senders[j])
    ensures Closer(st, Dequeue(j), j)
  {
    DequeueLessWork(st, j);
    hide Work;
  }

  /** When no producer has anything left, every reserved number has been enqueued and none waits for another. */
  lemma NothingPending(lane: Lane, c: Class, producers: seq<Producer>)
    requires LaneOk(lane, c) && ProducersOk(producers, c, lane.sendQ, lane.next)
    requires forall i :: 0 <= i < |producers| ==> producers[i] == Idle
    ensures lane.sendQ.pending == [] && lane.sendQ.expected == lane.next == |lane.stream|
  {
    var q := lane.sendQ;
    assert forall k :: 0 <= k < |q.pending| ==> q.pending[k] in q.pending && q.pending[k].no > q.expected;
    assert !Covered(q, q.expected);
    assert q.expected >= lane.next;
  }

  /** Either Linux is quiet, or the threads have a step that leaves less work, as long as some sender can go on. */
  lemma QuietOrCloser(st: State, j: nat)
    requires Inv(st) && NoneMissed(st) && j < |st.senders| && Works(st, st.senders[j])
    ensures Quiet(st) || exists e :: Closer(st, e, j)
  {
    if i: nat :| i < |st.producers| && st.producers[i] != Idle {
      var k := NextOwner(st, i);
      EnqueueCloser(st, k, j);
    } else if k: nat :| k < |st.senders| && HeldSeg(st.senders[k].pc).Some? {
      HolderCloser(st, k, j);
    } else if st.failed != [] || !BothEmpty(st) {
      FetcherCloser(st, j);
    } else {
      Disassemble(st, Data);
      NothingPending(st.lanes.data, Data, st.producers);
      NothingPending(st.lanes.control, Control, st.producers);
    }
  }

  /** Where some sender can go on, the threads finish all the work of Linux on their own. */
  lemma {:induction false} BecomesQuiet(st: State, j: nat)
    requires Inv(st) && NoneMissed(st) && j < |st.senders| && Works(st, st.senders[j])
    ensures exists events :: SideRun(st, events) && Alone(events) && Quiet(Exec(st, events))
    decreases Work(st)
  {
    hide Inv, NoneMissed, Quiet, Apply, Enabled, Works, Exec, Work, Alone;
    if Quiet(st) {
      NothingToDo(st);
    } else {
      QuietOrCloser(st, j);
      var e :| Closer(st, e, j);
      var st1 := Apply(st, e);
      StepKeepsInv(st, e);
      StepKeepsNoneMissed(st, e);
      BecomesQuiet(st1, j);
      var rest :| SideRun(st1, rest) && Alone(rest) && Quiet(Exec(st1, rest));
      SideCons(st, e, rest);
    }
  }

  // --- Who cannot ---

  /** Every sender is out of its loop, has no active adapter, or waits in dequeue with nothing to wake it. */
  ghost predicate NobodyWorks(st: State) {
    forall j :: 0 <= j < |st.senders| ==> !Works(st, st.senders[j])
  }

  lemma NobodyMoves(st: State, st': State, j: nat)
    requires NobodyWorks(st) && j < |st.senders| == |st'.senders|
    requires forall k :: 0 <= k < |st.senders| && k != j ==> st'.senders[k] == st.senders[k]
    requires !Works(st', st'.senders[j]) && (Waker(st') ==> Waker(st))
    ensures NobodyWorks(st')
  {
    assert forall k :: 0 <= k < |st.senders| ==> !Works(st, st.senders[k]);
  }

  lemma NobodyFetches(st: State, e: Event)
    requires NobodyWorks(st) && Enabled(st, e) && (e.CheckPaused? || e.PopFailed? || e.Dequeue? || e.Recheck?)
    ensures NobodyWorks(Apply(st, e))
  {
    assert !Works(st, st.senders[e.j]);
    NobodyMoves(st, Apply(st, e), e.j);
  }

  lemma NobodySends(st: State, e: Event)
    requires NobodyWorks(st) && Enabled(st, e) && (e.SendFails? || e.SendSucceeds? || e.FileSent?)
    ensures NobodyWorks(Apply(st, e))
  {
    assert !Works(st, st.senders[e.j]);
    NobodyMoves(st, Apply(st, e), e.j);
  }

  lemma NobodyCloses(st: State, j: nat)
    requires NobodyWorks(st) && Enabled(st, Closed(j))
    ensures NobodyWorks(Apply(st, Closed(j)))
  {
    NobodyMoves(st, Apply(st, Closed(j)), j);
  }

  /** Where a notification is possible, no sender in its loop has an active adapter: it wakes nobody up to work. */
  lemma NobodyWakes(st: State, e: Event)
    requires NobodyWorks(st) && Enabled(st, e) && (e.EnqueueOne? || e.WakeWaiting?)
    ensures NobodyWorks(Apply(st, e))
  {
    var st' := Apply(st, e);
    assert Waker(st);
    assert forall k :: 0 <= k < |st.senders| ==> !Works(st, st.senders[k]);
    assert forall k :: 0 <= k < |st.senders| ==>
        Alive(st'.senders[k]) == Alive(st.senders[k]);
  }

  lemma NobodyElsewhere(st: State, e: Event)
    requires NobodyWorks(st) && Enabled(st, e)
    requires e.Deliver? || e.Lose? || e.Take? || e.NotifyStatus? || e.RequestGaps? || e.OnNotice? || e.LoseNotice?
    ensures NobodyWorks(Apply(st, e))
  {
    var st' := Apply(st, e);
    assert st'.senders == st.senders && st'.producers == st.producers && st'.owed == st.owed;
    assert BothEmpty(st') == BothEmpty(st);
    assert forall k :: 0 <= k < |st.senders| ==> !Works(st, st.senders[k]);
  }

  /** Left alone, a system in which nobody can work stays one. */
  lemma NobodyWorksStays(st: State, e: Event)
    requires NobodyWorks(st) && Enabled(st, e) && LeftAlone(e)
    ensures NobodyWorks(Apply(st, e))
  {
    hide NobodyWorks, Enabled, Apply;
    match e
    case CheckPaused(_) => NobodyFetches(st, e);
    case PopFailed(_) => NobodyFetches(st, e);
    case Dequeue(_) => NobodyFetches(st, e);
    case Recheck(_) => NobodyFetches(st, e);
    case SendFails(_, _) => NobodySends(st, e);
    case SendSucceeds(_) => NobodySends(st, e);
    case FileSent(_) => NobodySends(st, e);
    case Closed(j) => NobodyCloses(st, j);
    case EnqueueOne(_) => NobodyWakes(st, e);
    case WakeWaiting => NobodyWakes(st, e);
    case _ => NobodyElsewhere(st, e);
  }

  /** There is something to send again, or a sender is about to give it back. */
  ghost predicate Leftover(st: State) {
    st.failed != [] || exists k :: 0 <= k < |st.senders| && (st.senders[k].pc.Holding? || st.senders[k].pc.Cleared?)
  }

  lemma LeftoverStays(st: State, e: Event)
    requires NobodyWorks(st) && Leftover(st) && Enabled(st, e) && LeftAlone(e)
    ensures Leftover(Apply(st, e))
  {
    var st' := Apply(st, e);
    assert e.SendSucceeds? ==> Works(st, st.senders[e.j]);
    if e.PopFailed? && st.failed != [] {
      assert st'.senders[e.j].pc.Holding?;
    } else if st.failed == [] && st'.failed == [] {
      var k :| 0 <= k < |st.senders| && (st.senders[k].pc.Holding? || st.senders[k].pc.Cleared?);
      assert st'.senders[k].pc.Holding? || st'.senders[k].pc.Cleared?;
    }
  }

  /** Something is to be sent again and nobody can do it. */
  ghost predicate Stuck(st: State) {
    NobodyWorks(st) && Leftover(st)
  }

  lemma {:induction false} StuckForever(st: State, events: seq<Event>)
    requires Stuck(st) && ValidRun(st, events) && Alone(events)
    ensures Stuck(Exec(st, events))
    decreases |events|
  {
    if events != [] {
      assert LeftAlone(events[0]);
      assert forall k :: 0 <= k < |events| - 1 ==> events[1..][k] == events[k + 1];
      NobodyWorksStays(st, events[0]);
      LeftoverStays(st, events[0]);
      StuckForever(Apply(st, events[0]), events[1..]);
    }
  }

  /** A run in which nobody intervenes and Linux finishes all its work. */
  ghost predicate FinishesAlone(st: State, events: seq<Event>) {
    ValidRun(st, events) && Alone(events) && Quiet(Exec(st, events))
  }

  /**
   * A segment that waits to be sent again is sent, without a message or a command to an adapter, exactly if some
   * sender is in its loop, has an active adapter, and is not caught in dequeue with empty queues and nothing to wake
   * it.
   */
  lemma SentAgainExactly(st: State)
    requires Reachable(st) && st.failed != []
    ensures (exists events :: FinishesAlone(st, events))
       <==> exists j :: 0 <= j < |st.senders| && Works(st, st.senders[j])
  {
    if j: nat :| j < |st.senders| && Works(st, st.senders[j]) {
      ReachableInv(st);
      NoEnqueueIsMissed(st);
      BecomesQuiet(st, j);
      var events :| SideRun(st, events) && Alone(events) && Quiet(Exec(st, events));
      assert FinishesAlone(st, events);
    } else {
      assert Stuck(st);
      forall events | ValidRun(st, events) && Alone(events) ensures !Quiet(Exec(st, events)) {
        StuckForever(st, events);
      }
    }
  }

  // --- Bringing a sender back ---

  /** Not in dequeue, its adapter active, in its loop. */
  predicate Fetching(s: Sender) {
    Alive(s) && s.pc != Asking && s.pc != Blocked
  }

  /** Steps of the threads, and commands, after which sender `j` is fetching. */
  ghost predicate BroughtUp(st: State, events: seq<Event>, j: nat) {
    SideRun(st, events) && j < |Exec(st, events).senders| && Fetching(Exec(st, events).senders[j])
  }

  lemma BringUpCons(st: State, e: Event, rest: seq<Event>, j: nat)
    requires Enabled(st, e) && OnSendSide(e) && BroughtUp(Apply(st, e), rest, j)
    ensures BroughtUp(st, [e] + rest, j)
  {
    SideCons(st, e, rest);
  }

  lemma AlreadyUp(st: State, j: nat)
    requires j < |st.senders| && Fetching(st.senders[j])
    ensures BroughtUp(st, [], j)
  {
  }

  /** Waiting in dequeue, or bound to. */
  predicate Hungry(pc: Pc, failed: seq<Segment>) {
    pc == Asking || pc == Blocked || (pc == Ready && failed == [])
  }

  /** Hungry while its adapter sleeps or disconnects. */
  predicate Caught(s: Sender, failed: seq<Segment>) {
    (s.adapter == Sleeping || s.adapter == Disconnecting) && Hungry(s.pc, failed)
  }

  /** Somebody will notify the waiting senders, or can be told to: a pause of any active adapter does. */
  ghost predicate Notifiable(st: State) {
    Waker(st) || exists k :: 0 <= k < |st.senders| && st.senders[k].adapter == Active
  }

  /** Sender `j` has not broken off; if its adapter sleeps or disconnects, it is not caught in dequeue for good. */
  ghost predicate CanCome(st: State, j: nat)
    requires j < |st.senders|
  {
    && !Broken(st.senders[j])
    && (Caught(st.senders[j], st.failed) ==> Notifiable(st))
  }

  /** The way of a sender to its parking place, or out of its loop, and from there back to work. */
  function HomeStep(s: Sender, j: nat): Event {
    match s.pc
    case Top => CheckPaused(j)
    case Ready => PopFailed(j)
    case Woken => Dequeue(j)
    case Parked => Order(j, WakeUp)
    case Exited => if s.adapter == Disconnecting then Closed(j) else Order(j, Connect)
    case _ => HolderStep(s, j)
  }

  function HomeRank(s: Sender): nat {
    match s.pc
    case Ready => 6
    case Woken => 6
    case Holding(_) => 5
    case Cleared(_) => 4
    case Transmitted(_) => 4
    case Top => 3
    case Exited => if s.adapter == Disconnecting then 2 else 1
    case _ => 1
  }

  lemma HomeCloser(st: State, j: nat)
    requires j < |st.senders| && Linked(st.senders[j]) && !Broken(st.senders[j]) && st.senders[j].adapter != Active
    requires !Hungry(st.senders[j].pc, st.failed)
    ensures var e := HomeStep(st.senders[j], j);
      && Enabled(st, e) && OnSendSide(e)
      && var st' := Apply(st, e);
      && j < |st'.senders| && Linked(st'.senders[j]) && !Broken(st'.senders[j])
      && (Fetching(st'.senders[j])
          || (st'.senders[j].adapter != Active && !Hungry(st'.senders[j].pc, st'.failed)
              && HomeRank(st'.senders[j]) < HomeRank(st.senders[j])))
  {
  }

  /** Not hungry, a sender finds its way home, and commands bring it back to work. */
  lemma {:induction false} ComesHome(st: State, j: nat)
    requires j < |st.senders| && Linked(st.senders[j]) && !Broken(st.senders[j]) && st.senders[j].adapter != Active
    requires !Hungry(st.senders[j].pc, st.failed)
    ensures exists events :: BroughtUp(st, events, j)
    decreases HomeRank(st.senders[j])
  {
    var e := HomeStep(st.senders[j], j);
    HomeCloser(st, j);
    var st1 := Apply(st, e);
    hide Linked, Broken, Enabled, Apply, Hungry, HomeStep, Fetching;
    if Fetching(st1.senders[j]) {
      AlreadyUp(st1, j);
      BringUpCons(st, e, [], j);
    } else {
      ComesHome(st1, j);
      var rest :| BroughtUp(st1, rest, j);
      BringUpCons(st, e, rest, j);
    }
  }

  /** Everything needed to bring back a hungry sender that can be notified. */
  ghost predicate Rouses(st: State, j: nat) {
    && Inv(st) && NoneMissed(st) && j < |st.senders| && Linked(st.senders[j]) && !Broken(st.senders[j])
    && (st.senders[j].adapter == Sleeping || st.senders[j].adapter == Disconnecting)
    && (Hungry(st.senders[j].pc, st.failed) ==> Notifiable(st))
  }

  /** The step that gets a hungry sender closer to a notification. */
  ghost predicate RousingStep(st: State, e: Event, j: nat) {
    && Enabled(st, e) && OnSendSide(e) && j < |Apply(st, e).senders| && Rouses(Apply(st, e), j)
    && HungerRank(Apply(st, e), j) < HungerRank(st, j)
  }

  function HungerRank(st: State, j: nat): nat
    requires j < |st.senders|
  {
    if !Hungry(st.senders[j].pc, st.failed) then 0
    else if st.senders[j].pc == Ready then 4
    else if st.senders[j].pc == Asking then 3
    else if st.owed == 0 then 2
    else 1
  }

  lemma StillNotifiable(st: State, j: nat)
    requires Enabled(st, Dequeue(j)) && BothEmpty(st) && Notifiable(st)
    ensures Notifiable(Apply(st, Dequeue(j)))
  {
    if k: nat :| k < |st.senders| && st.senders[k].adapter == Active {
      assert Apply(st, Dequeue(j)).senders[k].adapter == Active;
    }
  }

  lemma RouseAsking(st: State, j: nat)
    requires Rouses(st, j) && st.senders[j].pc == Asking
    ensures RousingStep(st, Dequeue(j), j)
  {
    hide Inv, NoneMissed, Notifiable;
    StepKeepsInv(st, Dequeue(j));
    StepKeepsNoneMissed(st, Dequeue(j));
    if BothEmpty(st) { StillNotifiable(st, j); }
  }

  lemma RouseReady(st: State, j: nat)
    requires Rouses(st, j) && st.senders[j].pc == Ready && st.failed == []
    ensures RousingStep(st, PopFailed(j), j)
  {
    hide Inv, NoneMissed;
    StepKeepsInv(st, PopFailed(j));
    StepKeepsNoneMissed(st, PopFailed(j));
    if k: nat :| k < |st.senders| && st.senders[k].adapter == Active {
      assert Apply(st, PopFailed(j)).senders[k].adapter == Active;
    }
  }

  lemma RouseByWaking(st: State, j: nat)
    requires Rouses(st, j) && st.senders[j].pc == Blocked && st.owed > 0
    ensures RousingStep(st, WakeWaiting, j)
  {
    StepKeepsInv(st, WakeWaiting);
    StepKeepsNoneMissed(st, WakeWaiting);
    hide Inv, NoneMissed;
  }

  lemma RouseByEnqueue(st: State, j: nat, i: nat)
    requires Rouses(st, j) && st.senders[j].pc == Blocked && i < |st.producers| && st.producers[i].Sending?
    ensures exists e :: RousingStep(st, e, j)
  {
    var k := NextOwner(st, i);
    var p := st.producers[k];
    EnqueueGrows(st.lanes.At(p.cls).sendQ, st.lanes.At(p.cls).stream[p.lo]);
    hide Inv, NoneMissed, LinuxQueue.Enqueued;
    StepKeepsInv(st, EnqueueOne(k));
    StepKeepsNoneMissed(st, EnqueueOne(k));
    assert Apply(st, EnqueueOne(k)).senders[j] == st.senders[j].(pc := Woken);
    assert RousingStep(st, EnqueueOne(k), j);
  }

  lemma RouseByPause(st: State, j: nat, k: nat)
    requires Rouses(st, j) && st.senders[j].pc == Blocked && st.owed == 0
    requires k < |st.senders| && st.senders[k].adapter == Active
    ensures RousingStep(st, Order(k, Sleep), j)
  {
    StepKeepsInv(st, Order(k, Sleep));
    StepKeepsNoneMissed(st, Order(k, Sleep));
    hide Inv, NoneMissed;
  }

  lemma RouseOne(st: State, j: nat)
    requires Rouses(st, j) && Hungry(st.senders[j].pc, st.failed)
    ensures exists e :: RousingStep(st, e, j)
  {
    assert st.senders[j].pc == Blocked ==> BothEmpty(st);
    hide Inv, NoneMissed, RousingStep, Rouses, BothEmpty;
    if st.senders[j].pc == Asking {
      RouseAsking(st, j);
    } else if st.senders[j].pc == Ready {
      RouseReady(st, j);
    } else if st.owed > 0 {
      RouseByWaking(st, j);
    } else if i: nat :| i < |st.producers| && st.producers[i].Sending? {
      RouseByEnqueue(st, j, i);
    } else {
      assert Notifiable(st) && !Waker(st) by { NotifiesHow(st, j); }
      var k :| 0 <= k < |st.senders| && st.senders[k].adapter == Active;
      RouseByPause(st, j, k);
    }
  }

  lemma NotifiesHow(st: State, j: nat)
    requires Rouses(st, j) && st.senders[j].pc == Blocked && st.owed == 0
    requires forall i :: 0 <= i < |st.producers| ==> !st.producers[i].Sending?
    ensures Notifiable(st) && !Waker(st)
  {
  }

  lemma {:induction false} RousedComes(st: State, j: nat)
    requires j < |st.senders| && Rouses(st, j)
    ensures exists events :: BroughtUp(st, events, j)
    decreases HungerRank(st, j)
  {
    hide Rouses, Inv, NoneMissed, Apply, HungerRank, Hungry, BroughtUp, Enabled;
    if Hungry(st.senders[j].pc, st.failed) {
      RouseOne(st, j);
      var e :| RousingStep(st, e, j);
      var st1 := Apply(st, e);
      RousedComes(st1, j);
      var rest :| BroughtUp(st1, rest, j);
      BringUpCons(st, e, rest, j);
    } else {
      RousedGoesHome(st, j);
    }
  }

  lemma RousedGoesHome(st: State, j: nat)
    requires Rouses(st, j) && !Hungry(st.senders[j].pc, st.failed)
    ensures exists events :: BroughtUp(st, events, j)
  {
    hide Inv, NoneMissed;
    ComesHome(st, j);
  }

  /** An active sender that waits is paused, which notifies it, and woken up again. */
  lemma ActiveComes(st: State, j: nat)
    requires Inv(st) && NoneMissed(st) && j < |st.senders| && Linked(st.senders[j])
    requires st.senders[j].adapter == Active && st.senders[j].pc != Exited
    ensures exists events :: BroughtUp(st, events, j)
  {
    if Fetching(st.senders[j]) {
      AlreadyUp(st, j);
    } else {
      var e := Order(j, Sleep);
      StepKeepsInv(st, e);
      StepKeepsNoneMissed(st, e);
      hide Inv, NoneMissed;
      assert Rouses(Apply(st, e), j);
      RousedComes(Apply(st, e), j);
      var rest :| BroughtUp(Apply(st, e), rest, j);
      BringUpCons(st, e, rest, j);
    }
  }

  lemma Comes(st: State, j: nat)
    requires Inv(st) && NoneMissed(st) && Attended(st) && j < |st.senders| && CanCome(st, j)
    ensures exists events :: BroughtUp(st, events, j)
  {
    assert Linked(st.senders[j]);
    hide Inv, NoneMissed, Notifiable;
    match st.senders[j].adapter
    case Active => ActiveComes(st, j);
    case Disconnected => ComesHome(st, j);
    case _ => RousedComes(st, j);
  }

  /** No sender can come back. */
  ghost predicate NobodyComes(st: State) {
    forall j :: 0 <= j < |st.senders| ==> !CanCome(st, j)
  }

  lemma NobodyComesStays(st: State, e: Event)
    requires Attended(st) && NobodyComes(st) && Enabled(st, e) && OnSendSide(e)
    ensures NobodyComes(Apply(st, e))
  {
    hide Linked;
    if AllBroken(st.senders) {
      AllBrokenStays(st, e);
    } else {
      StarvedStays(st, e);
    }
  }

  lemma StarvedHas(st: State, e: Event)
    requires !Notifiable(st) && Enabled(st, e) && OnSendSide(e)
    requires forall j :: 0 <= j < |st.senders| ==> Broken(st.senders[j]) || Caught(st.senders[j], st.failed)
    ensures BothEmpty(st) && (e.PopFailed? || e.Dequeue?)
  {
    assert forall j :: 0 <= j < |st.senders| ==> st.senders[j].adapter != Active;
  }

  /** Some have not broken off, but these wait in dequeue, and there is neither a notification nor an active adapter. */
  lemma StarvedStays(st: State, e: Event)
    requires NobodyComes(st) && !AllBroken(st.senders) && Enabled(st, e) && OnSendSide(e)
    ensures NobodyComes(Apply(st, e))
  {
    var k :| 0 <= k < |st.senders| && !Broken(st.senders[k]);
    assert !CanCome(st, k) && !Notifiable(st);
    forall j | 0 <= j < |st.senders| ensures Broken(st.senders[j]) || Caught(st.senders[j], st.failed) {
      assert !CanCome(st, j);
    }
    StarvedHas(st, e);
    var st' := Apply(st, e);
    assert st' == st.(senders := st.senders[e.j := st'.senders[e.j]]);
    assert Caught(st'.senders[e.j], st.failed);
    hide BothEmpty;
  }

  lemma {:induction false} NobodyComesForever(st: State, events: seq<Event>)
    requires Attended(st) && NobodyComes(st) && SideRun(st, events)
    ensures NobodyComes(Exec(st, events))
    decreases |events|
  {
    if events != [] {
      assert OnSendSide(events[0]);
      assert forall k :: 0 <= k < |events| - 1 ==> events[1..][k] == events[k + 1];
      NobodyComesStays(st, events[0]);
      StepKeepsAttended(st, events[0]);
      hide Attended, NobodyComes, Apply, Enabled;
      NobodyComesForever(Apply(st, events[0]), events[1..]);
    }
  }

  lemma FetchingHasCome(st: State, j: nat)
    requires j < |st.senders| && Fetching(st.senders[j])
    ensures CanCome(st, j)
  {
  }

  /**
   * Without a message, commands and the steps of the threads can bring a sender to work exactly if some sender has not
   * broken off and is not caught: its adapter is active or disconnected, or it is on its way to park or out of its
   * loop, or somebody can still notify it.
   */
  lemma BringUpExactly(st: State)
    requires Reachable(st)
    ensures (exists events, j :: BroughtUp(st, events, j)) <==> exists j :: 0 <= j < |st.senders| && CanCome(st, j)
  {
    hide Reachable, Inv, NoneMissed, Attended, CanCome, Exec, SideRun, Fetching;
    ReachableInv(st);
    NoEnqueueIsMissed(st);
    ReachableAttended(st);
    if j: nat :| j < |st.senders| && CanCome(st, j) {
      Comes(st, j);
    } else {
      forall events, j | BroughtUp(st, events, j) ensures false {
        SideIsValid(st, events);
        NobodyComesForever(st, events);
        FetchingHasCome(Exec(st, events), j);
      }
    }
  }
}
