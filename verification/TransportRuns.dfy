/** What holds in every run of the transport, with any number of producers and adapter senders. */
module TransportRuns {
  import opened Segments
  import opened Segmentation
  import opened PacketStream
  import opened Transport
  import opened TransportSteps
  import LinuxQueue
  import AndroidQueue
  import SentList

  predicate ValidRun(st: State, events: seq<Event>)
    decreases |events|
  {
    events != [] ==> Enabled(st, events[0]) && ValidRun(Apply(st, events[0]), events[1..])
  }

  function Exec(st: State, events: seq<Event>): State
    requires ValidRun(st, events)
    decreases |events|
  {
    if events == [] then st else Exec(Apply(st, events[0]), events[1..])
  }

  ghost predicate Reachable(st: State) {
    exists producers: nat, senders: nat, events: seq<Event> ::
      ValidRun(Init(producers, senders), events) && Exec(Init(producers, senders), events) == st
  }

  lemma {:induction false} RunKeepsInv(st: State, events: seq<Event>)
    requires Inv(st) && ValidRun(st, events)
    ensures Inv(Exec(st, events))
    decreases |events|
  {
    if events != [] {
      StepKeepsInv(st, events[0]);
      RunKeepsInv(Apply(st, events[0]), events[1..]);
    }
  }

  lemma ReachableInv(st: State)
    requires Reachable(st)
    ensures Inv(st)
  {
    var producers: nat, senders: nat, events: seq<Event> :|
      ValidRun(Init(producers, senders), events) && Exec(Init(producers, senders), events) == st;
    InitInv(producers, senders);
    RunKeepsInv(Init(producers, senders), events);
  }

  // --- Prefix safety ---

  /**
   * What Android delivered is a prefix of the numbered Linux stream, and the messages read from what the
   * application took are exactly the whole messages within it: in reservation order, once each, unchanged.
   */
  lemma PrefixSafety(st: State, c: Class)
    requires Reachable(st)
    ensures var lane := st.lanes.At(c);
      && AllValid(lane.messages) && lane.stream == Stream(c, 0, lane.messages)
      && lane.taken + lane.recv.main <= lane.stream
      && Reassembled(Int, lane.taken) == Outcomes(lane.messages[..WholeMessages(c, 0, lane.messages, |lane.taken|)])
  {
    ReachableInv(st);
    Disassemble(st, c);
    var lane := st.lanes.At(c);
    assert lane.taken == (lane.taken + lane.recv.main)[..|lane.taken|] == lane.stream[..|lane.taken|];
    hide Reassembled, WholeMessages, ReadsBack, Stream, LaneInv, Inv;
    PrefixGivesMessages(Int, c, 0, lane.messages, |lane.taken|);
    AllReadBack(Int, Reassembled(Int, lane.taken), lane.messages, WholeMessages(c, 0, lane.messages, |lane.taken|));
  }

  /** Once every segment was taken, every message sent has been received. */
  lemma CompleteDelivery(st: State, c: Class)
    requires Reachable(st) && |st.lanes.At(c).taken| == st.lanes.At(c).next
    ensures Reassembled(Int, st.lanes.At(c).taken) == Outcomes(st.lanes.At(c).messages)
  {
    ReachableInv(st);
    Disassemble(st, c);
    PrefixSafety(st, c);
    WholeStreamIsWhole(c, 0, st.lanes.At(c).messages);
    var ms := st.lanes.At(c).messages;
    assert ms[..|ms|] == ms;
  }

  // --- No loss ---

  /** Where Linux keeps the segment with number `n`. */
  ghost predicate OnLinux(st: State, c: Class, n: nat)
    requires n < |st.lanes.At(c).stream|
  {
    var lane := st.lanes.At(c);
    || (exists i :: 0 <= i < |st.producers| && Owns(st.producers[i], c, n))
    || lane.stream[n] in lane.sendQ.pending || lane.stream[n] in lane.sendQ.main
    || IsHeld(st.senders, lane.stream[n])
    || lane.stream[n] in st.failed || lane.stream[n] in lane.sent
  }

  lemma NoLossInLane(lane: Lane, c: Class, producers: seq<Producer>, failed: seq<Segment>, senders: seq<Sender>, n: nat)
    requires LaneOk(lane, c) && n < lane.next
    requires ProducersOk(producers, c, lane.sendQ, lane.next) && KeptOk(failed, senders, lane)
    ensures || (exists i :: 0 <= i < |producers| && Owns(producers[i], c, n))
            || lane.stream[n] in lane.sendQ.pending || lane.stream[n] in lane.sendQ.main
            || Kept(failed, senders, lane, lane.stream[n])
  {
    if lane.released <= n < lane.sendQ.expected {
      assert lane.sendQ.main[n - lane.released] == lane.stream[n];
    } else if n < lane.released {
      assert Kept(failed, senders, lane, lane.stream[n]);
    } else if Covered(lane.sendQ, n) {
      var i :| 0 <= i < |lane.sendQ.pending| && lane.sendQ.pending[i].no == n;
      assert lane.sendQ.pending[i] in lane.sendQ.pending;
    }
  }

  /** Every reserved number is somewhere on Linux or acknowledged by the peer, at every step. */
  lemma NoLoss(st: State, c: Class, n: nat)
    requires Reachable(st) && n < st.lanes.At(c).next
    ensures n < |st.lanes.At(c).stream|
    ensures OnLinux(st, c, n) || n < st.lanes.At(c).acked
  {
    ReachableInv(st);
    Disassemble(st, c);
    NoLossInLane(st.lanes.At(c), c, st.producers, st.failed, st.senders, n);
  }

  // --- Acknowledgements against gap requests ---

  lemma WireIsGenuine(st: State, seg: Segment)
    requires Inv(st) && seg in st.wire
    ensures var lane := st.lanes.At(seg.cls);
      Genuine(seg, lane.stream) && AndroidQueue.Safe(lane.recv, lane.taken, lane.stream)
  {
    Disassemble(st, seg.cls);
    assert Real(st.lanes, seg);
  }

  lemma DeliveryExpected(st: State, e: Event, c: Class)
    requires Inv(st) && Enabled(st, e) && e.Deliver?
    ensures Apply(st, e).lanes.At(c).recv.expected >= st.lanes.At(c).recv.expected
  {
    var lane := st.lanes.At(e.seg.cls);
    WireIsGenuine(st, e.seg);
    hide Inv, Genuine, AndroidQueue.Safe, AndroidQueue.Received;
    AndroidQueue.ReceivedSafe(lane.recv, e.seg, lane.taken, lane.stream);
  }

  lemma StepExpected(st: State, e: Event, c: Class)
    requires Inv(st) && Enabled(st, e)
    ensures Apply(st, e).lanes.At(c).recv.expected >= st.lanes.At(c).recv.expected
  {
    hide Inv;
    if e.Deliver? { DeliveryExpected(st, e, c); }
  }

  lemma {:induction false} ExpectedNeverDecreases(st: State, events: seq<Event>, c: Class)
    requires Inv(st) && ValidRun(st, events)
    ensures Exec(st, events).lanes.At(c).recv.expected >= st.lanes.At(c).recv.expected
    decreases |events|
  {
    if events != [] {
      StepExpected(st, events[0], c);
      StepKeepsInv(st, events[0]);
      ExpectedNeverDecreases(Apply(st, events[0]), events[1..], c);
    }
  }

  /** The numbers a queue-status notice lets Linux free. */
  function LastFreed(n: Notice, c: Class): nat
    requires n.QueueStatus?
  {
    if c == Data then n.lastData else n.lastControl
  }

  /**
   * However long a notice is under way: every gap request made then or later starts behind everything
   * the notice frees.
   */
  lemma FreedIsNeverRequested(st: State, n: Notice, events: seq<Event>, c: Class, r: AndroidQueue.Range)
    requires Reachable(st) && n in st.notices && n.QueueStatus?
    requires ValidRun(st, events) && r in AndroidQueue.Gaps(Exec(st, events).lanes.At(c).recv)
    ensures LastFreed(n, c) < r.first <= r.last
  {
    ReachableInv(st);
    assert NoticeOk(st.lanes, n);
    ExpectedNeverDecreases(st, events, c);
    var q := Exec(st, events).lanes.At(c).recv;
    AndroidQueue.GapsSpaced(q.expected, q.pending);
  }

  /** Whatever Android can ask for, Linux still has. */
  lemma RequestsAreServable(st: State, c: Class, n: nat)
    requires Reachable(st) && AndroidQueue.InRanges(AndroidQueue.Gaps(st.lanes.At(c).recv), n)
    ensures n < |st.lanes.At(c).stream| && OnLinux(st, c, n)
  {
    ReachableInv(st);
    Disassemble(st, c);
    var lane := st.lanes.At(c);
    var q := lane.recv;
    AndroidQueue.GapsExactly(q.expected, q.pending, n);
    AndroidQueue.Recovery(q, lane.stream);
    var i :| 0 <= i < |AndroidQueue.Gaps(q)| && AndroidQueue.Gaps(q)[i].first <= n <= AndroidQueue.Gaps(q)[i].last;
    assert AndroidQueue.Gaps(q)[i] in AndroidQueue.Gaps(q);
    NoLoss(st, c, n);
  }

  // --- Order of release ---

  /** The segment of class `c` that a step takes from its send queue. */
  function ReleasedBy(st: State, e: Event, c: Class): seq<Segment>
    requires Enabled(st, e)
  {
    if !e.Dequeue? then []
    else
      var from := if st.lanes.control.sendQ.main != [] then Control else Data;
      if from == c && st.lanes.At(c).sendQ.main != [] then [st.lanes.At(c).sendQ.main[0]] else []
  }

  function ReleasedIn(st: State, events: seq<Event>, c: Class): seq<Segment>
    requires ValidRun(st, events)
    decreases |events|
  {
    if events == [] then []
    else ReleasedBy(st, events[0], c) + ReleasedIn(Apply(st, events[0]), events[1..], c)
  }

  lemma DequeueReleases(st: State, e: Event, c: Class)
    requires Enabled(st, e) && e.Dequeue? && LaneOk(st.lanes.At(c), c)
    ensures var lane, lane' := st.lanes.At(c), Apply(st, e).lanes.At(c);
      && lane.stream == lane'.stream && lane.released <= lane'.released <= |lane'.stream|
      && ReleasedBy(st, e, c) == lane'.stream[lane.released..lane'.released]
  {
    var lane := st.lanes.At(c);
    if lane.sendQ.main != [] {
      assert lane.stream[lane.released..lane.sendQ.expected][0] == lane.stream[lane.released];
      SliceOfOne(lane.stream, lane.released);
    }
  }

  lemma SliceOfOne(s: seq<Segment>, i: nat)
    requires i < |s|
    ensures s[i..i + 1] == [s[i]]
  {
  }

  lemma HistoryStays(st: State, e: Event, c: Class)
    requires Enabled(st, e) && !e.Dequeue? && !(e.Reserve? && e.cls == c)
    ensures Apply(st, e).lanes.At(c).stream == st.lanes.At(c).stream
    ensures Apply(st, e).lanes.At(c).released == st.lanes.At(c).released
    ensures ReleasedBy(st, e, c) == []
  {
  }

  lemma SliceJoin(s: seq<Segment>, s': seq<Segment>, a: nat, b: nat, c: nat)
    requires s <= s' && a <= b <= |s| && b <= c <= |s'|
    ensures s[a..b] + s'[b..c] == s'[a..c]
  {
    assert s == s'[..|s|];
  }

  lemma ReserveAppends(st: State, e: Event, c: Class)
    requires Enabled(st, e) && e.Reserve? && e.cls == c && LaneOk(st.lanes.At(c), c)
    ensures var lane, lane' := st.lanes.At(c), Apply(st, e).lanes.At(c);
      lane.stream <= lane'.stream && lane.released == lane'.released <= |lane.stream| && ReleasedBy(st, e, c) == []
  {
  }

  lemma StepReleases(st: State, e: Event, c: Class)
    requires Inv(st) && Enabled(st, e)
    ensures var lane, lane' := st.lanes.At(c), Apply(st, e).lanes.At(c);
      && lane.stream <= lane'.stream && lane.released <= lane'.released <= |lane'.stream|
      && ReleasedBy(st, e, c) == lane'.stream[lane.released..lane'.released]
  {
    Disassemble(st, c);
    assert st.lanes.At(c).released <= |st.lanes.At(c).stream|;
    hide Inv, LaneOk, Enabled, Apply, ReleasedBy;
    if e.Reserve? && e.cls == c {
      ReserveAppends(st, e, c);
    } else if e.Dequeue? {
      DequeueReleases(st, e, c);
    } else {
      HistoryStays(st, e, c);
    }
  }

  /**
   * For every interleaving of producers and senders the send queue releases the stream in number order;
   * as the stream is the concatenation of the packets, packets are never interleaved.
   */
  lemma {:induction false} ReleasedInOrder(st: State, events: seq<Event>, c: Class)
    requires Inv(st) && ValidRun(st, events)
    ensures var lane, lane' := st.lanes.At(c), Exec(st, events).lanes.At(c);
      && lane.stream <= lane'.stream && lane.released <= lane'.released <= |lane'.stream|
      && ReleasedIn(st, events, c) == lane'.stream[lane.released..lane'.released]
    decreases |events|
  {
    if events == [] {
      Disassemble(st, c);
    } else {
      StepReleases(st, events[0], c);
      StepKeepsInv(st, events[0]);
      ReleasedInOrder(Apply(st, events[0]), events[1..], c);
      var lane1 := Apply(st, events[0]).lanes.At(c);
      var lane' := Exec(st, events).lanes.At(c);
      SliceJoin(lane1.stream, lane'.stream, st.lanes.At(c).released, lane1.released, lane'.released);
    }
  }

  /** From the start: everything released so far is a prefix of the concatenated packets. */
  lemma ReleasedIsPrefix(producers: nat, senders: nat, events: seq<Event>, c: Class)
    requires ValidRun(Init(producers, senders), events)
    ensures var lane := Exec(Init(producers, senders), events).lanes.At(c);
      && AllValid(lane.messages)
      && ReleasedIn(Init(producers, senders), events, c) <= Stream(c, 0, lane.messages)
  {
    hide ValidRun, Exec, ReleasedIn, Stream;
    var st := Init(producers, senders);
    InitInv(producers, senders);
    ReleasedInOrder(st, events, c);
    RunKeepsInv(st, events);
    Disassemble(Exec(st, events), c);
  }

  /**
   * Concurrent producers do not interleave packets: the segments of message `k` leave the send queue one
   * directly behind the other, and MF marks exactly the non-final ones.
   */
  lemma PacketsLeaveWhole(producers: nat, senders: nat, events: seq<Event>, c: Class, k: nat)
    requires ValidRun(Init(producers, senders), events)
    requires k < |Exec(Init(producers, senders), events).lanes.At(c).messages|
    ensures var ms := Exec(Init(producers, senders), events).lanes.At(c).messages;
      var released := ReleasedIn(Init(producers, senders), events, c);
      && AllValid(ms)
      && var start, end := PacketStart(c, ms, k), PacketStart(c, ms, k + 1);
      && start < end
      && (end <= |released| ==>
            && released[start..end] == Fragment(c, start, Serialize(ms[k]))
            && IsPacket(released[start..end], c, start))
  {
    ReleasedIsPrefix(producers, senders, events, c);
    var ms := Exec(Init(producers, senders), events).lanes.At(c).messages;
    var released, stream := ReleasedIn(Init(producers, senders), events, c), Stream(c, 0, ms);
    PacketIsStretch(c, ms, k);
    var start, end := PacketStart(c, ms, k), PacketStart(c, ms, k + 1);
    assert released == stream[..|released|];
    assert end <= |released| ==> released[start..end] == stream[start..end];
  }
}
