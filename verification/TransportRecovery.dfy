/** Composing runs of the transport, and the answers of Linux to the requests of a gap check. */
module TransportRecovery {
  import opened Segments
  import opened PacketStream
  import opened Transport
  import opened TransportSteps
  import opened TransportRuns
  import AndroidQueue
  import SentList

  // --- Composing runs ---

  lemma RunCons(st: State, e: Event, rest: seq<Event>)
    requires Enabled(st, e) && ValidRun(Apply(st, e), rest)
    ensures ValidRun(st, [e] + rest) && Exec(st, [e] + rest) == Exec(Apply(st, e), rest)
  {
    assert ([e] + rest)[1..] == rest;
  }

  lemma {:induction false} RunConcat(st: State, a: seq<Event>, b: seq<Event>)
    requires ValidRun(st, a) && ValidRun(Exec(st, a), b)
    ensures ValidRun(st, a + b) && Exec(st, a + b) == Exec(Exec(st, a), b)
    decreases |a|
  {
    hide Apply, Enabled;
    if a == [] {
      assert a + b == b;
    } else {
      RunConcat(Apply(st, a[0]), a[1..], b);
      RunCons(st, a[0], a[1..] + b);
      assert [a[0]] + (a[1..] + b) == a + b;
    }
  }

  lemma ReachableExtends(st: State, events: seq<Event>)
    requires Reachable(st) && ValidRun(st, events)
    ensures Reachable(Exec(st, events))
  {
    var producers: nat, senders: nat, before: seq<Event> :|
      ValidRun(Init(producers, senders), before) && Exec(Init(producers, senders), before) == st;
    RunConcat(Init(producers, senders), before, events);
  }

  // --- Linux answers the requests ---

  function Answers(c: Class, ranges: seq<AndroidQueue.Range>): seq<Event> {
    if ranges == [] then [] else [OnNotice(Retransmit(c, ranges[0]))] + Answers(c, ranges[1..])
  }

  /** The held segments of the ranges, one range after the other. */
  function Refiled(sent: seq<Segment>, ranges: seq<AndroidQueue.Range>): seq<Segment> {
    if ranges == [] then [] else SentList.InRange(sent, ranges[0].first, ranges[0].last) + Refiled(sent, ranges[1..])
  }

  /** Answering requests appends exactly what is held of them to the failed list, and changes nothing else. */
  lemma {:induction false} AnswersRun(st: State, c: Class, ranges: seq<AndroidQueue.Range>)
    requires forall r :: r in ranges ==> Retransmit(c, r) in st.notices
    ensures ValidRun(st, Answers(c, ranges))
    ensures Exec(st, Answers(c, ranges)) == st.(failed := st.failed + Refiled(st.lanes.At(c).sent, ranges))
    decreases |ranges|
  {
    if ranges == [] {
      assert st.failed + [] == st.failed;
    } else {
      var sent, r, more := st.lanes.At(c).sent, ranges[0], ranges[1..];
      assert r in ranges && forall q :: q in more ==> q in ranges;
      var held, rest := SentList.InRange(sent, r.first, r.last), Refiled(sent, more);
      var e := OnNotice(Retransmit(c, r));
      assert Enabled(st, e) && Apply(st, e) == st.(failed := st.failed + held);
      assert Answers(c, ranges) == [e] + Answers(c, more) && Refiled(sent, ranges) == held + rest;
      hide *;
      AnswersRun(st.(failed := st.failed + held), c, more);
      RunCons(st, e, Answers(c, more));
      ConcatIsAssociative(st.failed, held, rest);
    }
  }

  /** With none missing, what is filed again is exactly the requested segments, ascending. */
  lemma {:induction false} RefiledIsRequested(sent: seq<Segment>, stream: seq<Segment>, ranges: seq<AndroidQueue.Range>)
    requires Ascending(sent) && AllGenuine(sent, stream)
    requires forall r :: r in ranges ==> r.first <= r.last < |stream|
    requires forall r, n :: r in ranges && r.first <= n <= r.last ==> HasNo(sent, n)
    ensures Refiled(sent, ranges) == AndroidQueue.Requested(stream, ranges)
    decreases |ranges|
  {
    if ranges != [] {
      assert ranges[0] in ranges && forall r :: r in ranges[1..] ==> r in ranges;
      hide Ascending, AllGenuine, SentList.InRange;
      SentList.RetransmitIsSlice(sent, stream, ranges[0].first, ranges[0].last);
      RefiledIsRequested(sent, stream, ranges[1..]);
    }
  }

  lemma {:induction false} RefiledHolds(sent: seq<Segment>, ranges: seq<AndroidQueue.Range>, s: Segment)
    ensures s in Refiled(sent, ranges) <==> s in sent && AndroidQueue.InRanges(ranges, s.no)
    decreases |ranges|
  {
    if ranges != [] {
      SentList.InRangeIs(sent, ranges[0].first, ranges[0].last);
      RefiledHolds(sent, ranges[1..], s);
      AndroidQueue.InRangesCons(ranges[0], ranges[1..], s.no);
      assert ranges == [ranges[0]] + ranges[1..];
    }
  }
}
