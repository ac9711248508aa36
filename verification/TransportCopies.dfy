/**
 * How many copies of a segment wait to be sent. A request for a repetition makes a copy, filing takes one away; so an
 * acknowledgement frees a segment still in use exactly if it was asked for again as often as it was filed.
 */
module TransportCopies {
  import opened Segments
  import opened Transport
  import opened TransportSteps
  import opened TransportRuns
  import SentList

  // --- Copies in use ---

  function Holders(senders: seq<Sender>, s: Segment): nat {
    if senders == [] then 0
    else (if HeldSeg(senders[0].pc) == Some(s) then 1 else 0) + Holders(senders[1..], s)
  }

  /** In the failed list, and in the hands of senders. */
  function InUse(st: State, s: Segment): nat {
    multiset(st.failed)[s] + Holders(st.senders, s)
  }

  lemma {:induction false} HoldersUpdate(senders: seq<Sender>, j: nat, sender: Sender, s: Segment)
    requires j < |senders|
    ensures Holders(senders[j := sender], s) + (if HeldSeg(senders[j].pc) == Some(s) then 1 else 0)
         == Holders(senders, s) + if HeldSeg(sender.pc) == Some(s) then 1 else 0
    decreases |senders|
  {
    var after := senders[j := sender];
    if j == 0 {
      assert after[1..] == senders[1..];
    } else {
      assert after[1..] == senders[1..][j - 1 := sender];
      HoldersUpdate(senders[1..], j - 1, sender, s);
    }
  }

  lemma {:induction false} HoldersSame(senders: seq<Sender>, senders': seq<Sender>, s: Segment)
    requires |senders| == |senders'|
    requires forall k :: 0 <= k < |senders| ==> HeldSeg(senders'[k].pc) == HeldSeg(senders[k].pc)
    ensures Holders(senders', s) == Holders(senders, s)
    decreases |senders|
  {
    if senders != [] { HoldersSame(senders[1..], senders'[1..], s); }
  }

  lemma {:induction false} HoldersExist(senders: seq<Sender>, s: Segment)
    ensures Holders(senders, s) > 0 <==> IsHeld(senders, s)
  {
    if senders != [] {
      var rest := senders[1..];
      HoldersExist(rest, s);
      if IsHeld(rest, s) {
        var k :| 0 <= k < |rest| && HeldSeg(rest[k].pc) == Some(s);
        assert senders[k + 1] == rest[k];
      }
      if IsHeld(senders, s) && HeldSeg(senders[0].pc) != Some(s) {
        var k :| 0 <= k < |senders| && HeldSeg(senders[k].pc) == Some(s);
        assert rest[k - 1] == senders[k];
      }
    }
  }

  lemma InUseIs(st: State, s: Segment)
    ensures InUse(st, s) > 0 <==> s in st.failed || IsHeld(st.senders, s)
  {
    HoldersExist(st.senders, s);
  }

  // --- What a step does to them ---

  /** The step answers a request for `s`: it was filed as sent, and joins the failed list again. */
  predicate Repeats(st: State, e: Event, s: Segment) {
    && e.OnNotice? && e.n.Retransmit? && e.n.cls == s.cls
    && s in st.lanes.At(s.cls).sent && e.n.range.first <= s.no <= e.n.range.last
  }

  /** The step files `s` as sent. */
  predicate Files(st: State, e: Event, s: Segment) {
    e.FileSent? && e.j < |st.senders| && st.senders[e.j].pc == Transmitted(s)
  }

  /** The step takes `s` from its send queue. */
  predicate Releases(st: State, e: Event, s: Segment) {
    Enabled(st, e) && ReleasedBy(st, e, s.cls) == [s]
  }

  function One(b: bool): nat {
    if b then 1 else 0
  }

  lemma {:induction false} RangeHoldsOnce(l: seq<Segment>, first: nat, last: nat, s: Segment)
    requires Ascending(l)
    ensures multiset(SentList.InRange(l, first, last))[s] == One(s in l && first <= s.no <= last)
  {
    if l != [] {
      var rest := l[1..];
      RangeHoldsOnce(rest, first, last, s);
      assert l == [l[0]] + rest;
      assert l[0] !in rest;
      assert SentList.InRange(l, first, last)
          == (if first <= l[0].no <= last then [l[0]] else []) + SentList.InRange(rest, first, last);
    }
  }

  /** The law of one step. */
  ghost predicate Balanced(st: State, e: Event, s: Segment)
    requires Enabled(st, e)
  {
    InUse(Apply(st, e), s) + One(Files(st, e, s)) == InUse(st, s) + One(Releases(st, e, s)) + One(Repeats(st, e, s))
  }

  lemma Moves(st: State, st': State, j: nat, s: Segment)
    requires j < |st.senders| == |st'.senders| && st'.senders == st.senders[j := st'.senders[j]]
    ensures Holders(st'.senders, s) + One(HeldSeg(st.senders[j].pc) == Some(s))
         == Holders(st.senders, s) + One(HeldSeg(st'.senders[j].pc) == Some(s))
  {
    HoldersUpdate(st.senders, j, st'.senders[j], s);
  }

  lemma FetchingBalanced(st: State, e: Event, s: Segment)
    requires Enabled(st, e) && (e.PopFailed? || e.CheckPaused?)
    ensures Balanced(st, e, s)
  {
    if e.PopFailed? && st.failed != [] { assert st.failed == [st.failed[0]] + st.failed[1..]; }
    Moves(st, Apply(st, e), e.j, s);
  }

  lemma SendingBalanced(st: State, e: Event, s: Segment)
    requires Enabled(st, e) && (e.Recheck? || e.SendFails? || e.SendSucceeds? || e.FileSent?)
    ensures Balanced(st, e, s)
  {
    Moves(st, Apply(st, e), e.j, s);
  }

  lemma DequeueBalanced(st: State, e: Event, s: Segment)
    requires Inv(st) && Enabled(st, e) && e.Dequeue?
    ensures Balanced(st, e, s)
  {
    hide LaneInv;
    Disassemble(st, Data);
    hide Inv;
    if st.lanes.control.sendQ.main != [] {
      FrontClass(st, Control);
    } else if st.lanes.data.sendQ.main != [] {
      FrontClass(st, Data);
    }
    Moves(st, Apply(st, e), e.j, s);
  }

  lemma FrontClass(st: State, c: Class)
    requires LaneInv(st, c) && st.lanes.At(c).sendQ.main != []
    ensures st.lanes.At(c).sendQ.main[0].cls == c
  {
    var lane := st.lanes.At(c);
    assert lane.stream[lane.released..lane.sendQ.expected][0] == lane.stream[lane.released];
  }

  lemma RetransmittedOnce(st: State, c: Class, first: nat, last: nat, s: Segment)
    requires Inv(st)
    ensures multiset(SentList.InRange(st.lanes.At(c).sent, first, last))[s]
         == One(s.cls == c && s in st.lanes.At(c).sent && first <= s.no <= last)
  {
    Disassemble(st, c);
    var lane := st.lanes.At(c);
    RangeHoldsOnce(lane.sent, first, last, s);
    assert s in lane.sent ==> s.cls == c;
  }

  lemma NoticeBalanced(st: State, e: Event, s: Segment)
    requires Inv(st) && Enabled(st, e) && e.OnNotice?
    ensures Balanced(st, e, s)
  {
    hide Inv, SentList.InRange, SentList.Freed, Holders;
    if e.n.Retransmit? {
      RetransmittedOnce(st, e.n.cls, e.n.range.first, e.n.range.last, s);
    }
  }

  lemma OrderBalanced(st: State, e: Event, s: Segment)
    requires Enabled(st, e) && (e.EnqueueOne? || e.WakeWaiting? || e.Order? || e.Closed?)
    ensures Balanced(st, e, s)
  {
    HoldersSame(st.senders, Apply(st, e).senders, s);
  }

  lemma ElsewhereBalanced(st: State, e: Event, s: Segment)
    requires Enabled(st, e)
    requires e.Reserve? || e.Deliver? || e.Lose? || e.Take? || e.NotifyStatus? || e.RequestGaps? || e.LoseNotice?
    ensures Balanced(st, e, s)
  {
  }

  lemma StepBalanced(st: State, e: Event, s: Segment)
    requires Inv(st) && Enabled(st, e)
    ensures Balanced(st, e, s)
  {
    hide Inv, Enabled, Balanced;
    match e
    case PopFailed(_) => FetchingBalanced(st, e, s);
    case CheckPaused(_) => FetchingBalanced(st, e, s);
    case Recheck(_) => SendingBalanced(st, e, s);
    case SendFails(_, _) => SendingBalanced(st, e, s);
    case SendSucceeds(_) => SendingBalanced(st, e, s);
    case FileSent(_) => SendingBalanced(st, e, s);
    case Dequeue(_) => DequeueBalanced(st, e, s);
    case OnNotice(_) => NoticeBalanced(st, e, s);
    case EnqueueOne(_) => OrderBalanced(st, e, s);
    case WakeWaiting => OrderBalanced(st, e, s);
    case Order(_, _) => OrderBalanced(st, e, s);
    case Closed(_) => OrderBalanced(st, e, s);
    case _ => ElsewhereBalanced(st, e, s);
  }

  // --- Over runs ---

  /** How often a run answers a request for `s`. */
  function Repetitions(st: State, events: seq<Event>, s: Segment): nat
    requires ValidRun(st, events)
    decreases |events|
  {
    if events == [] then 0 else One(Repeats(st, events[0], s)) + Repetitions(Apply(st, events[0]), events[1..], s)
  }

  /** How often it files `s` as sent. */
  function Filings(st: State, events: seq<Event>, s: Segment): nat
    requires ValidRun(st, events)
    decreases |events|
  {
    if events == [] then 0 else One(Files(st, events[0], s)) + Filings(Apply(st, events[0]), events[1..], s)
  }

  lemma ReleasedCount(st: State, e: Event, s: Segment)
    requires Enabled(st, e)
    ensures multiset(ReleasedBy(st, e, s.cls))[s] == One(Releases(st, e, s))
  {
  }

  /** Copies are made by releasing and by repeating, and end by filing. */
  lemma {:induction false} RunBalanced(st: State, events: seq<Event>, s: Segment)
    requires Inv(st) && ValidRun(st, events)
    ensures InUse(Exec(st, events), s) + Filings(st, events, s)
         == InUse(st, s) + multiset(ReleasedIn(st, events, s.cls))[s] + Repetitions(st, events, s)
    decreases |events|
  {
    if events != [] {
      var e, rest := events[0], events[1..];
      StepBalanced(st, e, s);
      StepKeepsInv(st, e);
      ReleasedCount(st, e, s);
      hide Inv, Enabled, Apply, InUse, Files, Releases, Repeats, ReleasedBy;
      RunBalanced(Apply(st, e), rest, s);
    }
  }

  lemma SentAscends(st: State, c: Class)
    requires Inv(st)
    ensures Ascending(st.lanes.At(c).sent)
  {
    Disassemble(st, c);
  }

  lemma FilingAdds(st: State, j: nat, s: Segment)
    requires Inv(st) && Enabled(st, FileSent(j)) && s in Apply(st, FileSent(j)).lanes.At(s.cls).sent
    ensures s in st.lanes.At(s.cls).sent || Files(st, FileSent(j), s)
  {
    var seg := st.senders[j].pc.seg;
    hide Inv, SentList.Inserted, Ascending;
    SentAscends(st, seg.cls);
    SentList.InsertedIs(st.lanes.At(seg.cls).sent, seg);
  }

  lemma FiledStep(st: State, e: Event, s: Segment)
    requires Inv(st) && Enabled(st, e) && s in Apply(st, e).lanes.At(s.cls).sent
    ensures s in st.lanes.At(s.cls).sent || Files(st, e, s)
  {
    hide Inv, SentList.Freed, SentList.Inserted;
    if e.FileSent? {
      FilingAdds(st, e.j, s);
    } else if e.OnNotice? && e.n.QueueStatus? {
      SentList.FreedIs(st.lanes.At(s.cls).sent, LastFreed(e.n, s.cls));
    }
  }

  /** Only filing puts a segment into the sent list. */
  lemma {:induction false} SentWasFiled(st: State, events: seq<Event>, s: Segment)
    requires Inv(st) && ValidRun(st, events) && s in Exec(st, events).lanes.At(s.cls).sent
    ensures s in st.lanes.At(s.cls).sent || Filings(st, events, s) > 0
    decreases |events|
  {
    if events != [] {
      StepKeepsInv(st, events[0]);
      SentWasFiled(Apply(st, events[0]), events[1..], s);
      if s in Apply(st, events[0]).lanes.At(s.cls).sent { FiledStep(st, events[0], s); }
    }
  }

  lemma FiledIsHeld(st: State, e: Event, s: Segment)
    ensures Files(st, e, s) ==> IsHeld(st.senders, s)
  {
    if Files(st, e, s) { assert HeldSeg(st.senders[e.j].pc) == Some(s); }
  }

  lemma UnreleasedStep(st: State, e: Event, s: Segment)
    requires Inv(st) && Enabled(st, e) && InUse(st, s) == 0 && s !in st.lanes.At(s.cls).sent && !Releases(st, e, s)
    ensures InUse(Apply(st, e), s) == 0 && s !in Apply(st, e).lanes.At(s.cls).sent
  {
    StepBalanced(st, e, s);
    if s in Apply(st, e).lanes.At(s.cls).sent { FiledStep(st, e, s); }
    InUseIs(st, s);
    FiledIsHeld(st, e, s);
    hide Inv;
  }

  /** What was never released is neither in use nor sent. */
  lemma {:induction false} UnreleasedIsNowhere(st: State, events: seq<Event>, s: Segment)
    requires Inv(st) && ValidRun(st, events) && InUse(st, s) == 0 && s !in st.lanes.At(s.cls).sent
    requires multiset(ReleasedIn(st, events, s.cls))[s] == 0
    ensures s !in Exec(st, events).lanes.At(s.cls).sent
    decreases |events|
  {
    if events != [] {
      var e, rest := events[0], events[1..];
      ReleasedCount(st, e, s);
      assert !Releases(st, e, s);
      UnreleasedStep(st, e, s);
      StepKeepsInv(st, e);
      hide Inv, Enabled, Apply, InUse, Releases, ReleasedBy;
      UnreleasedIsNowhere(Apply(st, e), rest, s);
    }
  }

  lemma {:induction false} InitHasNone(senders: seq<Sender>, s: Segment)
    requires forall k :: 0 <= k < |senders| ==> senders[k].pc == Exited
    ensures Holders(senders, s) == 0
  {
    if senders != [] { InitHasNone(senders[1..], s); }
  }

  lemma PrefixHoldsOnce(stream: seq<Segment>, n: nat, s: Segment)
    requires Numbered(stream) && n <= |stream|
    ensures multiset(stream[..n])[s] <= 1
  {
    if s in stream[..n] {
      var i :| 0 <= i < n && stream[..n][i] == s;
      assert stream[..n] == stream[..i] + [s] + stream[i + 1..n];
      assert s !in stream[..i] && s !in stream[i + 1..n];
    }
  }

  /** Every segment is released at most once. */
  lemma ReleasedOnce(p: nat, q: nat, events: seq<Event>, s: Segment)
    requires ValidRun(Init(p, q), events)
    ensures multiset(ReleasedIn(Init(p, q), events, s.cls))[s] <= 1
  {
    var st := Init(p, q);
    InitInv(p, q);
    ReleasedInOrder(st, events, s.cls);
    RunKeepsInv(st, events);
    Disassemble(Exec(st, events), s.cls);
    var lane := Exec(st, events).lanes.At(s.cls);
    hide ReleasedIn, ValidRun, Exec, Inv;
    assert ReleasedIn(st, events, s.cls) == lane.stream[0..lane.released] == lane.stream[..lane.released];
    PrefixHoldsOnce(lane.stream, lane.released, s);
  }

  /**
   * From the start: of a segment in the sent list there are as many copies in use as it was repeated, less the times it
   * was filed after the first.
   */
  lemma SentBalance(p: nat, q: nat, events: seq<Event>, s: Segment)
    requires ValidRun(Init(p, q), events) && s in Exec(Init(p, q), events).lanes.At(s.cls).sent
    ensures 1 <= Filings(Init(p, q), events, s)
    ensures InUse(Exec(Init(p, q), events), s) + Filings(Init(p, q), events, s)
         == 1 + Repetitions(Init(p, q), events, s)
  {
    var st := Init(p, q);
    InitInv(p, q);
    InitHasNone(st.senders, s);
    assert InUse(st, s) == 0 && s !in st.lanes.At(s.cls).sent;
    hide *;
    RunBalanced(st, events, s);
    SentWasFiled(st, events, s);
    ReleasedOnce(p, q, events, s);
    if multiset(ReleasedIn(st, events, s.cls))[s] == 0 { UnreleasedIsNowhere(st, events, s); }
  }

  /** What was never asked for again is in one place only. */
  lemma UnaskedIsNotInUse(p: nat, q: nat, events: seq<Event>, s: Segment)
    requires ValidRun(Init(p, q), events) && s in Exec(Init(p, q), events).lanes.At(s.cls).sent
    requires Repetitions(Init(p, q), events, s) == 0
    ensures s !in Exec(Init(p, q), events).failed && !IsHeld(Exec(Init(p, q), events).senders, s)
  {
    SentBalance(p, q, events, s);
    InUseIs(Exec(Init(p, q), events), s);
  }

  // --- Acknowledgements ---

  /** The notice frees a segment that waits to be sent again, or that a sender holds. */
  ghost predicate FreesInUse(st: State, n: Notice, s: Segment)
    requires n in st.notices && n.QueueStatus?
  {
    var st' := Apply(st, OnNotice(n));
    && s in st.lanes.At(s.cls).sent && s !in st'.lanes.At(s.cls).sent
    && (s in st'.failed || IsHeld(st'.senders, s))
  }

  lemma NoticeFrees(st: State, n: Notice, c: Class)
    requires n in st.notices && n.QueueStatus?
    ensures var st' := Apply(st, OnNotice(n));
      && st'.failed == st.failed && st'.senders == st.senders
      && st'.lanes.At(c).sent == SentList.Freed(st.lanes.At(c).sent, LastFreed(n, c))
  {
    hide SentList.Freed;
  }

  lemma NoticeIsLate(st: State, n: Notice, c: Class)
    requires Inv(st) && n in st.notices && n.QueueStatus?
    ensures LastFreed(n, c) < st.lanes.At(c).recv.expected && LaneOk(st.lanes.At(c), c)
  {
    Disassemble(st, c);
    assert NoticeOk(st.lanes, n);
    hide LaneOk;
  }

  /** In terms of the state; Android has the segment by then. */
  lemma FreesInUseIs(st: State, n: Notice, s: Segment)
    requires Reachable(st) && n in st.notices && n.QueueStatus?
    ensures FreesInUse(st, n, s)
       <==> s in st.lanes.At(s.cls).sent && s.no <= LastFreed(n, s.cls) && (s in st.failed || IsHeld(st.senders, s))
    ensures FreesInUse(st, n, s) ==> s in st.lanes.At(s.cls).taken + st.lanes.At(s.cls).recv.main
  {
    hide Reachable, Inv, LaneOk, Apply, Enabled, IsHeld, LastFreed, SentList.Freed;
    ReachableInv(st);
    NoticeFrees(st, n, s.cls);
    NoticeIsLate(st, n, s.cls);
    var lane := st.lanes.At(s.cls);
    SentList.FreedIs(lane.sent, LastFreed(n, s.cls));
    if s in lane.sent && s.no <= LastFreed(n, s.cls) { FreedHasArrived(lane, s.cls, s); }
  }

  lemma FreedHasArrived(lane: Lane, c: Class, s: Segment)
    requires LaneOk(lane, c) && s in lane.sent && s.no < lane.recv.expected
    ensures s in lane.taken + lane.recv.main
  {
    assert (lane.taken + lane.recv.main)[s.no] == lane.stream[s.no];
  }

  /**
   * A status notice frees a segment still in use exactly if it covers a sent segment that was asked for again at least
   * as often as it was filed as sent.
   */
  lemma FreesInUseExactly(p: nat, q: nat, events: seq<Event>, n: Notice, s: Segment)
    requires ValidRun(Init(p, q), events) && n in Exec(Init(p, q), events).notices && n.QueueStatus?
    ensures var st := Exec(Init(p, q), events);
      FreesInUse(st, n, s)
      <==> s in st.lanes.At(s.cls).sent && s.no <= LastFreed(n, s.cls)
           && Repetitions(Init(p, q), events, s) >= Filings(Init(p, q), events, s)
  {
    var st := Exec(Init(p, q), events);
    assert Reachable(st);
    hide *;
    FreesInUseIs(st, n, s);
    InUseIs(st, s);
    if s in st.lanes.At(s.cls).sent { SentBalance(p, q, events, s); }
  }
}
