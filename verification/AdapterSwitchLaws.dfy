/**
 * What every run of the adapter switch conserves: the segments in its lists and in the hands of the senders. And what
 * its end leaves behind, from whatever states the two adapters start in.
 */
module AdapterSwitchLaws {
  import opened AdapterSwitch

  function One(b: bool): nat {
    if b then 1 else 0
  }

  // --- Segments ---

  /** Everything that is still to be sent, or being sent. */
  function Segments(s: Sys): nat {
    s.failed + s.queue + s.held + One(s.snd.pc == Recheck || s.snd.pc == Send)
  }

  /** Something new to send: a message, a repetition, or a request of the transaction itself. */
  predicate Brings(s: Sys, e: Event) {
    || e == Traffic || e == Refile
    || (e.TxEvent? && (s.tx.pc == DisconnectRequest || (s.tx.pc == ConnectRequest && e.ok)))
  }

  predicate Sends(s: Sys, e: Event) {
    e == NextSends || (e == SndEvent(Good) && s.snd.pc == Send && s.prev == Active)
  }

  /** A sender finds something in the send queues. */
  predicate Dequeues(s: Sys, e: Event) {
    s.queue > 0 && (e == NextTakesQueued || (e.SndEvent? && (s.snd.pc == Dequeue || s.snd.pc == Woken)))
  }

  /** No step loses or makes up a segment: only a send that succeeds takes one away. */
  lemma SegmentsAreKept(s: Sys, e: Event)
    requires Enabled(s, e)
    ensures Segments(Step(s, e)) + One(Sends(s, e)) == Segments(s) + One(Brings(s, e))
  {
    if e.TxEvent? { TxKeepsSegments(s, e.ok); }
  }

  lemma TxKeepsSegments(s: Sys, ok: bool)
    requires TxEnabled(s)
    ensures Segments(TxStep(s, ok)) == Segments(s) + One(Brings(s, TxEvent(ok)))
    ensures TxStep(s, ok).queue == s.queue + One(Brings(s, TxEvent(ok)))
    ensures TxStep(s, ok).held == s.held
  {
  }

  /** What is new, but for a repetition, joins the send queues; what comes back joins the failed list only. */
  lemma QueueTakesNewOnly(s: Sys, e: Event)
    requires Enabled(s, e)
    ensures Step(s, e).queue + One(Dequeues(s, e)) == s.queue + One(Brings(s, e) && e != Refile)
    ensures Step(s, e).held + One(e == NextSends || e == NextFails)
         == s.held + One(e == NextTakesFailed || e == NextTakesQueued)
  {
    if e.TxEvent? { TxKeepsSegments(s, e.ok); }
  }

  function Brought(s: Sys, events: seq<Event>): nat
    requires ValidRun(s, events)
    decreases |events|
  {
    if events == [] then 0 else One(Brings(s, events[0])) + Brought(Step(s, events[0]), events[1..])
  }

  function Sent(s: Sys, events: seq<Event>): nat
    requires ValidRun(s, events)
    decreases |events|
  {
    if events == [] then 0 else One(Sends(s, events[0])) + Sent(Step(s, events[0]), events[1..])
  }

  /** Over any run, whatever the transaction and both senders do: what was not sent is still there. */
  lemma {:induction false} NothingIsLost(s: Sys, events: seq<Event>)
    requires ValidRun(s, events)
    ensures Segments(Exec(s, events)) + Sent(s, events) == Segments(s) + Brought(s, events)
    decreases |events|
  {
    if events != [] {
      SegmentsAreKept(s, events[0]);
      hide Segments, Brings, Sends, Step, Enabled;
      NothingIsLost(Step(s, events[0]), events[1..]);
    }
  }

  // --- The sender's loop ---

  /**
   * The sender begins to leave its loop exactly when it finds the loop disabled at its top, or when a send fails and
   * either breaks off or happens while the adapter is disconnected on purpose.
   */
  lemma LeavesExactly(s: Sys, e: Event)
    requires Enabled(s, e) && !Leaving(s.snd.pc)
    ensures Leaving(Step(s, e).snd.pc)
       <==> e.SndEvent? && ((s.snd.pc == LoopTop && !s.snd.enabled)
                            || (s.snd.pc == Send && !Sends(s, e) && (e.o == Broken || s.tx.onPurpose)))
  {
    if e.TxEvent? { TxKeepsSender(s, e.ok); }
  }

  /** The transaction moves the sender only by a notification. */
  lemma TxKeepsSender(s: Sys, ok: bool)
    requires TxEnabled(s)
    ensures var t := TxStep(s, ok).snd;
      t.pc == s.snd.pc || (s.snd.pc == Blocked && t.pc == Woken && (s.tx.pc == SleepNotify || Brings(s, TxEvent(ok))))
  {
  }

  /**
   * It pauses the sender when it puts the adapter to sleep, and takes the pause back exactly when it disconnects a
   * sleeping adapter.
   */
  lemma PausesExactly(s: Sys, ok: bool)
    requires TxEnabled(s)
    ensures TxStep(s, ok).snd.paused
         == if s.snd.paused then !(s.tx.pc == ResumeLoop && s.tx.before == Sleeping) else s.tx.pc == SleepPause
  {
  }

  /** A sender that waits in dequeue is woken exactly when something is enqueued, or by the notification of a pause. */
  lemma WokenExactly(s: Sys, e: Event)
    requires Enabled(s, e) && s.snd.pc == Blocked
    ensures Step(s, e).snd.pc
         == if (Brings(s, e) && e != Refile) || (e.TxEvent? && s.tx.pc == SleepNotify) then Woken else Blocked
  {
  }

  /** The sender stands still exactly if it has ended, waits to be notified, is paused, or waits for a connection. */
  lemma StandsStillExactly(s: Sys, o: Outcome)
    ensures !Enabled(s, SndEvent(o))
       <==> s.snd.pc == Ended || s.snd.pc == Blocked || (s.snd.pc == WaitResume && s.snd.paused)
            || (s.snd.pc == Send && s.prev == Connecting)
  {
  }

  lemma ThreeSteps(s: Sys, a: Outcome, b: Outcome, c: Outcome)
    requires SndEnabled(s) && SndEnabled(SndStep(s, a)) && SndEnabled(SndStep(SndStep(s, a), b))
    ensures var events := [SndEvent(a), SndEvent(b), SndEvent(c)];
      ValidRun(s, events) && Exec(s, events) == SndStep(SndStep(SndStep(s, a), b), c)
  {
    var s1 := Step(s, SndEvent(a));
    var s2 := Step(s1, SndEvent(b));
    hide SndEnabled, SndStep;
    RunCons(s2, SndEvent(c), []);
    RunCons(s1, SndEvent(b), [SndEvent(c)]);
    RunCons(s, SndEvent(a), [SndEvent(b)] + [SndEvent(c)]);
    assert [SndEvent(c)] + [] == [SndEvent(c)];
    assert [SndEvent(a)] + ([SndEvent(b)] + [SndEvent(c)]) == [SndEvent(a), SndEvent(b), SndEvent(c)];
  }

  /** However its sends turn out: after three more steps the loop is disabled, not paused, and said to have ended. */
  lemma LoopIsLeft(s: Sys, a: Outcome, b: Outcome, c: Outcome)
    requires s.snd.pc == ClearEnabled
    ensures var events := [SndEvent(a), SndEvent(b), SndEvent(c)];
      ValidRun(s, events) && Exec(s, events) == s.(snd := SndThread(Ended, false, false, true))
  {
    ThreeSteps(s, a, b, c);
  }

  /** Paused before it looks once more, a sender gives its segment back unsent and is about to say that it sleeps. */
  lemma PausedGivesBack(s: Sys, a: Outcome, b: Outcome, c: Outcome)
    requires s.snd.pc == Recheck && s.snd.paused && s.snd.enabled
    ensures var events := [SndEvent(a), SndEvent(b), SndEvent(c)];
      ValidRun(s, events) && Exec(s, events) == s.(snd := s.snd.(pc := MarkSleeping), failed := s.failed + 1)
  {
    ThreeSteps(s, a, b, c);
  }

  /** Resumed, it makes its adapter active again, unless that is being disconnected or is already. */
  lemma ResumedIsActive(s: Sys, a: Outcome, b: Outcome, c: Outcome)
    requires s.snd.pc == WaitResume && !s.snd.paused
    ensures var events := [SndEvent(a), SndEvent(b), SndEvent(c)];
      && ValidRun(s, events)
      && Exec(s, events).prev == (if s.prev == Disconnecting || s.prev == Disconnected then s.prev else Active)
  {
    ThreeSteps(s, a, b, c);
  }

  // --- How a switch ends ---

  /** A callback that failed, or finds the previous adapter disconnected or on its way to another state. */
  predicate Settles(ok: bool, prev: AdapterState) {
    !ok || prev == Disconnected || prev == Connecting || prev == Disconnecting || prev == WakingUp
  }

  /** The points at which done is called. */
  predicate Calls(s: Sys) {
    match s.tx.pc
    case Start => InProgress(s.next) || s.next == GoingSleeping
    case ConnectCallback(ok) => Settles(ok, s.prev)
    case SleepPausedCheck => s.snd.paused
    case SleepCallback(ok) => Settles(ok, s.prev)
    case DisconnectCheck => s.prev != Sleeping
    case DisconnectEnd(_) => true
    case _ => false
  }

  /** The previous adapter is disconnected, now or before. */
  predicate Successful(s: Sys) {
    match s.tx.pc
    case ConnectCallback(ok) => ok && s.prev == Disconnected
    case SleepCallback(ok) => ok && s.prev == Disconnected
    case DisconnectEnd(closed) => closed
    case _ => false
  }

  predicate SameCalls(t: TxThread, t': TxThread) {
    t'.dones == t.dones && t'.moved == t.moved
  }

  lemma NoEarlyCall(s: Sys, ok: bool)
    requires TxEnabled(s) && !Calls(s) && BeforeDisconnect(s.tx.pc)
    ensures SameCalls(s.tx, TxStep(s, ok).tx)
  {
  }

  lemma NoLateCall(s: Sys, ok: bool)
    requires TxEnabled(s) && !Calls(s) && !BeforeDisconnect(s.tx.pc)
    ensures SameCalls(s.tx, TxStep(s, ok).tx)
  {
  }

  lemma EarlyCall(s: Sys, ok: bool)
    requires TxEnabled(s) && Calls(s) && BeforeDisconnect(s.tx.pc)
    ensures TxStep(s, ok).tx.dones == s.tx.dones + 1
    ensures TxStep(s, ok).tx.moved <==> s.tx.moved || Successful(s)
  {
  }

  lemma LateCall(s: Sys, ok: bool)
    requires TxEnabled(s) && Calls(s) && !BeforeDisconnect(s.tx.pc)
    ensures TxStep(s, ok).tx.dones == s.tx.dones + 1
    ensures TxStep(s, ok).tx.moved <==> s.tx.moved || Successful(s)
  {
  }

  /**
   * From any state of either adapter: done is called at exactly these points, and moves the active index exactly if the
   * previous adapter is disconnected.
   */
  lemma DoneExactly(s: Sys, ok: bool)
    requires TxEnabled(s)
    ensures TxStep(s, ok).tx.dones == s.tx.dones + One(Calls(s))
    ensures TxStep(s, ok).tx.moved <==> s.tx.moved || (Calls(s) && Successful(s))
  {
    hide TxStep, TxEnabled, Calls, Successful, BeforeDisconnect;
    if BeforeDisconnect(s.tx.pc) {
      if Calls(s) { EarlyCall(s, ok); } else { NoEarlyCall(s, ok); }
    } else {
      if Calls(s) { LateCall(s, ok); } else { NoLateCall(s, ok); }
    }
  }

  lemma CallReports(s: Sys, ok: bool)
    requires TxEnabled(s) && Calls(s)
    ensures (TxStep(s, ok).tx.success <==> Successful(s)) && !TxStep(s, ok).tx.switching
  {
  }

  /** A call of sleep for an adapter that is not active fails the switch. */
  lemma SleepNeedsActive(s: Sys, ok: bool)
    requires s.tx.pc == SleepCheck && s.prev != Active
    ensures TxEnabled(s) && TxEnabled(TxStep(s, ok))
    ensures var t := TxStep(TxStep(s, ok), ok).tx; t.dones == s.tx.dones + 1 && !t.success
  {
  }

  /** From the Disconnect request on. */
  predicate Late(pc: Tx) {
    || pc == DisconnectBegin || pc == DisableLoop || pc == ResumeLoop || pc == CloseDevices || pc == WaitLoopEnd
    || pc.DisconnectEnd?
  }

  /** How often a run requests the peer to disconnect. */
  function Requests(s: Sys, events: seq<Event>): nat
    requires ValidRun(s, events)
    decreases |events|
  {
    if events == [] then 0
    else One(s.tx.pc == DisconnectRequest && events[0].TxEvent?) + Requests(Step(s, events[0]), events[1..])
  }

  lemma LateStays(s: Sys, e: Event)
    requires Inv(s) && Enabled(s, e)
    ensures Late(s.tx.pc) || s.tx.pc == End ==> Late(Step(s, e).tx.pc) || Step(s, e).tx.pc == End
    ensures s.tx.pc == DisconnectRequest && e.TxEvent? ==> Late(Step(s, e).tx.pc)
    ensures Late(Step(s, e).tx.pc) ==> Late(s.tx.pc) || (s.tx.pc == DisconnectRequest && e.TxEvent?)
  {
    hide AtPoint, SndStep;
    if e.SndEvent? { SndKeepsPhase(s, e.o); }
  }

  lemma {:induction false} RequestedIsLate(s: Sys, events: seq<Event>)
    requires Inv(s) && ValidRun(s, events)
    ensures Late(s.tx.pc) || s.tx.pc == End || Requests(s, events) > 0
            ==> Late(Exec(s, events).tx.pc) || Exec(s, events).tx.pc == End
    ensures Late(Exec(s, events).tx.pc) ==> Late(s.tx.pc) || Requests(s, events) > 0
    decreases |events|
  {
    if events != [] {
      LateStays(s, events[0]);
      StepKeepsInv(s, events[0]);
      hide Inv, Late, Step, Enabled;
      RequestedIsLate(Step(s, events[0]), events[1..]);
    }
  }

  lemma LastStep(s: Sys, e: Event)
    requires Inv(s) && Enabled(s, e) && s.tx.pc != End && Step(s, e).tx.pc == End
    ensures var t := Step(s, e);
      && e.TxEvent? && !t.tx.onPurpose
      && if t.tx.success then t.prev == Disconnected && t.next == Active && Late(s.tx.pc)
         else if Late(s.tx.pc) then t.prev == Sleeping && t.next == Active
         else t.prev == Active && (s.tx.pc == Start || s.tx.pc == ConnectCallback(false))
  {
    hide SndStep;
    if e.SndEvent? { SndKeepsPhase(s, e.o); }
  }

  /** The next adapter is as it was until it is connected, and again if that fails. */
  predicate NextIsSettled(s: Sys, initially: AdapterState) {
    match s.tx.pc
    case Start => s.next == initially
    case ConnectBegin => s.next == initially
    case ConnectRequest => initially == Disconnected
    case ConnectEnd => initially == Disconnected
    case ConnectCallback(ok) => ok || s.next == initially
    case _ => true
  }

  lemma NextIsSettledAfter(s: Sys, e: Event, initially: AdapterState)
    requires Inv(s) && NextIsSettled(s, initially) && Enabled(s, e)
    ensures NextIsSettled(Step(s, e), initially)
  {
    assert s.tx.pc == ConnectBegin ==> s.next == Disconnected;
    hide Inv, SndStep;
    if e.SndEvent? { SndKeepsNext(s, e.o); }
  }

  lemma SndKeepsNext(s: Sys, o: Outcome)
    requires SndEnabled(s)
    ensures SndStep(s, o).next == s.next && SndStep(s, o).tx == s.tx
  {
  }

  lemma {:induction false} NextStaysSettled(s: Sys, events: seq<Event>, initially: AdapterState)
    requires Inv(s) && NextIsSettled(s, initially) && ValidRun(s, events)
    ensures NextIsSettled(Exec(s, events), initially)
    decreases |events|
  {
    if events != [] {
      NextIsSettledAfter(s, events[0], initially);
      StepKeepsInv(s, events[0]);
      hide Inv, NextIsSettled, Step, Enabled;
      NextStaysSettled(Step(s, events[0]), events[1..], initially);
    }
  }

  /**
   * The step that ends a switch leaves one of three pairs of states: success, with the previous adapter disconnected;
   * failure behind the Disconnect request, with the previous adapter asleep again; or failure before it, with the
   * previous adapter still active and the next one as it was.
   */
  lemma EndsInThreeWays(start: Sys, events: seq<Event>, e: Event)
    requires IsSwitch(start) && ValidRun(start, events) && Enabled(Exec(start, events), e)
    requires Exec(start, events).tx.pc != End && Step(Exec(start, events), e).tx.pc == End
    ensures var t, requested := Step(Exec(start, events), e), Requests(start, events) > 0;
      && (t.tx.success ==> requested) && !t.tx.onPurpose
      && t.prev == (if t.tx.success then Disconnected else if requested then Sleeping else Active)
      && t.next == (if requested then Active else start.next)
  {
    RunKeepsInv(start, events);
    RequestedIsLate(start, events);
    NextStaysSettled(start, events, start.next);
    LastStep(Exec(start, events), e);
  }

  // --- Switches from an adapter that is not active ---

  /** The transaction is about to start, beside a next adapter that does not sleep. */
  predicate Starting(s: Sys) {
    s.tx == TxThread(Start, false, Disconnected, false, 0, false, false, true) && s.next != Sleeping
  }

  /** Up to the end of a switch whose previous adapter neither is active nor sleeps, and stays as it is. */
  predicate NothingToPutToSleep(s: Sys, prev: AdapterState) {
    && s.prev == prev && s.snd.pc == Ended && !s.tx.nested
    && match s.tx.pc
       case Start => s.tx.dones == 0 && !s.tx.moved
       case ConnectBegin => s.tx.dones == 0 && !s.tx.moved
       case ConnectRequest => s.tx.dones == 0 && !s.tx.moved
       case ConnectEnd => s.tx.dones == 0 && !s.tx.moved
       case ConnectCallback(ok) => s.tx.dones == 0 && !s.tx.moved && (ok <==> s.next == Active)
       case End =>
         s.tx.dones == 1 && s.tx.moved == s.tx.success && (s.tx.success <==> prev == Disconnected && s.next == Active)
       case _ => false
  }

  lemma StaysAsItIs(s: Sys, e: Event, prev: AdapterState)
    requires prev == Disconnected || InProgress(prev)
    requires NothingToPutToSleep(s, prev) && Enabled(s, e)
    ensures NothingToPutToSleep(Step(s, e), prev)
  {
  }

  lemma {:induction false} RunStaysAsItIs(s: Sys, events: seq<Event>, prev: AdapterState)
    requires prev == Disconnected || InProgress(prev)
    requires NothingToPutToSleep(s, prev) && ValidRun(s, events)
    ensures NothingToPutToSleep(Exec(s, events), prev)
    decreases |events|
  {
    if events != [] {
      StaysAsItIs(s, events[0], prev);
      hide NothingToPutToSleep, Step, Enabled;
      RunStaysAsItIs(Step(s, events[0]), events[1..], prev);
    }
  }

  /**
   * Where the previous adapter has no sender in its loop and is disconnected, or on its way between states: the switch
   * calls done once, leaves the previous adapter alone, and succeeds exactly if that adapter is disconnected and the
   * next one is active in the end.
   */
  lemma SucceedsIfDisconnected(start: Sys, events: seq<Event>)
    requires Starting(start) && start.snd.pc == Ended && (start.prev == Disconnected || InProgress(start.prev))
    requires ValidRun(start, events) && Exec(start, events).tx.pc == End
    ensures var s := Exec(start, events);
      && s.prev == start.prev && s.tx.dones == 1 && s.tx.moved == s.tx.success
      && (s.tx.success <==> start.prev == Disconnected && s.next == Active)
  {
    RunStaysAsItIs(start, events, start.prev);
  }

  /** Up to the answer of the next adapter. */
  predicate BeforeAnswer(s: Sys) {
    && GoingToSleep(s.prev, s.snd) && !s.tx.nested && s.tx.dones == 0
    && match s.tx.pc
       case Start => s.next == Disconnected
       case ConnectBegin => true
       case ConnectRequest => s.next == Connecting
       case ConnectEnd => s.next == Connecting
       case ConnectCallback(ok) => ok <==> s.next == Active
       case _ => false
  }

  /** The sleep callback was called directly. */
  predicate FirstRound(s: Sys) {
    && s.next == Active && s.tx.nested && s.tx.dones == 0
    && match s.tx.pc
       case SleepCallback(ok) => GoingToSleep(s.prev, s.snd) && ok
       case WaitSleeping => GoingToSleep(s.prev, s.snd)
       case DisconnectCheck => Parked(s.prev, s.snd)
       case DisconnectRequest => Parked(s.prev, s.snd)
       case DisconnectBegin => Parked(s.prev, s.snd)
       case DisableLoop => s.tx.before == Sleeping
       case ResumeLoop => s.tx.before == Sleeping
       case CloseDevices => !s.snd.paused
       case WaitLoopEnd => !s.snd.paused
       case DisconnectEnd(_) => !s.snd.paused
       case _ => false
  }

  /** From the call of sleep on, that comes all the same. */
  predicate SecondRound(s: Sys) {
    && s.next == Active && !s.tx.nested && s.tx.dones == 1 && s.tx.pc != End
    && !s.tx.pc.Start? && !s.tx.pc.ConnectBegin? && !s.tx.pc.ConnectRequest? && !s.tx.pc.ConnectEnd?
    && !s.tx.pc.ConnectCallback?
    && (s.tx.pc == SleepCheck || s.tx.pc == SleepPausedCheck ==> !s.snd.paused)
  }

  predicate Over(s: Sys) {
    s.tx.pc == End && s.tx.dones == if s.next == Active then 2 else 1
  }

  predicate EndsTwice(s: Sys) {
    && (s.snd.ended <==> s.snd.pc == Ended)
    && (BeforeAnswer(s) || FirstRound(s) || SecondRound(s) || Over(s))
  }

  lemma AnswerComes(s: Sys, ok: bool)
    requires BeforeAnswer(s) && TxEnabled(s)
    ensures var t := TxStep(s, ok); BeforeAnswer(t) || FirstRound(t) || Over(t)
  {
  }

  lemma FirstRoundGoesOn(s: Sys, ok: bool)
    requires FirstRound(s) && TxEnabled(s)
    ensures var t := TxStep(s, ok); FirstRound(t) || SecondRound(t)
  {
  }

  lemma TxKeepsEnded(s: Sys, ok: bool)
    requires TxEnabled(s)
    ensures var t := TxStep(s, ok); t.snd.ended == s.snd.ended && (t.snd.pc == Ended <==> s.snd.pc == Ended)
  {
  }

  lemma SecondSleepGoesOn(s: Sys, ok: bool)
    requires SecondRound(s) && TxEnabled(s) && BeforeDisconnect(s.tx.pc)
    ensures var t := TxStep(s, ok); SecondRound(t) || Over(t)
  {
  }

  lemma SecondDisconnectGoesOn(s: Sys, ok: bool)
    requires SecondRound(s) && TxEnabled(s) && !BeforeDisconnect(s.tx.pc) && !s.tx.pc.DisconnectEnd?
    ensures SecondRound(TxStep(s, ok))
  {
  }

  lemma SecondRoundEnds(s: Sys, ok: bool)
    requires SecondRound(s) && TxEnabled(s) && s.tx.pc.DisconnectEnd?
    ensures Over(TxStep(s, ok))
  {
  }

  lemma TxKeepsEndsTwice(s: Sys, ok: bool)
    requires EndsTwice(s) && TxEnabled(s)
    ensures EndsTwice(TxStep(s, ok))
  {
    TxKeepsEnded(s, ok);
    hide TxStep, BeforeAnswer, FirstRound, SecondRound, BeforeDisconnect;
    if BeforeAnswer(s) { AnswerComes(s, ok); }
    else if FirstRound(s) { FirstRoundGoesOn(s, ok); }
    else if BeforeDisconnect(s.tx.pc) { SecondSleepGoesOn(s, ok); }
    else if s.tx.pc.DisconnectEnd? { SecondRoundEnds(s, ok); }
    else { SecondDisconnectGoesOn(s, ok); }
  }

  lemma SndKeepsEndsTwice(s: Sys, o: Outcome)
    requires EndsTwice(s) && SndEnabled(s)
    ensures EndsTwice(SndStep(s, o))
  {
    SndKeepsPhase(s, o);
    SndNeverPauses(s, o);
    hide SndStep;
  }

  lemma SndNeverPauses(s: Sys, o: Outcome)
    requires SndEnabled(s)
    ensures SndStep(s, o).snd.paused ==> s.snd.paused
  {
  }

  lemma {:induction false} RunKeepsEndsTwice(s: Sys, events: seq<Event>)
    requires EndsTwice(s) && ValidRun(s, events)
    ensures EndsTwice(Exec(s, events))
    decreases |events|
  {
    if events != [] {
      var e := events[0];
      if e.TxEvent? { TxKeepsEndsTwice(s, e.ok); }
      else if e.SndEvent? { SndKeepsEndsTwice(s, e.o); }
      else { OthersKeepEndsTwice(s, e); }
      hide EndsTwice, TxStep, SndStep, Enabled;
      RunKeepsEndsTwice(Step(s, e), events[1..]);
    }
  }

  lemma OthersKeepEndsTwice(s: Sys, e: Event)
    requires EndsTwice(s) && Enabled(s, e) && !e.TxEvent? && !e.SndEvent?
    ensures EndsTwice(Step(s, e))
  {
    var t := Step(s, e);
    assert t.tx == s.tx && t.prev == s.prev && t.next == s.next;
    assert t.snd == s.snd || (s.snd.pc == Blocked && t.snd == s.snd.(pc := Woken));
  }

  /**
   * A switch from an adapter that already sleeps, or is going to, once it has connected the next one: if it ends at all
   * it has called done twice, as the sleep callback is called directly and sleep is called all the same.
   */
  lemma AsleepEndsTwice(start: Sys, events: seq<Event>)
    requires Starting(start) && start.next == Disconnected
    requires GoingToSleep(start.prev, start.snd) && (start.snd.ended <==> start.snd.pc == Ended)
    requires ValidRun(start, events) && Exec(start, events).tx.pc == End
    ensures Exec(start, events).tx.dones == if Exec(start, events).next == Active then 2 else 1
  {
    RunKeepsEndsTwice(start, events);
  }

}
