/**
 * The adapter switch transaction (connect next, put previous to sleep, disconnect previous) running beside
 * the sender thread of the previous adapter. One constructor per atomic step of either thread.
 */
module AdapterSwitch {

  datatype AdapterState = Disconnected | Connecting | Active | Disconnecting | GoingSleeping | Sleeping | WakingUp

  /** The next step of the transaction thread. */
  datatype Tx =
    | Start                        // start(): look at the next adapter
    | ConnectBegin                 // connect_internal: set Connecting
    | ConnectRequest               // the server socket listens, and a Connect request is enqueued
    | ConnectEnd                   // __connect_internal returned
    | ConnectCallback(ok: bool)    // connect_next_adapter_callback
    | SleepCheck                   // sleep(): state
    | SleepPausedCheck             // sleep(): already paused?
    | SleepMark                    // set GoingSleeping
    | SleepPause                   // pause_loop
    | SleepNotify                  // wake up whoever waits in dequeue
    | SleepCallback(ok: bool)      // sleep_prev_adapter_callback
    | WaitSleeping                 // poll until Sleeping
    | DisconnectCheck              // disconnect_on_command: state
    | DisconnectRequest            // a Disconnect request is enqueued
    | DisconnectBegin              // remember the old state, set Disconnecting
    | DisableLoop                  // disable_loop
    | ResumeLoop                   // wake_up_internal if the old state was Sleeping
    | CloseDevices                 // socket, discovery, device
    | WaitLoopEnd                  // wait_until_disable_loop_done
    | DisconnectEnd(ok: bool)      // final state, disconnect_prev_adapter_callback
    | End

  /**
   * The next step of the previous adapter's sender thread. PopFailed, Dequeue: about to look for a segment. Blocked:
   * waiting inside dequeue. Woken: notified there, about to look at the send queues once more.
   */
  datatype Snd =
    | LoopTop | PausedCheck | MarkSleeping | WaitResume | ReadState | MarkActive
    | PopFailed | Dequeue | Blocked | Woken | Recheck | Send | ClearEnabled | ClearPaused | SetEnded | Ended

  /**
   * `nested` is set while the connect callback has called the sleep callback directly and will go on to
   * call sleep() afterwards. `dones` counts the calls of done(); `moved` is the active index; `switching`
   * is the state of the switcher; `before` is the state disconnect_internal remembers.
   */
  datatype TxThread = TxThread(pc: Tx, onPurpose: bool, before: AdapterState, nested: bool,
                               dones: nat, success: bool, moved: bool, switching: bool)

  datatype SndThread = SndThread(pc: Snd, enabled: bool, paused: bool, ended: bool)

  /**
   * `failed` and `queue` count the segments in the failed list and in the send queues, `held` those in the hands of the
   * next adapter's sender.
   */
  datatype Sys = Sys(prev: AdapterState, next: AdapterState, tx: TxThread, snd: SndThread,
                     failed: nat, queue: nat, held: nat)

  // --- Transaction steps ---

  /** done(): the index moves on success, the switcher becomes ready. */
  function Done(t: TxThread, ok: bool): TxThread {
    TxThread(if t.nested then SleepCheck else End, t.onPurpose, t.before, false,
             t.dones + 1, ok, t.moved || ok, false)
  }

  function Goto(s: Sys, pc: Tx): Sys {
    s.(tx := s.tx.(pc := pc))
  }

  function Finish(s: Sys, ok: bool): Sys {
    s.(tx := Done(s.tx, ok))
  }

  /** A notification reaches the sender only while it waits. */
  function Notified(t: SndThread): SndThread {
    if t.pc == Blocked then t.(pc := Woken) else t
  }

  /** One more segment in the send queues. */
  function Enqueue(s: Sys): Sys {
    s.(queue := s.queue + 1, snd := Notified(s.snd))
  }

  predicate InProgress(a: AdapterState) {
    a == Connecting || a == Disconnecting || a == WakingUp
  }

  predicate TxEnabled(s: Sys) {
    && s.tx.pc != End
    && (s.tx.pc == WaitSleeping ==> s.prev == Sleeping)
    && (s.tx.pc == DisconnectCheck ==> s.prev != GoingSleeping)
    && (s.tx.pc == WaitLoopEnd ==> s.snd.ended)
  }

  /** `ok` is the outcome of a device operation. */
  function TxStep(s: Sys, ok: bool): Sys
    requires TxEnabled(s)
  {
    match s.tx.pc
    case Start =>
      if s.next == Active then Goto(s, ConnectCallback(true))
      else if InProgress(s.next) || s.next == GoingSleeping then Finish(s, false)
      else Goto(s, ConnectBegin)
    case ConnectBegin => Goto(s, ConnectRequest).(next := Connecting)
    case ConnectRequest =>
      if ok then Goto(Enqueue(s), ConnectEnd) else Goto(s, ConnectCallback(false)).(next := Disconnected)
    case ConnectEnd => Goto(s, ConnectCallback(ok)).(next := if ok then Active else Disconnected)
    case ConnectCallback(connected) =>
      if !connected then Finish(s, false)
      else if s.prev == Disconnected then Finish(s, true)
      else if s.prev == Sleeping || s.prev == GoingSleeping then
        s.(tx := s.tx.(pc := SleepCallback(true), nested := true))
      else if InProgress(s.prev) then Finish(s, false)
      else Goto(s, SleepCheck)
    case SleepCheck => if s.prev != Active then Goto(s, SleepCallback(false)) else Goto(s, SleepPausedCheck)
    case SleepPausedCheck =>
      // An already paused sender calls back with failure and then falls through to the second callback.
      if s.snd.paused then Goto(Finish(s, false), SleepCallback(true)) else Goto(s, SleepMark)
    case SleepMark => Goto(s, SleepPause).(prev := GoingSleeping)
    case SleepPause => Goto(s, SleepNotify).(snd := s.snd.(paused := true))
    case SleepNotify => Goto(s, SleepCallback(true)).(snd := Notified(s.snd))
    case SleepCallback(slept) =>
      if !slept then Finish(s, false)
      else if s.prev == Disconnected then Finish(s, true)
      else if s.prev == GoingSleeping then Goto(s, WaitSleeping)
      else if InProgress(s.prev) then Finish(s, false)
      else Goto(s, DisconnectCheck)
    case WaitSleeping => Goto(s, DisconnectCheck)
    case DisconnectCheck =>
      if s.prev != Sleeping then Finish(s, false) else s.(tx := s.tx.(pc := DisconnectRequest, onPurpose := true))
    case DisconnectRequest => Goto(Enqueue(s), DisconnectBegin)
    case DisconnectBegin => s.(prev := Disconnecting, tx := s.tx.(pc := DisableLoop, before := s.prev))
    case DisableLoop => Goto(s, ResumeLoop).(snd := s.snd.(enabled := false))
    case ResumeLoop =>
      Goto(s, CloseDevices).(snd := if s.tx.before == Sleeping then s.snd.(paused := false) else s.snd)
    case CloseDevices => Goto(s, if ok then WaitLoopEnd else DisconnectEnd(false))
    case WaitLoopEnd => Goto(s, DisconnectEnd(true))
    case DisconnectEnd(closed) =>
      s.(prev := if closed then Disconnected else s.tx.before, tx := Done(s.tx.(onPurpose := false), closed))
  }

  // --- Sender steps ---

  /** How a send turned out. */
  datatype Outcome = Good | Retry | Broken

  predicate SndEnabled(s: Sys) {
    && s.snd.pc != Ended
    && (s.snd.pc == WaitResume ==> !s.snd.paused)
    && s.snd.pc != Blocked
    && (s.snd.pc == Send ==> s.prev != Connecting)
  }

  function Move(s: Sys, pc: Snd): Sys {
    s.(snd := s.snd.(pc := pc))
  }

  function SndStep(s: Sys, o: Outcome): Sys
    requires SndEnabled(s)
  {
    match s.snd.pc
    case LoopTop => Move(s, if s.snd.enabled then PausedCheck else ClearEnabled)
    case PausedCheck => Move(s, if s.snd.paused then MarkSleeping else PopFailed)
    case MarkSleeping => Move(s, WaitResume).(prev := Sleeping)
    case WaitResume => Move(s, ReadState)
    case ReadState => Move(s, if s.prev != Disconnecting && s.prev != Disconnected then MarkActive else PausedCheck)
    case MarkActive => Move(s, PausedCheck).(prev := Active)
    case PopFailed => if s.failed > 0 then Move(s, Recheck).(failed := s.failed - 1) else Move(s, Dequeue)
    case Dequeue => if s.queue > 0 then Move(s, Recheck).(queue := s.queue - 1) else Move(s, Blocked)
    case Woken => if s.queue > 0 then Move(s, Recheck).(queue := s.queue - 1) else Move(s, LoopTop)
    case Recheck => if s.snd.paused then Move(s, LoopTop).(failed := s.failed + 1) else Move(s, Send)
    case Send =>
      // Not Active: send returns -1 and the stale errno decides between another round and leaving the loop.
      if s.prev == Active && o == Good then Move(s, LoopTop)
      else Move(s, if s.tx.onPurpose || o == Broken then ClearEnabled else LoopTop).(failed := s.failed + 1)
    case ClearEnabled => Move(s, ClearPaused).(snd := s.snd.(pc := ClearPaused, enabled := false))
    case ClearPaused => Move(s, SetEnded).(snd := s.snd.(pc := SetEnded, paused := false))
    case SetEnded => s.(snd := s.snd.(pc := Ended, ended := true))
  }

  // --- Runs ---

  /**
   * The next adapter's sender takes, sends or gives back segments once its adapter is active. Traffic: a message is
   * enqueued, which notifies the waiting senders. Refile: the peer asked for a repetition, which notifies nobody.
   */
  datatype Event =
    | TxEvent(ok: bool) | SndEvent(o: Outcome)
    | NextTakesFailed | NextTakesQueued | NextSends | NextFails
    | Traffic | Refile

  predicate Enabled(s: Sys, e: Event) {
    match e
    case TxEvent(_) => TxEnabled(s)
    case SndEvent(_) => SndEnabled(s)
    case NextTakesFailed => s.next == Active && s.failed > 0
    case NextTakesQueued => s.next == Active && s.queue > 0
    case NextSends => s.next == Active && s.held > 0
    case NextFails => s.next == Active && s.held > 0
    case Traffic => true
    case Refile => true
  }

  function Step(s: Sys, e: Event): Sys
    requires Enabled(s, e)
  {
    match e
    case TxEvent(ok) => TxStep(s, ok)
    case SndEvent(o) => SndStep(s, o)
    case NextTakesFailed => s.(failed := s.failed - 1, held := s.held + 1)
    case NextTakesQueued => s.(queue := s.queue - 1, held := s.held + 1)
    case NextSends => s.(held := s.held - 1)
    case NextFails => s.(held := s.held - 1, failed := s.failed + 1)
    case Traffic => Enqueue(s)
    case Refile => s.(failed := s.failed + 1)
  }

  predicate ValidRun(s: Sys, events: seq<Event>)
    decreases |events|
  {
    events != [] ==> Enabled(s, events[0]) && ValidRun(Step(s, events[0]), events[1..])
  }

  function Exec(s: Sys, events: seq<Event>): Sys
    requires ValidRun(s, events)
    decreases |events|
  {
    if events == [] then s else Exec(Step(s, events[0]), events[1..])
  }

  /** The sender is in its loop, not parked. */
  predicate InLoop(pc: Snd) {
    || pc == LoopTop || pc == PausedCheck || pc == PopFailed || pc == Dequeue || pc == Blocked || pc == Woken
    || pc == Recheck || pc == Send
  }

  /** The sender is leaving, or has left, its loop. */
  predicate Leaving(pc: Snd) {
    pc == ClearEnabled || pc == ClearPaused || pc == SetEnded || pc == Ended
  }

  /** The sender waits only while the send queues are empty: an enqueue notifies it. */
  predicate NotMissed(s: Sys) {
    s.snd.pc == Blocked ==> s.queue == 0
  }

  /** A switch from an active adapter, whose sender runs or has left its loop before, to one that does not sleep. */
  ghost predicate IsSwitch(s: Sys) {
    && s.prev == Active && s.next != Sleeping
    && s.tx == TxThread(Start, false, Disconnected, false, 0, false, false, true)
    && (InLoop(s.snd.pc) || s.snd.pc == Ended) && !s.snd.paused && NotMissed(s)
    && s.snd.enabled == InLoop(s.snd.pc) && s.snd.ended == (s.snd.pc == Ended)
  }

  ghost predicate IsStart(s: Sys) {
    IsSwitch(s) && s.next == Disconnected
  }

  // --- Invariant ---

  /** The previous adapter has not been told to sleep. */
  predicate Untouched(prev: AdapterState, t: SndThread) {
    prev == Active && !t.paused && ((InLoop(t.pc) && t.enabled) || Leaving(t.pc))
  }

  /** Marked but not yet paused. */
  predicate Marked(prev: AdapterState, t: SndThread) {
    prev == GoingSleeping && !t.paused && ((InLoop(t.pc) && t.enabled) || Leaving(t.pc))
  }

  /** Told to sleep and paused, not yet parked; or parked; or gone without ever parking. */
  predicate GoingToSleep(prev: AdapterState, t: SndThread) {
    if Leaving(t.pc) then prev == GoingSleeping
    else
      && t.enabled && t.paused
      && ((prev == GoingSleeping && (InLoop(t.pc) || t.pc == MarkSleeping)) || (prev == Sleeping && t.pc == WaitResume))
  }

  predicate Parked(prev: AdapterState, t: SndThread) {
    prev == Sleeping && t.pc == WaitResume && t.paused
  }

  predicate Disconnects(s: Sys) {
    s.prev == Disconnecting && s.tx.before == Sleeping && s.tx.onPurpose
  }

  predicate Resumed(t: SndThread) {
    !t.paused && !t.enabled && t.pc != MarkSleeping && t.pc != MarkActive
  }

  /** Both adapters and the previous sender at each point of the transaction. */
  ghost predicate AtPoint(s: Sys) {
    match s.tx.pc
    case Start => Untouched(s.prev, s.snd) && s.next != Sleeping
    case ConnectBegin => Untouched(s.prev, s.snd) && s.next == Disconnected
    case ConnectRequest => Untouched(s.prev, s.snd) && s.next == Connecting
    case ConnectEnd => Untouched(s.prev, s.snd) && s.next == Connecting
    case ConnectCallback(ok) => Untouched(s.prev, s.snd) && s.next == if ok then Active else Disconnected
    case SleepCheck => Untouched(s.prev, s.snd) && s.next == Active
    case SleepPausedCheck => Untouched(s.prev, s.snd) && s.next == Active
    case SleepMark => Untouched(s.prev, s.snd) && s.next == Active
    case SleepPause => Marked(s.prev, s.snd) && s.next == Active
    case SleepNotify => GoingToSleep(s.prev, s.snd) && s.next == Active
    case SleepCallback(ok) => GoingToSleep(s.prev, s.snd) && s.next == Active && ok
    case WaitSleeping => GoingToSleep(s.prev, s.snd) && s.next == Active
    case DisconnectCheck => Parked(s.prev, s.snd) && s.next == Active
    case DisconnectRequest => Parked(s.prev, s.snd) && s.next == Active && s.tx.onPurpose
    case DisconnectBegin => Parked(s.prev, s.snd) && s.next == Active && s.tx.onPurpose
    case DisableLoop => Disconnects(s) && s.next == Active && s.snd.pc == WaitResume && s.snd.paused
    case ResumeLoop => Disconnects(s) && s.next == Active && s.snd.pc == WaitResume && s.snd.paused && !s.snd.enabled
    case CloseDevices => Disconnects(s) && s.next == Active && Resumed(s.snd)
    case WaitLoopEnd => Disconnects(s) && s.next == Active && Resumed(s.snd)
    case DisconnectEnd(ok) => Disconnects(s) && s.next == Active && Resumed(s.snd) && (ok ==> s.snd.pc == Ended)
    case End =>
      if s.tx.success then s.next == Active && s.prev == Disconnected && s.snd.pc == Ended
      else s.next == Active || Untouched(s.prev, s.snd)
  }

  /** The transaction has not reached the disconnection of the previous adapter. */
  predicate BeforeDisconnect(pc: Tx) {
    || pc.Start? || pc.ConnectBegin? || pc.ConnectRequest? || pc.ConnectEnd? || pc.ConnectCallback?
    || pc.SleepCheck? || pc.SleepPausedCheck? || pc.SleepMark? || pc.SleepPause? || pc.SleepNotify?
    || pc.SleepCallback? || pc.WaitSleeping? || pc.DisconnectCheck?
  }

  ghost predicate Inv(s: Sys) {
    && !s.tx.nested
    && (BeforeDisconnect(s.tx.pc) ==> !s.tx.onPurpose)
    && (s.snd.ended <==> s.snd.pc == Ended)
    && s.tx.dones == (if s.tx.pc == End then 1 else 0)
    && (s.tx.moved <==> s.tx.pc == End && s.tx.success)
    && (s.tx.switching <==> s.tx.pc != End)
    && NotMissed(s) && AtPoint(s)
  }

  /** Up to the answer of the next adapter. */
  predicate BeforeSleep(pc: Tx) {
    pc.Start? || pc.ConnectBegin? || pc.ConnectRequest? || pc.ConnectEnd? || pc.ConnectCallback?
  }

  lemma ConnectingKeepsInv(s: Sys, ok: bool)
    requires Inv(s) && TxEnabled(s) && BeforeSleep(s.tx.pc)
    ensures Inv(TxStep(s, ok))
  {
  }

  lemma SleepingKeepsInv(s: Sys, ok: bool)
    requires Inv(s) && TxEnabled(s) && BeforeDisconnect(s.tx.pc) && !BeforeSleep(s.tx.pc)
    ensures Inv(TxStep(s, ok))
  {
  }

  lemma TxKeepsInvLate(s: Sys, ok: bool)
    requires Inv(s) && TxEnabled(s) && !BeforeDisconnect(s.tx.pc)
    ensures Inv(TxStep(s, ok))
  {
  }

  lemma StepKeepsInv(s: Sys, e: Event)
    requires Inv(s) && Enabled(s, e)
    ensures Inv(Step(s, e))
  {
    if e.SndEvent? { SndKeepsInv(s, e.o); }
    else if !e.TxEvent? { SegmentsKeepInv(s, e); }
    else if BeforeSleep(s.tx.pc) { ConnectingKeepsInv(s, e.ok); }
    else if BeforeDisconnect(s.tx.pc) { SleepingKeepsInv(s, e.ok); }
    else { TxKeepsInvLate(s, e.ok); }
  }

  lemma SndKeepsPhase(s: Sys, o: Outcome)
    requires SndEnabled(s) && (s.snd.ended <==> s.snd.pc == Ended)
    ensures var s' := SndStep(s, o);
      && s'.tx == s.tx && s'.next == s.next && (NotMissed(s) ==> NotMissed(s'))
      && (s'.snd.ended <==> s'.snd.pc == Ended)
      && (Untouched(s.prev, s.snd) ==> Untouched(s'.prev, s'.snd))
      && (Marked(s.prev, s.snd) ==> Marked(s'.prev, s'.snd))
      && (GoingToSleep(s.prev, s.snd) ==> GoingToSleep(s'.prev, s'.snd))
      && (s.prev == Disconnecting && Resumed(s.snd) ==> s'.prev == Disconnecting && Resumed(s'.snd))
      && !(s.snd.pc == WaitResume && s.snd.paused)
  {
  }

  lemma SndKeepsInv(s: Sys, o: Outcome)
    requires Inv(s) && SndEnabled(s)
    ensures Inv(Step(s, SndEvent(o)))
  {
    SndKeepsPhase(s, o);
    hide SndStep;
  }

  lemma SegmentsKeepInv(s: Sys, e: Event)
    requires Inv(s) && Enabled(s, e) && !e.TxEvent? && !e.SndEvent?
    ensures Inv(Step(s, e))
  {
  }

  lemma {:induction false} RunKeepsInv(s: Sys, events: seq<Event>)
    requires Inv(s) && ValidRun(s, events)
    ensures Inv(Exec(s, events))
    decreases |events|
  {
    if events != [] {
      StepKeepsInv(s, events[0]);
      RunKeepsInv(Step(s, events[0]), events[1..]);
    }
  }

  // --- Safety in every run ---

  /**
   * Make before break: one of the two adapters is active in every reachable state. done() has been called
   * once exactly when the transaction is over, the index moves exactly on success, and success means the
   * next adapter is active and the previous one disconnected.
   */
  lemma MakeBeforeBreak(start: Sys, events: seq<Event>)
    requires IsSwitch(start) && ValidRun(start, events)
    ensures var s := Exec(start, events);
      && (s.prev == Active || s.next == Active)
      && s.tx.dones == (if s.tx.pc == End then 1 else 0)
      && (s.tx.moved <==> s.tx.pc == End && s.tx.success)
      && (s.tx.moved ==> s.next == Active && s.prev == Disconnected)
      && (s.tx.switching <==> s.tx.pc != End)
  {
    RunKeepsInv(start, events);
  }

  // --- When the transaction can still finish ---

  /**
   * The sender left its loop before it parked, after the next adapter was connected and before the
   * transaction saw the previous adapter asleep.
   */
  predicate Doomed(s: Sys) {
    Leaving(s.snd.pc) &&
    match s.tx.pc
    case Start => s.next == Active
    case ConnectCallback(ok) => ok
    case SleepCheck => true
    case SleepPausedCheck => true
    case SleepMark => true
    case SleepPause => true
    case SleepNotify => true
    case SleepCallback(_) => true
    case WaitSleeping => true
    case _ => false
  }

  lemma DoomedStays(s: Sys, e: Event)
    requires Inv(s) && Doomed(s) && Enabled(s, e)
    ensures Doomed(Step(s, e))
  {
  }

  lemma {:induction false} DoomedNeverFinishes(s: Sys, events: seq<Event>)
    requires Inv(s) && Doomed(s) && ValidRun(s, events)
    ensures Exec(s, events).tx.pc != End
    decreases |events|
  {
    if events != [] {
      DoomedStays(s, events[0]);
      StepKeepsInv(s, events[0]);
      DoomedNeverFinishes(Step(s, events[0]), events[1..]);
    }
  }

  function TxRank(pc: Tx): nat {
    match pc
    case Start => 20 case ConnectBegin => 19 case ConnectRequest => 18 case ConnectEnd => 17
    case ConnectCallback(_) => 16
    case SleepCheck => 15 case SleepPausedCheck => 14 case SleepMark => 13 case SleepPause => 12 case SleepNotify => 11
    case SleepCallback(_) => 10 case WaitSleeping => 9 case DisconnectCheck => 8 case DisconnectRequest => 7
    case DisconnectBegin => 6
    case DisableLoop => 5 case ResumeLoop => 4 case CloseDevices => 3 case WaitLoopEnd => 2
    case DisconnectEnd(_) => 1 case End => 0
  }

  /** The sender is on its way to its parking place, or to the end of its loop once resumed. */
  predicate Parking(pc: Tx) {
    pc == SleepNotify || pc == WaitSleeping
  }

  function SndRank(parking: bool, pc: Snd): nat {
    match pc
    case WaitResume => if parking then 0 else 13
    case ReadState => 12
    case PausedCheck => if parking then 2 else 11
    case MarkSleeping => 1
    case MarkActive => 0
    case PopFailed => 10
    case Dequeue => 9
    case Blocked => 8
    case Woken => 7
    case Recheck => 6
    case Send => 5
    case LoopTop => if parking then 3 else 4
    case ClearEnabled => 3
    case ClearPaused => 2
    case SetEnded => 1
    case Ended => 0
  }

  /** The transaction gets on, or at the same point the sender does. */
  ghost predicate Closer(s: Sys, t: Sys) {
    || TxRank(t.tx.pc) < TxRank(s.tx.pc)
    || (t.tx.pc == s.tx.pc && SndRank(Parking(s.tx.pc), t.snd.pc) < SndRank(Parking(s.tx.pc), s.snd.pc))
  }

  predicate Connects(pc: Tx) {
    pc == ConnectRequest || pc == ConnectEnd
  }

  function NextEvent(s: Sys): Event {
    if TxEnabled(s) then TxEvent(Connects(s.tx.pc) ==> !Leaving(s.snd.pc))
    else if s.snd.pc == Blocked then Traffic
    else SndEvent(Retry)
  }

  lemma TxGetsOn(s: Sys, ok: bool)
    requires Inv(s) && TxEnabled(s)
    ensures TxRank(TxStep(s, ok).tx.pc) < TxRank(s.tx.pc)
  {
  }

  lemma TxDoesNotDoom(s: Sys, ok: bool)
    requires Inv(s) && !Doomed(s) && TxEnabled(s)
    requires Connects(s.tx.pc) ==> (ok <==> !Leaving(s.snd.pc))
    ensures !Doomed(TxStep(s, ok))
  {
  }

  lemma TxProgress(s: Sys, ok: bool)
    requires Inv(s) && !Doomed(s) && TxEnabled(s)
    requires Connects(s.tx.pc) ==> (ok <==> !Leaving(s.snd.pc))
    ensures !Doomed(TxStep(s, ok)) && TxRank(TxStep(s, ok).tx.pc) < TxRank(s.tx.pc)
  {
    hide *;
    TxGetsOn(s, ok);
    TxDoesNotDoom(s, ok);
  }

  lemma SndProgress(s: Sys)
    requires Inv(s) && !Doomed(s) && s.tx.pc != End && !TxEnabled(s) && s.snd.pc != Blocked
    ensures SndEnabled(s)
    ensures !Doomed(Step(s, SndEvent(Retry))) && Closer(s, Step(s, SndEvent(Retry)))
  {
  }

  lemma Progress(s: Sys)
    requires Inv(s) && !Doomed(s) && s.tx.pc != End
    ensures Enabled(s, NextEvent(s)) && !Doomed(Step(s, NextEvent(s))) && Closer(s, Step(s, NextEvent(s)))
  {
    hide AtPoint, TxStep, SndStep;
    if TxEnabled(s) {
      TxProgress(s, NextEvent(s).ok);
    } else if s.snd.pc != Blocked {
      SndProgress(s);
    }
  }

  /** A sender that waits in dequeue is brought on by traffic. */
  lemma {:induction false} CanFinish(s: Sys) returns (events: seq<Event>)
    requires Inv(s) && !Doomed(s)
    ensures ValidRun(s, events) && Exec(s, events).tx.pc == End
    decreases TxRank(s.tx.pc), SndRank(Parking(s.tx.pc), s.snd.pc)
  {
    if s.tx.pc == End { return []; }
    var e := NextEvent(s);
    Progress(s);
    StepKeepsInv(s, e);
    var rest := CanFinish(Step(s, e));
    events := [e] + rest;
    assert events[1..] == rest;
  }

  /**
   * From every reachable state the transaction can still reach its call of done(), given traffic, if and only if the
   * previous sender has not left its loop before parking.
   */
  lemma FinishesUnlessDoomed(start: Sys, events: seq<Event>)
    requires IsSwitch(start) && ValidRun(start, events)
    ensures var s := Exec(start, events);
      (exists more :: ValidRun(s, more) && Exec(s, more).tx.pc == End) <==> !Doomed(s)
  {
    RunKeepsInv(start, events);
    var s := Exec(start, events);
    if Doomed(s) {
      forall more | ValidRun(s, more) ensures Exec(s, more).tx.pc != End {
        DoomedNeverFinishes(s, more);
      }
    } else {
      var more := CanFinish(s);
    }
  }

  // --- Left to itself ---

  /** No message is sent, and the peer asks for no repetition. What the transaction itself enqueues remains. */
  predicate Undisturbed(events: seq<Event>) {
    forall k :: 0 <= k < |events| ==> events[k] != Traffic && events[k] != Refile
  }

  lemma RunCons(s: Sys, e: Event, rest: seq<Event>)
    requires Enabled(s, e) && ValidRun(Step(s, e), rest)
    ensures ValidRun(s, [e] + rest) && Exec(s, [e] + rest) == Exec(Step(s, e), rest)
    ensures e != Traffic && e != Refile && Undisturbed(rest) ==> Undisturbed([e] + rest)
  {
    assert ([e] + rest)[1..] == rest;
  }

  /** There is a segment to fetch, or one that the next adapter's sender may give back. */
  predicate Supply(s: Sys) {
    s.failed > 0 || s.queue > 0 || s.held > 0
  }

  /** The sender waits in dequeue, or is bound to: nothing will come to it. */
  predicate Caught(s: Sys) {
    || s.snd.pc == Blocked
    || (s.snd.pc == Dequeue && s.queue == 0)
    || (s.snd.pc == PopFailed && !Supply(s))
  }

  predicate Hungry(s: Sys) {
    Caught(s) || ((s.snd.pc == WaitResume || s.snd.pc == ReadState || s.snd.pc == PausedCheck) && !Supply(s))
  }

  /**
   * The sender is caught in dequeue: it missed the notification of the pause, or it was resumed after its loop was
   * disabled, which notifies nobody, and others have taken everything.
   */
  predicate Starved(s: Sys) {
    match s.tx.pc
    case SleepCallback(_) => Caught(s)
    case WaitSleeping => Caught(s)
    case WaitLoopEnd => Hungry(s)
    case _ => false
  }

  lemma StarvedStays(s: Sys, e: Event)
    requires Inv(s) && Starved(s) && Enabled(s, e) && e != Traffic && e != Refile
    ensures Starved(Step(s, e))
  {
  }

  lemma {:induction false} StarvedNeverFinishes(s: Sys, events: seq<Event>)
    requires Inv(s) && Starved(s) && ValidRun(s, events) && Undisturbed(events)
    ensures Exec(s, events).tx.pc != End
    decreases |events|
  {
    if events != [] {
      assert events[0] != Traffic && events[0] != Refile;
      assert forall k :: 0 <= k < |events| - 1 ==> events[1..][k] == events[k + 1];
      StarvedStays(s, events[0]);
      StepKeepsInv(s, events[0]);
      StarvedNeverFinishes(Step(s, events[0]), events[1..]);
    }
  }

  /** From here the transaction can still succeed. */
  predicate CanSucceed(s: Sys) {
    match s.tx.pc
    case Start => (s.next == Disconnected || s.next == Active) && !Leaving(s.snd.pc)
    case ConnectCallback(ok) => ok && !Leaving(s.snd.pc)
    case SleepCallback(_) => !Leaving(s.snd.pc) && !Caught(s)
    case WaitSleeping => !Leaving(s.snd.pc) && !Caught(s)
    case DisconnectCheck => true
    case DisconnectRequest => true
    case DisconnectBegin => Supply(s)
    case DisableLoop => Supply(s)
    case ResumeLoop => Supply(s)
    case CloseDevices => !Hungry(s)
    case WaitLoopEnd => !Hungry(s)
    case DisconnectEnd(ok) => ok
    case End => s.tx.success
    case _ => !Leaving(s.snd.pc)
  }

  lemma NoSuccessStays(s: Sys, e: Event)
    requires Inv(s) && !CanSucceed(s) && Enabled(s, e) && e != Traffic && e != Refile
    ensures !CanSucceed(Step(s, e))
  {
    if e.TxEvent? { NoSuccessTx(s, e.ok); }
    else if e.SndEvent? { NoSuccessSnd(s, e.o); }
  }

  lemma NoSuccessTx(s: Sys, ok: bool)
    requires Inv(s) && !CanSucceed(s) && TxEnabled(s)
    ensures !CanSucceed(TxStep(s, ok))
  {
  }

  lemma NoSuccessSnd(s: Sys, o: Outcome)
    requires Inv(s) && !CanSucceed(s) && SndEnabled(s)
    ensures !CanSucceed(SndStep(s, o))
  {
  }

  lemma {:induction false} NoSuccessForever(s: Sys, events: seq<Event>)
    requires Inv(s) && !CanSucceed(s) && ValidRun(s, events) && Undisturbed(events)
    ensures Inv(Exec(s, events)) && !CanSucceed(Exec(s, events))
    decreases |events|
  {
    if events != [] {
      assert events[0] != Traffic && events[0] != Refile;
      assert forall k :: 0 <= k < |events| - 1 ==> events[1..][k] == events[k + 1];
      NoSuccessStays(s, events[0]);
      StepKeepsInv(s, events[0]);
      NoSuccessForever(Step(s, events[0]), events[1..]);
    }
  }

  /**
   * Lets the sender wait before it is notified, has a segment given back to a sender that would find nothing, and fails
   * to connect or to close rather than wait for a sender that does not come.
   */
  function FrugalEvent(s: Sys): Event {
    if s.tx.pc == SleepNotify && (s.snd.pc == PopFailed || s.snd.pc == Dequeue) then SndEvent(Retry)
    else if TxEnabled(s) then
      TxEvent((Connects(s.tx.pc) ==> !Leaving(s.snd.pc)) && (s.tx.pc == CloseDevices ==> !Hungry(s)))
    else if s.snd.pc == PopFailed && s.failed == 0 && s.queue == 0 then NextFails
    else SndEvent(Retry)
  }

  /** One step on the way of a run that is left to itself. */
  ghost predicate GetsOn(s: Sys, e: Event) {
    && Enabled(s, e) && e != Traffic && e != Refile
    && !Doomed(Step(s, e)) && !Starved(Step(s, e)) && (CanSucceed(s) ==> CanSucceed(Step(s, e)))
    && (Closer(s, Step(s, e)) || (Step(s, e).tx == s.tx && Step(s, e).snd == s.snd && Step(s, e).held < s.held))
  }

  lemma FrugalTx(s: Sys)
    requires Inv(s) && !Doomed(s) && !Starved(s) && TxEnabled(s)
    requires s.tx.pc == SleepNotify ==> s.snd.pc != PopFailed && s.snd.pc != Dequeue
    ensures GetsOn(s, FrugalEvent(s))
  {
    TxProgress(s, FrugalEvent(s).ok);
    FrugalTxKeeps(s, FrugalEvent(s).ok);
    hide TxStep, AtPoint, Doomed, Starved, CanSucceed;
  }

  lemma FrugalTxKeeps(s: Sys, ok: bool)
    requires Inv(s) && !Doomed(s) && !Starved(s) && TxEnabled(s)
    requires s.tx.pc == SleepNotify ==> s.snd.pc != PopFailed && s.snd.pc != Dequeue
    requires ok <==> (Connects(s.tx.pc) ==> !Leaving(s.snd.pc)) && (s.tx.pc == CloseDevices ==> !Hungry(s))
    ensures !Starved(TxStep(s, ok)) && (CanSucceed(s) ==> CanSucceed(TxStep(s, ok)))
  {
  }

  lemma FrugalSnd(s: Sys)
    requires Inv(s) && !Doomed(s) && !Starved(s) && s.tx.pc != End && !TxEnabled(s)
    requires !(s.snd.pc == PopFailed && s.failed == 0 && s.queue == 0)
    ensures GetsOn(s, SndEvent(Retry))
  {
    SndProgress(s);
    FrugalSndKeeps(s);
    hide SndStep, AtPoint, Doomed, Starved, CanSucceed;
  }

  lemma FrugalSndKeeps(s: Sys)
    requires Inv(s) && !Doomed(s) && !Starved(s) && s.tx.pc != End && !TxEnabled(s)
    requires !(s.snd.pc == PopFailed && s.failed == 0 && s.queue == 0)
    ensures s.snd.pc != Blocked && SndEnabled(s)
    ensures !Starved(SndStep(s, Retry)) && (CanSucceed(s) ==> CanSucceed(SndStep(s, Retry)))
  {
  }

  lemma FrugalGiveBack(s: Sys)
    requires Inv(s) && !Doomed(s) && !Starved(s) && s.tx.pc != End && !TxEnabled(s)
    requires s.snd.pc == PopFailed && s.failed == 0 && s.queue == 0
    ensures GetsOn(s, NextFails)
  {
  }

  lemma WaitsForNotice(s: Sys)
    requires Inv(s) && !Doomed(s) && s.tx.pc == SleepNotify && (s.snd.pc == PopFailed || s.snd.pc == Dequeue)
    ensures GetsOn(s, SndEvent(Retry))
  {
  }

  lemma FrugalProgress(s: Sys)
    requires Inv(s) && !Doomed(s) && !Starved(s) && s.tx.pc != End
    ensures GetsOn(s, FrugalEvent(s))
  {
    hide Inv, Doomed, Starved, GetsOn, TxEnabled;
    if s.tx.pc == SleepNotify && (s.snd.pc == PopFailed || s.snd.pc == Dequeue) {
      WaitsForNotice(s);
    } else if TxEnabled(s) {
      FrugalTx(s);
    } else if s.snd.pc == PopFailed && s.failed == 0 && s.queue == 0 {
      FrugalGiveBack(s);
    } else {
      FrugalSnd(s);
    }
  }

  /** A run that is left to itself and after which the transaction is over. */
  ghost predicate Finishes(s: Sys, events: seq<Event>) {
    ValidRun(s, events) && Undisturbed(events) && Exec(s, events).tx.pc == End
  }

  ghost predicate Succeeds(s: Sys, events: seq<Event>) {
    Finishes(s, events) && Exec(s, events).tx.success
  }

  lemma {:induction false} CanFinishAlone(s: Sys) returns (events: seq<Event>)
    requires Inv(s) && !Doomed(s) && !Starved(s)
    ensures Finishes(s, events) && (CanSucceed(s) ==> Succeeds(s, events))
    decreases TxRank(s.tx.pc), SndRank(Parking(s.tx.pc), s.snd.pc), s.held
  {
    if s.tx.pc == End { return []; }
    var e := FrugalEvent(s);
    FrugalProgress(s);
    StepKeepsInv(s, e);
    hide Inv, Doomed, Starved, CanSucceed, FrugalEvent, Enabled, Step;
    var rest := CanFinishAlone(Step(s, e));
    RunCons(s, e, rest);
    events := [e] + rest;
  }

  /**
   * Left to itself, the transaction can still end exactly if the sender is neither gone too early nor caught in
   * dequeue.
   */
  lemma FinishesUnlessStarved(start: Sys, events: seq<Event>)
    requires IsSwitch(start) && ValidRun(start, events)
    ensures var s := Exec(start, events);
      (exists more :: Finishes(s, more)) <==> !Doomed(s) && !Starved(s)
  {
    RunKeepsInv(start, events);
    var s := Exec(start, events);
    hide Inv, Exec, ValidRun, Doomed, Starved;
    if Doomed(s) {
      forall more | ValidRun(s, more) ensures !Finishes(s, more) { DoomedNeverFinishes(s, more); }
    } else if Starved(s) {
      forall more | ValidRun(s, more) && Undisturbed(more) ensures !Finishes(s, more) { StarvedNeverFinishes(s, more); }
    } else {
      var more := CanFinishAlone(s);
    }
  }

  lemma SuccessIsOpen(s: Sys)
    requires Inv(s) && CanSucceed(s)
    ensures !Doomed(s) && !Starved(s)
  {
  }

  /**
   * Left to itself, the transaction can still succeed exactly under this condition: before the Disconnect request the
   * sender has neither left its loop nor been caught in dequeue; behind it there is something left for it to fetch.
   */
  lemma SucceedsExactly(start: Sys, events: seq<Event>)
    requires IsSwitch(start) && ValidRun(start, events)
    ensures var s := Exec(start, events);
      (exists more :: Succeeds(s, more)) <==> CanSucceed(s)
  {
    RunKeepsInv(start, events);
    var s := Exec(start, events);
    if CanSucceed(s) {
      SuccessIsOpen(s);
      hide Inv, Exec, ValidRun, Doomed, Starved, CanSucceed;
      var more := CanFinishAlone(s);
    } else {
      forall more | ValidRun(s, more) && Undisturbed(more) ensures !Succeeds(s, more) { NoSuccessForever(s, more); }
    }
  }

  /**
   * A switch that is left to itself can succeed exactly if the previous sender is in its loop and the next adapter is
   * disconnected or active.
   */
  lemma IdleSwitchSucceeds(start: Sys)
    requires IsSwitch(start)
    ensures (exists events :: Succeeds(start, events))
       <==> InLoop(start.snd.pc) && (start.next == Disconnected || start.next == Active)
  {
    assert ValidRun(start, []) && Exec(start, []) == start;
    SucceedsExactly(start, []);
  }

  // --- Runs that get there ---

  function ToSend(pc: Snd): nat {
    match pc
    case Woken => 7 case LoopTop => 6 case PausedCheck => 5 case PopFailed => 4 case Dequeue => 3
    case Recheck => 2 case Send => 1 case _ => 0
  }

  /** Up to the mark the sender stands still; then it takes the Connect request and is about to send it. */
  ghost predicate BeforeDoom(s: Sys) {
    && Inv(s) && InLoop(s.snd.pc) && TxRank(s.tx.pc) >= TxRank(SleepPause)
    && (s.tx.pc == Start ==> s.next == Disconnected)
    && (s.tx.pc.ConnectCallback? ==> s.tx.pc.ok) && (s.tx.pc == SleepPause ==> s.snd.pc == Send)
    && (TxRank(s.tx.pc) <= TxRank(ConnectEnd) ==>
          s.snd.pc == Recheck || s.snd.pc == Send || (s.queue > 0 && s.snd.pc != Blocked))
  }

  function DoomingEvent(s: Sys): Event {
    if s.tx.pc == SleepPause then SndEvent(Broken)
    else if s.tx.pc == SleepMark && s.snd.pc != Send then SndEvent(Good)
    else TxEvent(true)
  }

  lemma DoomingStep(s: Sys)
    requires BeforeDoom(s)
    ensures var e := DoomingEvent(s);
      && Enabled(s, e) && e != Traffic && e != Refile
      && (Doomed(Step(s, e))
          || (BeforeDoom(Step(s, e))
              && (TxRank(Step(s, e).tx.pc) < TxRank(s.tx.pc)
                  || (Step(s, e).tx == s.tx && ToSend(Step(s, e).snd.pc) < ToSend(s.snd.pc)))))
  {
    var e := DoomingEvent(s);
    if e.TxEvent? { DoomingTx(s); } else { DoomingSnd(s); }
  }

  lemma DoomingTx(s: Sys)
    requires BeforeDoom(s) && s.tx.pc != SleepPause && (s.tx.pc == SleepMark ==> s.snd.pc == Send)
    ensures TxEnabled(s) && TxRank(TxStep(s, true).tx.pc) < TxRank(s.tx.pc)
    ensures Doomed(TxStep(s, true)) || BeforeDoom(TxStep(s, true))
  {
    StepKeepsInv(s, TxEvent(true));
  }

  lemma DoomingSnd(s: Sys)
    requires BeforeDoom(s) && (s.tx.pc == SleepPause || (s.tx.pc == SleepMark && s.snd.pc != Send))
    ensures var o := if s.tx.pc == SleepPause then Broken else Good;
      && SndEnabled(s) && SndStep(s, o).tx == s.tx
      && (Doomed(SndStep(s, o)) || (BeforeDoom(SndStep(s, o)) && ToSend(SndStep(s, o).snd.pc) < ToSend(s.snd.pc)))
  {
    var o := if s.tx.pc == SleepPause then Broken else Good;
    StepKeepsInv(s, SndEvent(o));
  }

  ghost predicate LeadsToDoom(s: Sys, events: seq<Event>) {
    ValidRun(s, events) && Undisturbed(events) && Doomed(Exec(s, events))
  }

  lemma {:induction false} DoomAhead(s: Sys)
    requires BeforeDoom(s)
    ensures exists events :: LeadsToDoom(s, events)
    decreases TxRank(s.tx.pc), ToSend(s.snd.pc)
  {
    var e := DoomingEvent(s);
    DoomingStep(s);
    hide BeforeDoom, Doomed, Enabled, Step, DoomingEvent;
    if Doomed(Step(s, e)) {
      RunCons(s, e, []);
      assert LeadsToDoom(s, [e] + []);
    } else {
      DoomAhead(Step(s, e));
      var rest :| LeadsToDoom(Step(s, e), rest);
      RunCons(s, e, rest);
      assert LeadsToDoom(s, [e] + rest);
    }
  }

  /** Whatever its sender does at the start: a send that fails after the adapter was marked dooms the transaction. */
  lemma DoomHappens(start: Sys)
    requires IsStart(start) && InLoop(start.snd.pc)
    ensures exists events :: LeadsToDoom(start, events)
  {
    DoomAhead(start);
  }

  /** A run that is left to itself and leads to a starved sender at the given point. */
  ghost predicate Starves(s: Sys, events: seq<Event>, at: Tx) {
    ValidRun(s, events) && Undisturbed(events) && Starved(Exec(s, events)) && Exec(s, events).tx.pc == at
  }

  lemma StarvesCons(s: Sys, e: Event, rest: seq<Event>, at: Tx)
    requires Enabled(s, e) && e != Traffic && e != Refile && Starves(Step(s, e), rest, at)
    ensures Starves(s, [e] + rest, at)
  {
    hide Starved, Step, Enabled;
    RunCons(s, e, rest);
  }

  /** The next adapter's sender takes and sends what there is. */
  function DrainEvent(s: Sys): Event {
    if s.failed > 0 then NextTakesFailed else if s.queue > 0 then NextTakesQueued else NextSends
  }

  function Load(s: Sys): nat {
    2 * (s.failed + s.queue) + s.held
  }

  /** The sender is about to look for a segment, or comes back to that. */
  function ToFetch(pc: Snd): nat {
    match pc
    case Recheck => 5 case Send => 4 case Woken => 3 case LoopTop => 2 case PausedCheck => 1 case _ => 0
  }

  /** Up to the mark the sender stands still; then the next sender takes everything, and it finds nothing. */
  ghost predicate BeforeNotice(s: Sys) {
    && Inv(s) && InLoop(s.snd.pc) && TxRank(s.tx.pc) >= TxRank(SleepCallback(true))
    && (s.tx.pc == Start ==> s.next == Disconnected)
    && (s.tx.pc.ConnectCallback? ==> s.tx.pc.ok)
    && (TxRank(s.tx.pc) <= TxRank(ConnectEnd) ==> s.snd.pc != Blocked)
    && (TxRank(s.tx.pc) < TxRank(SleepMark) ==> !Supply(s) && (s.snd.pc == PopFailed || s.snd.pc == Dequeue))
  }

  function MissingEvent(s: Sys): Event {
    if s.tx.pc != SleepMark then TxEvent(true)
    else if Supply(s) then DrainEvent(s)
    else if s.snd.pc != PopFailed && s.snd.pc != Dequeue then SndEvent(Good)
    else TxEvent(true)
  }

  lemma MissingTx(s: Sys)
    requires BeforeNotice(s) && s.tx.pc != SleepCallback(true) && MissingEvent(s).TxEvent?
    ensures TxEnabled(s) && BeforeNotice(TxStep(s, true)) && TxRank(TxStep(s, true).tx.pc) < TxRank(s.tx.pc)
  {
    StepKeepsInv(s, TxEvent(true));
  }

  lemma MissingDrain(s: Sys)
    requires BeforeNotice(s) && s.tx.pc == SleepMark && Supply(s)
    ensures var e := DrainEvent(s);
      Enabled(s, e) && BeforeNotice(Step(s, e)) && Step(s, e).tx == s.tx && Load(Step(s, e)) < Load(s)
  {
    StepKeepsInv(s, DrainEvent(s));
  }

  lemma MissingSnd(s: Sys)
    requires BeforeNotice(s) && s.tx.pc == SleepMark && !Supply(s) && s.snd.pc != PopFailed && s.snd.pc != Dequeue
    ensures SndEnabled(s) && BeforeNotice(SndStep(s, Good)) && SndStep(s, Good).tx == s.tx
    ensures !Supply(SndStep(s, Good)) && ToFetch(SndStep(s, Good).snd.pc) < ToFetch(s.snd.pc)
  {
    StepKeepsInv(s, SndEvent(Good));
  }

  lemma {:induction false} MissedAhead(s: Sys)
    requires BeforeNotice(s)
    ensures exists events :: Starves(s, events, SleepCallback(true))
    decreases TxRank(s.tx.pc), Load(s), ToFetch(s.snd.pc)
  {
    if s.tx.pc == SleepCallback(true) {
      assert Starves(s, [], SleepCallback(true));
    } else {
      var e := MissingEvent(s);
      if e.TxEvent? { MissingTx(s); }
      else if Supply(s) { MissingDrain(s); }
      else { MissingSnd(s); }
      hide BeforeNotice, Starves, TxStep, SndStep;
      MissedAhead(Step(s, e));
      var rest :| Starves(Step(s, e), rest, SleepCallback(true));
      StarvesCons(s, e, rest, SleepCallback(true));
    }
  }

  /** A pause just before the sender calls dequeue goes unnoticed: the sender waits, and nobody else notifies it. */
  lemma NotificationIsMissed(start: Sys)
    requires IsStart(start) && InLoop(start.snd.pc)
    ensures exists events :: Starves(start, events, SleepCallback(true))
  {
    MissedAhead(start);
  }

  /** Until the Disconnect request all goes well; then the next sender takes everything before the sender is resumed. */
  ghost predicate BeforeHunger(s: Sys) {
    && Inv(s) && TxRank(s.tx.pc) >= TxRank(WaitLoopEnd)
    && (TxRank(s.tx.pc) > TxRank(DisconnectBegin) ==> CanSucceed(s))
    && (TxRank(s.tx.pc) < TxRank(DisconnectBegin) ==> !Supply(s) && s.snd.pc == WaitResume)
  }

  function HungerEvent(s: Sys): Event {
    if TxRank(s.tx.pc) > TxRank(DisconnectBegin) then FrugalEvent(s)
    else if s.tx.pc == DisconnectBegin && Supply(s) then DrainEvent(s)
    else TxEvent(true)
  }

  function Rest(s: Sys): nat {
    if s.tx.pc == DisconnectBegin then Load(s) else s.held
  }

  /** The step leads on, in the order of the transaction, of the sender, and of what is left to take. */
  ghost predicate LeadsOn(s: Sys, e: Event) {
    && Enabled(s, e) && e != Traffic && e != Refile && BeforeHunger(Step(s, e))
    && (Closer(s, Step(s, e)) || (Step(s, e).tx == s.tx && Step(s, e).snd == s.snd && Rest(Step(s, e)) < Rest(s)))
  }

  lemma HungerEarly(s: Sys)
    requires BeforeHunger(s) && TxRank(s.tx.pc) > TxRank(DisconnectBegin)
    ensures LeadsOn(s, FrugalEvent(s))
  {
    hide Inv, Doomed, Starved, CanSucceed, FrugalEvent, Step, Enabled;
    SuccessIsOpen(s);
    FrugalProgress(s);
    StepKeepsInv(s, FrugalEvent(s));
    OneAtATime(s, FrugalEvent(s));
  }

  lemma OneAtATime(s: Sys, e: Event)
    requires Inv(s) && Enabled(s, e) && TxRank(s.tx.pc) > TxRank(DisconnectBegin) && CanSucceed(Step(s, e))
    ensures TxRank(Step(s, e).tx.pc) >= TxRank(DisconnectBegin)
  {
  }

  lemma HungerLate(s: Sys)
    requires BeforeHunger(s) && TxRank(WaitLoopEnd) < TxRank(s.tx.pc) <= TxRank(DisconnectBegin)
    ensures LeadsOn(s, HungerEvent(s))
  {
    StepKeepsInv(s, HungerEvent(s));
  }

  lemma {:induction false} HungerAhead(s: Sys)
    requires BeforeHunger(s)
    ensures exists events :: Starves(s, events, WaitLoopEnd)
    decreases TxRank(s.tx.pc), SndRank(Parking(s.tx.pc), s.snd.pc), Rest(s)
  {
    if s.tx.pc == WaitLoopEnd {
      assert Starves(s, [], WaitLoopEnd);
    } else {
      var e := HungerEvent(s);
      if TxRank(s.tx.pc) > TxRank(DisconnectBegin) { HungerEarly(s); } else { HungerLate(s); }
      hide BeforeHunger, Starves, Step, Enabled, HungerEvent;
      HungerAhead(Step(s, e));
      var rest :| Starves(Step(s, e), rest, WaitLoopEnd);
      StarvesCons(s, e, rest, WaitLoopEnd);
    }
  }

  /** Whatever its sender does at the start: the next sender may take the Disconnect request and all else before it. */
  lemma HungerHappens(start: Sys)
    requires IsStart(start) && InLoop(start.snd.pc)
    ensures exists events :: Starves(start, events, WaitLoopEnd)
  {
    HungerAhead(start);
  }
}
