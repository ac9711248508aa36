/** The switch filter of the history-based policy: serial counters and the cool-down after a switch. */
module Hysteresis {

  datatype Behavior = NoBehavior | IncreaseAdapter | DecreaseAdapter

  /** struct timeval. */
  datatype TimeVal = TimeVal(sec: int, usec: int) {
    function Us(): int {
      sec * 1000000 + usec
    }
  }

  const SERIAL_COUNT_THRESHOLD: nat := 3

  /** Half the prediction window of 30 s. */
  const COOL_DOWN_US: int := 15000000

  datatype Policy = Policy(serialInc: nat, serialDec: nat, recentWfdOn: bool, recentSwitchTs: TimeVal)

  const INITIAL: Policy := Policy(0, 0, false, TimeVal(0, 0))

  /**
   * One call of decide(): what decide_internal says if asked, the time at entry, and the time recorded
   * if a switch is emitted. A custom event resets the recorded time.
   */
  datatype Event = Decide(wish: Behavior, present: TimeVal, stamp: TimeVal) | CustomEvent

  /** The guard as written: both parts of the recorded time have to be non-zero. */
  predicate CoolingDown(p: Policy, present: TimeVal) {
    p.recentSwitchTs.sec != 0 && p.recentSwitchTs.usec != 0 && present.Us() - p.recentSwitchTs.Us() < COOL_DOWN_US
  }

  function Decided(p: Policy, wish: Behavior, present: TimeVal, stamp: TimeVal): (Policy, Behavior) {
    if CoolingDown(p, present) then (p, NoBehavior)
    else
      match wish
      case IncreaseAdapter =>
        if p.serialInc < SERIAL_COUNT_THRESHOLD then (p.(serialInc := p.serialInc + 1, serialDec := 0), NoBehavior)
        else (Policy(p.serialInc + 1, 0, true, stamp), IncreaseAdapter)
      case DecreaseAdapter =>
        if p.serialDec < SERIAL_COUNT_THRESHOLD then (p.(serialInc := 0, serialDec := p.serialDec + 1), NoBehavior)
        else (Policy(0, p.serialDec + 1, false, stamp), DecreaseAdapter)
      case NoBehavior => (p.(serialInc := 0, serialDec := 0), NoBehavior)
  }

  class HistoryPolicy {
    var mSerialIncCount: nat
    var mSerialDecCount: nat
    var mIsRecentWfdOn: bool
    var mRecentSwitchTS: TimeVal

    ghost function Contents(): Policy
      reads this
    {
      Policy(mSerialIncCount, mSerialDecCount, mIsRecentWfdOn, mRecentSwitchTS)
    }

    constructor ()
      ensures Contents() == INITIAL
    {
      mSerialIncCount, mSerialDecCount, mIsRecentWfdOn, mRecentSwitchTS := 0, 0, false, TimeVal(0, 0);
    }

    method OnCustomEvent()
      modifies this
      ensures Contents() == old(Contents()).(recentSwitchTs := TimeVal(0, 0))
    {
      mRecentSwitchTS := TimeVal(0, 0);
    }

    method Decide(wish: Behavior, present: TimeVal, stamp: TimeVal) returns (behavior: Behavior)
      modifies this
      ensures (Contents(), behavior) == Decided(old(Contents()), wish, present, stamp)
    {
      if mRecentSwitchTS.sec != 0 && mRecentSwitchTS.usec != 0 {
        var elapsed := present.Us() - mRecentSwitchTS.Us();
        if elapsed < COOL_DOWN_US { return NoBehavior; }
      }
      behavior := wish;
      if behavior == IncreaseAdapter {
        if mSerialIncCount < SERIAL_COUNT_THRESHOLD { behavior := NoBehavior; } else { mIsRecentWfdOn := true; }
        mSerialIncCount := mSerialIncCount + 1;
        mSerialDecCount := 0;
      } else if behavior == DecreaseAdapter {
        if mSerialDecCount < SERIAL_COUNT_THRESHOLD { behavior := NoBehavior; } else { mIsRecentWfdOn := false; }
        mSerialDecCount := mSerialDecCount + 1;
        mSerialIncCount := 0;
      } else {
        mSerialIncCount := 0;
        mSerialDecCount := 0;
      }
      if behavior == IncreaseAdapter || behavior == DecreaseAdapter {
        mRecentSwitchTS := stamp;
      }
    }
  }

  // --- Runs ---

  function Step(p: Policy, e: Event): Policy {
    match e
    case Decide(wish, present, stamp) => Decided(p, wish, present, stamp).0
    case CustomEvent => p.(recentSwitchTs := TimeVal(0, 0))
  }

  function After(events: seq<Event>): Policy {
    if events == [] then INITIAL else Step(After(events[..|events| - 1]), events[|events| - 1])
  }

  /** What the call at position `k` of a run returns. */
  function Emitted(events: seq<Event>, k: nat): Behavior
    requires k < |events|
  {
    match events[k]
    case Decide(wish, present, stamp) => Decided(After(events[..k]), wish, present, stamp).1
    case CustomEvent => NoBehavior
  }

  /** The call at position `k` reached decide_internal. */
  predicate Evaluated(events: seq<Event>, k: nat)
    requires k < |events|
  {
    events[k].Decide? && !CoolingDown(After(events[..k]), events[k].present)
  }

  /** The evaluated wishes of a run, oldest first. */
  function Wishes(events: seq<Event>): seq<Behavior> {
    if events == [] then []
    else
      var k := |events| - 1;
      Wishes(events[..k]) + if Evaluated(events, k) then [events[k].wish] else []
  }

  /** How many of the latest entries are `b`. */
  function Trailing(h: seq<Behavior>, b: Behavior): nat {
    if h == [] || h[|h| - 1] != b then 0 else 1 + Trailing(h[..|h| - 1], b)
  }

  lemma TrailingSnoc(h: seq<Behavior>, w: Behavior, b: Behavior)
    ensures Trailing(h + [w], b) == if w == b then 1 + Trailing(h, b) else 0
  {
    assert (h + [w])[..|h|] == h;
  }

  /** The counters hold the trailing agreement of the wishes `h`. */
  ghost predicate Counts(p: Policy, h: seq<Behavior>) {
    p.serialInc == Trailing(h, IncreaseAdapter) && p.serialDec == Trailing(h, DecreaseAdapter)
  }

  lemma StepCounts(p: Policy, e: Event, h: seq<Behavior>)
    requires Counts(p, h)
    ensures Counts(Step(p, e), if e.Decide? && !CoolingDown(p, e.present) then h + [e.wish] else h)
  {
    if e.Decide? {
      TrailingSnoc(h, e.wish, IncreaseAdapter);
      TrailingSnoc(h, e.wish, DecreaseAdapter);
    }
    hide Trailing;
  }

  lemma WishesSnoc(events: seq<Event>)
    requires events != []
    ensures var k := |events| - 1;
      var p, e := After(events[..k]), events[k];
      && After(events) == Step(p, e)
      && Wishes(events) == if e.Decide? && !CoolingDown(p, e.present) then Wishes(events[..k]) + [e.wish]
                           else Wishes(events[..k])
  {
    var k := |events| - 1;
    assert Wishes(events[..k]) + [] == Wishes(events[..k]);
  }

  lemma {:induction false} CountersAreTrailing(events: seq<Event>)
    ensures After(events).serialInc == Trailing(Wishes(events), IncreaseAdapter)
    ensures After(events).serialDec == Trailing(Wishes(events), DecreaseAdapter)
  {
    if events != [] {
      var k := |events| - 1;
      hide After, Wishes, Trailing, Step, CoolingDown;
      CountersAreTrailing(events[..k]);
      WishesSnoc(events);
      StepCounts(After(events[..k]), events[k], Wishes(events[..k]));
    }
  }

  lemma {:induction false} TrailingAtLeast(h: seq<Behavior>, b: Behavior, n: nat)
    ensures Trailing(h, b) >= n <==> n <= |h| && forall i :: |h| - n <= i < |h| ==> h[i] == b
  {
    if n > 0 && h != [] {
      var front := h[..|h| - 1];
      TrailingAtLeast(front, b, n - 1);
      if h[|h| - 1] == b && n <= |h| {
        assert forall i :: |front| - (n - 1) <= i < |front| ==> front[i] == h[i];
      }
    }
  }

  /**
   * In every run a call emits a switch exactly if it is evaluated, wishes that switch, and the three
   * evaluated wishes before it were the same.
   */
  lemma EmitsOnFourthAgreement(events: seq<Event>, k: nat, b: Behavior)
    requires k < |events| && b != NoBehavior
    ensures var h := Wishes(events[..k]);
      Emitted(events, k) == b
      <==> Evaluated(events, k) && events[k].wish == b
           && |h| >= 3 && h[|h| - 1] == b && h[|h| - 2] == b && h[|h| - 3] == b
  {
    CountersAreTrailing(events[..k]);
    TrailingAtLeast(Wishes(events[..k]), b, 3);
  }

  /** Nothing between the two positions touches the recorded time. */
  ghost predicate Quiet(events: seq<Event>, i: nat, j: nat)
    requires i <= j <= |events|
  {
    forall k :: i < k < j ==> events[k].Decide? && Emitted(events, k) == NoBehavior
  }

  lemma AfterOneMore(events: seq<Event>, j: nat)
    requires 0 < j <= |events|
    ensures After(events[..j]) == Step(After(events[..j - 1]), events[j - 1])
  {
    assert events[..j][..j - 1] == events[..j - 1];
  }

  lemma StepRecords(p: Policy, e: Event)
    requires e.Decide?
    ensures Step(p, e).recentSwitchTs
         == if Decided(p, e.wish, e.present, e.stamp).1 == NoBehavior then p.recentSwitchTs else e.stamp
  {
  }

  lemma {:induction false} RecordedSince(events: seq<Event>, i: nat, j: nat)
    requires i < j <= |events| && Emitted(events, i) != NoBehavior && Quiet(events, i, j)
    ensures After(events[..j]).recentSwitchTs == events[i].stamp
    decreases j
  {
    AfterOneMore(events, j);
    assert events[j - 1].Decide? by { assert Emitted(events, i) != NoBehavior; }
    StepRecords(After(events[..j - 1]), events[j - 1]);
    hide After, Decided, Step;
    if j - 1 > i { RecordedSince(events, i, j - 1); }
  }

  /**
   * The next call after a switch is evaluated exactly if 15 s have passed, or a part of the recorded
   * time happens to be zero.
   */
  lemma CoolDownExactly(events: seq<Event>, i: nat, j: nat)
    requires i < j < |events| && Emitted(events, i) != NoBehavior && Quiet(events, i, j) && events[j].Decide?
    ensures Evaluated(events, j)
       <==> events[i].stamp.sec == 0 || events[i].stamp.usec == 0
            || 1000000 * (events[j].present.sec - events[i].stamp.sec) + events[j].present.usec - events[i].stamp.usec
               >= 15000000
  {
    RecordedSince(events, i, j);
  }

  lemma {:induction false} NothingRecorded(events: seq<Event>, i: nat, j: nat)
    requires i <= j <= |events| && (i == 0 || events[i - 1] == CustomEvent)
    requires forall k :: i <= k < j ==> Emitted(events, k) == NoBehavior
    ensures After(events[..j]).recentSwitchTs == TimeVal(0, 0)
    decreases j
  {
    if j == 0 {
      assert events[..0] == [];
    } else {
      AfterOneMore(events, j);
      if j > i {
        NothingRecorded(events, i, j - 1);
        assert Emitted(events, j - 1) == NoBehavior;
        if events[j - 1].Decide? { StepRecords(After(events[..j - 1]), events[j - 1]); }
      }
    }
  }

  /** Before the first switch, and from a custom event to the next switch, every call is evaluated. */
  lemma NoCoolDownBeforeSwitch(events: seq<Event>, i: nat, j: nat)
    requires i <= j < |events| && (i == 0 || events[i - 1] == CustomEvent) && events[j].Decide?
    requires forall k :: i <= k < j ==> Emitted(events, k) == NoBehavior
    ensures Evaluated(events, j)
  {
    NothingRecorded(events, i, j);
  }

  /** The latest switch of a run. */
  function LatestSwitch(events: seq<Event>, n: nat): Behavior
    requires n <= |events|
  {
    if n == 0 then NoBehavior
    else if Emitted(events, n - 1) != NoBehavior then Emitted(events, n - 1)
    else LatestSwitch(events, n - 1)
  }

  /** The policy takes WFD to be on exactly if the latest switch was the one to it. */
  lemma {:induction false} WfdIsOnExactly(events: seq<Event>, n: nat)
    requires n <= |events|
    ensures After(events[..n]).recentWfdOn <==> LatestSwitch(events, n) == IncreaseAdapter
  {
    if n == 0 {
      assert events[..0] == [];
    } else {
      AfterOneMore(events, n);
      WfdIsOnExactly(events, n - 1);
    }
  }

  /** Each switch in the stretch recorded a time with two non-zero parts, not before its entry time. */
  ghost predicate WellStamped(events: seq<Event>, i: nat, j: nat)
    requires i <= j <= |events|
  {
    forall k :: i <= k < j && Emitted(events, k) != NoBehavior ==>
      events[k].stamp.sec != 0 && events[k].stamp.usec != 0 && events[k].stamp.Us() >= events[k].present.Us()
  }

  /** Any two switches without a custom event between them are at least 15 s apart. */
  lemma {:induction false} SwitchesApart(events: seq<Event>, i: nat, j: nat)
    requires i < j < |events| && Emitted(events, i) != NoBehavior && Emitted(events, j) != NoBehavior
    requires forall k :: i < k < j ==> events[k].Decide?
    requires WellStamped(events, i, j)
    ensures 1000000 * (events[j].present.sec - events[i].stamp.sec) + events[j].present.usec - events[i].stamp.usec
         >= 15000000
    decreases j
  {
    if Quiet(events, i, j) {
      CoolDownExactly(events, i, j);
    } else {
      var m :| i < m < j && Emitted(events, m) != NoBehavior && Quiet(events, m, j) by { LastEmission(events, i, j); }
      CoolDownExactly(events, m, j);
      SwitchesApart(events, i, m);
    }
  }

  lemma {:induction false} LastEmission(events: seq<Event>, i: nat, j: nat)
    requires i < j <= |events| && !Quiet(events, i, j) && forall k :: i < k < j ==> events[k].Decide?
    ensures exists m :: i < m < j && Emitted(events, m) != NoBehavior && Quiet(events, m, j)
    decreases j - i
  {
    if Quiet(events, i + 1, j) {
      assert Emitted(events, i + 1) != NoBehavior;
    } else {
      LastEmission(events, i + 1, j);
    }
  }

  /** With zero microseconds on record the window is not kept: two switches at the same instant. */
  lemma WindowIsLost()
    ensures var e := Decide(IncreaseAdapter, TimeVal(100, 0), TimeVal(100, 0));
      var events := [e, e, e, e, e];
      Emitted(events, 3) == IncreaseAdapter && Emitted(events, 4) == IncreaseAdapter
  {
    var e := Decide(IncreaseAdapter, TimeVal(100, 0), TimeVal(100, 0));
    var events := [e, e, e, e, e];
    assert After(events[..0]) == INITIAL;
    assert events[..1][..0] == events[..0] && After(events[..1]) == Policy(1, 0, false, TimeVal(0, 0));
    assert events[..2][..1] == events[..1] && After(events[..2]) == Policy(2, 0, false, TimeVal(0, 0));
    assert events[..3][..2] == events[..2] && After(events[..3]) == Policy(3, 0, false, TimeVal(0, 0));
    assert events[..4][..3] == events[..3] && After(events[..4]) == Policy(4, 0, true, TimeVal(100, 0));
  }
}
