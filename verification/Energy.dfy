/** The energy predictor: a bandwidth simulation and an energy simulation of the same switch timeline. */
module Energy {

  const BT := 1
  const WFD := 2
  const BT_TO_WFD := 3
  const WFD_TO_BT := 4

  const PREDICTION_WINDOW_SEC: nat := 30
  const LATENCY_BT_TO_WFD := 5.4015
  const LATENCY_WFD_TO_BT := 6.8679

  /** numeric_limits<float>::max(). */
  const MAX_FLOAT := 340282346638528859811704183484516925440.0

  predicate ValidScenario(s: int) {
    1 <= s <= 4
  }

  // --- Tables ---

  function GetMaxBW(adapter: int): nat
    requires ValidScenario(adapter)
  {
    if adapter == BT || adapter == BT_TO_WFD then 75000 else 3500000
  }

  function GetPower(bandwidth: nat, adapter: int): real
    requires ValidScenario(adapter)
  {
    var x := bandwidth as real / 1000.0;
    if adapter == BT then 20.56 + 1.756 * x - 0.001641 * x * x
    else if adapter == WFD then 143.8 + 0.1964 * x - 0.000006769 * x * x
    else if adapter == BT_TO_WFD then 217.7 + 4.433 * x - 0.02262 * x * x
    else 203.3 + 0.1869 * x - 0.00001695 * x * x
  }

  function GetSwitchLatency(s: int): real {
    if s == BT_TO_WFD then LATENCY_BT_TO_WFD else if s == WFD_TO_BT then LATENCY_WFD_TO_BT else -1.0
  }

  function GetSwitchBackLatency(s: int): real {
    if s == BT_TO_WFD then LATENCY_WFD_TO_BT else -1.0
  }

  // --- The two timelines, slot by slot ---

  /** The adapter that serves traffic slot `i` in the bandwidth simulation. */
  function BwAdapter(s: int, i: nat): int {
    if s == BT_TO_WFD && i >= 6 then WFD
    else if s == WFD_TO_BT && i >= 6 then BT
    else s
  }

  /** The adapter left behind by `n` traffic slots, which serves the extra slots. */
  function TailAdapter(s: int, n: nat): int {
    if n == 0 then s else BwAdapter(s, n - 1)
  }

  /** The adapter whose power is charged for slot `i` of `n` in the energy simulation. */
  function EnergyAdapter(s: int, n: nat, i: nat): int {
    if s == WFD_TO_BT then (if i < 7 then WFD_TO_BT else BT)
    else if s == BT_TO_WFD then
      var back := if n <= 7 then 1 else n - 6;
      if n >= 12 then (if i < 6 then BT_TO_WFD else if i < back then WFD else WFD_TO_BT)
      else if i < back then BT_TO_WFD else if i < 6 then WFD_TO_BT else BT
    else s
  }

  // --- Bandwidth simulation ---

  function Min(a: nat, b: nat): nat {
    if a < b then a else b
  }

  function Sum(l: seq<nat>): nat {
    if l == [] then 0 else l[0] + Sum(l[1..])
  }

  /** Extra slots until nothing is left. */
  function Drained(rem: nat, cap: nat): seq<nat>
    requires cap > 0
  {
    if rem == 0 then [] else [Min(rem, cap)] + Drained(rem - Min(rem, cap), cap)
  }

  /** The slots from slot `i` on, with `rem` queued before it. */
  function Slots(s: int, rem: nat, traffic: seq<nat>, i: nat): seq<nat>
    requires ValidScenario(s)
    decreases |traffic|
  {
    if traffic == [] then Drained(rem, GetMaxBW(TailAdapter(s, i)))
    else
      var prepared := rem + traffic[0];
      var b := Min(prepared, GetMaxBW(BwAdapter(s, i)));
      [b] + Slots(s, prepared - b, traffic[1..], i + 1)
  }

  /** All of `rem`, full slots but the last, and ceil(rem / cap) of them. */
  lemma {:induction false} DrainedFacts(rem: nat, cap: nat)
    requires cap > 0
    ensures var d := Drained(rem, cap);
      && Sum(d) == rem
      && rem <= |d| * cap && (rem > 0 ==> (|d| - 1) * cap < rem)
      && (forall k :: 0 <= k < |d| ==> 0 < d[k] <= cap)
      && (forall k :: 0 <= k < |d| - 1 ==> d[k] == cap)
  {
    var d := Drained(rem, cap);
    if rem > cap {
      DrainedFacts(rem - cap, cap);
      var n := |Drained(rem - cap, cap)|;
      assert d == [cap] + Drained(rem - cap, cap);
      assert (n + 1) * cap == n * cap + cap;
      assert n * cap == (n - 1) * cap + cap;
    } else if rem > 0 {
      assert d == [rem] + Drained(0, cap);
      assert |d| == 1;
    }
  }

  /** The cap that holds in slot `k` of a run with `n` traffic slots. */
  function CapAt(s: int, n: nat, k: nat): nat
    requires ValidScenario(s)
  {
    GetMaxBW(if k < n then BwAdapter(s, k) else TailAdapter(s, n))
  }

  lemma FirstSlot(s: int, rem: nat, traffic: seq<nat>, i: nat)
    requires ValidScenario(s) && traffic != []
    ensures var b := Min(rem + traffic[0], GetMaxBW(BwAdapter(s, i)));
      var bw, rest := Slots(s, rem, traffic, i), Slots(s, rem + traffic[0] - b, traffic[1..], i + 1);
      && bw == [b] + rest && Sum(bw) == b + Sum(rest) && Sum(traffic) == traffic[0] + Sum(traffic[1..])
      && b <= rem + traffic[0] && b <= CapAt(s, i + |traffic|, i)
  {
  }

  lemma TailFacts(s: int, rem: nat, i: nat)
    requires ValidScenario(s)
    ensures var bw := Slots(s, rem, [], i);
      Sum(bw) == rem && forall k :: 0 <= k < |bw| ==> bw[k] <= CapAt(s, i, i + k)
  {
    DrainedFacts(rem, GetMaxBW(TailAdapter(s, i)));
    hide Sum, Drained, GetMaxBW;
  }

  /** Nothing is lost or invented, every slot is within its cap, and the tail is as short as possible. */
  lemma {:induction false} SlotsFacts(s: int, rem: nat, traffic: seq<nat>, i: nat)
    requires ValidScenario(s)
    ensures var bw := Slots(s, rem, traffic, i);
      && |bw| >= |traffic|
      && Sum(bw) == rem + Sum(traffic)
      && (forall k :: 0 <= k < |bw| ==> bw[k] <= CapAt(s, i + |traffic|, i + k))
    decreases |traffic|
  {
    assert Sum([]) == 0;
    hide Slots, Sum, CapAt, GetMaxBW, BwAdapter, Min;
    if traffic == [] {
      TailFacts(s, rem, i);
    } else {
      FirstSlot(s, rem, traffic, i);
      var b := Min(rem + traffic[0], GetMaxBW(BwAdapter(s, i)));
      SlotsFacts(s, rem + traffic[0] - b, traffic[1..], i + 1);
      var bw, rest := Slots(s, rem, traffic, i), Slots(s, rem + traffic[0] - b, traffic[1..], i + 1);
      forall k | 0 <= k < |bw| ensures bw[k] <= CapAt(s, i + |traffic|, i + k) {
        if k > 0 {
          assert bw[k] == rest[k - 1] && i + 1 + |traffic[1..]| == i + |traffic| && i + 1 + (k - 1) == i + k;
        }
      }
    }
  }

  /** What is queued after the first `k` slots. */
  function Backlog(rem: nat, traffic: seq<nat>, bw: seq<nat>, k: nat): int {
    rem + Sum(traffic[..Min(k, |traffic|)]) - Sum(bw[..Min(k, |bw|)])
  }

  lemma BacklogStep(rem: nat, traffic: seq<nat>, bw: seq<nat>, k: nat)
    requires traffic != [] && bw != [] && rem + traffic[0] >= bw[0] && k > 0
    ensures Backlog(rem, traffic, bw, k) == Backlog(rem + traffic[0] - bw[0], traffic[1..], bw[1..], k - 1)
  {
    var m, n := Min(k, |traffic|), Min(k, |bw|);
    assert traffic[..m][1..] == traffic[1..][..m - 1];
    assert bw[..n][1..] == bw[1..][..n - 1];
  }

  /** Greedy: each slot serves all it can, and a slot below its cap leaves nothing queued. */
  lemma {:induction false} SlotsGreedy(s: int, rem: nat, traffic: seq<nat>, i: nat, k: nat)
    requires ValidScenario(s) && k < |Slots(s, rem, traffic, i)|
    ensures GreedyAt(rem, traffic, Slots(s, rem, traffic, i), CapAt(s, i + |traffic|, i + k), k)
    decreases |traffic|
  {
    var bw := Slots(s, rem, traffic, i);
    hide GreedyAt, Backlog;
    if traffic == [] {
      TailGreedy(rem, GetMaxBW(TailAdapter(s, i)), k);
    } else if k == 0 {
      FirstGreedy(rem, traffic, bw, GetMaxBW(BwAdapter(s, i)));
    } else {
      SlotsGreedy(s, rem + traffic[0] - bw[0], traffic[1..], i + 1, k - 1);
      LaterGreedy(rem, traffic, bw, CapAt(s, i + |traffic|, i + k), k);
    }
  }

  lemma TailGreedy(rem: nat, cap: nat, k: nat)
    requires cap > 0 && k < |Drained(rem, cap)|
    ensures GreedyAt(rem, [], Drained(rem, cap), cap, k)
  {
    DrainGreedy(rem, cap, k);
  }

  lemma LaterGreedy(rem: nat, traffic: seq<nat>, bw: seq<nat>, cap: nat, k: nat)
    requires traffic != [] && 0 < k < |bw| && rem + traffic[0] >= bw[0]
    requires GreedyAt(rem + traffic[0] - bw[0], traffic[1..], bw[1..], cap, k - 1)
    ensures GreedyAt(rem, traffic, bw, cap, k)
  {
    BacklogStep(rem, traffic, bw, k + 1);
    BacklogStep(rem, traffic, bw, k);
  }

  lemma FirstGreedy(rem: nat, traffic: seq<nat>, bw: seq<nat>, cap: nat)
    requires traffic != [] && bw != [] && bw[0] == Min(rem + traffic[0], cap)
    ensures GreedyAt(rem, traffic, bw, cap, 0)
  {
    assert bw[..1] == [bw[0]] && traffic[..1] == [traffic[0]];
    assert Sum([bw[0]]) == bw[0] + Sum([]) && Sum([traffic[0]]) == traffic[0] + Sum([]);
    assert bw[..0] == [] && traffic[..0] == [];
  }

  ghost predicate GreedyAt(rem: nat, traffic: seq<nat>, bw: seq<nat>, cap: nat, k: nat)
    requires k < |bw|
  {
    var arrived := if k < |traffic| then traffic[k] else 0;
    && Backlog(rem, traffic, bw, k) >= 0
    && bw[k] == Min(Backlog(rem, traffic, bw, k) + arrived, cap)
    && Backlog(rem, traffic, bw, k + 1) == Backlog(rem, traffic, bw, k) + arrived - bw[k]
    && (bw[k] < cap ==> Backlog(rem, traffic, bw, k + 1) == 0)
  }

  lemma {:induction false} DrainGreedy(rem: nat, cap: nat, k: nat)
    requires cap > 0 && k < |Drained(rem, cap)|
    ensures var bw := Drained(rem, cap);
      && rem - Sum(bw[..k]) >= 0
      && bw[k] == Min(rem - Sum(bw[..k]), cap)
      && Sum(bw[..k + 1]) == Sum(bw[..k]) + bw[k]
    decreases k
  {
    var bw := Drained(rem, cap);
    assert bw[..k + 1][1..] == bw[1..][..k];
    if k > 0 {
      DrainGreedy(rem - Min(rem, cap), cap, k - 1);
      assert bw[..k][1..] == bw[1..][..k - 1];
    } else {
      assert bw[1..][..0] == [];
    }
  }

  // --- Dominance ---

  lemma {:induction false} DrainDominates(rem: nat, cap: nat, rem': nat, cap': nat, k: nat)
    requires 0 < cap <= cap' && rem' <= rem
    ensures |Drained(rem', cap')| <= |Drained(rem, cap)|
    ensures rem' - Sum(Drained(rem', cap')[..Min(k, |Drained(rem', cap')|)])
         <= rem - Sum(Drained(rem, cap)[..Min(k, |Drained(rem, cap)|)])
    decreases rem
  {
    var bw, bw' := Drained(rem, cap), Drained(rem', cap');
    if rem' == 0 {
      DrainedFacts(rem, cap);
      SumPrefix(bw, Min(k, |bw|));
    } else if k > 0 {
      var n, n' := Min(k, |bw|), Min(k, |bw'|);
      DrainDominates(rem - Min(rem, cap), cap, rem' - Min(rem', cap'), cap', k - 1);
      assert bw[..n][1..] == bw[1..][..n - 1];
      assert bw'[..n'][1..] == bw'[1..][..n' - 1];
    } else {
      DrainDominates(rem - Min(rem, cap), cap, rem' - Min(rem', cap'), cap', 0);
      assert bw[..0] == [] && bw'[..0] == [];
    }
  }

  lemma {:induction false} SumPrefix(l: seq<nat>, k: nat)
    requires k <= |l|
    ensures Sum(l[..k]) <= Sum(l)
  {
    if k > 0 {
      SumPrefix(l[1..], k - 1);
      assert l[..k][1..] == l[1..][..k - 1];
    }
  }

  lemma {:induction false} SlotsDominate(rem: nat, rem': nat, traffic: seq<nat>, i: nat, k: nat)
    requires rem' <= rem
    ensures |Slots(BT_TO_WFD, rem', traffic, i)| <= |Slots(BT, rem, traffic, i)|
    ensures Backlog(rem', traffic, Slots(BT_TO_WFD, rem', traffic, i), k)
         <= Backlog(rem, traffic, Slots(BT, rem, traffic, i), k)
    decreases |traffic|
  {
    var bw, bw' := Slots(BT, rem, traffic, i), Slots(BT_TO_WFD, rem', traffic, i);
    if traffic == [] {
      DrainDominates(rem, 75000, rem', GetMaxBW(TailAdapter(BT_TO_WFD, i)), k);
      assert traffic[..0] == [];
    } else {
      var p, p' := rem + traffic[0], rem' + traffic[0];
      SlotsDominate(p - bw[0], p' - bw'[0], traffic[1..], i + 1, if k == 0 then 0 else k - 1);
      if k > 0 {
        BacklogStep(rem, traffic, bw, k);
        BacklogStep(rem', traffic, bw', k);
      } else {
        assert bw[..0] == [] && bw'[..0] == [] && traffic[..0] == [];
      }
    }
  }

  /** Switching from BT to WFD never has more queued in any slot than staying on BT, nor takes longer. */
  lemma SwitchingDominates(queued: nat, traffic: seq<nat>, k: nat)
    ensures |Slots(BT_TO_WFD, queued, traffic, 0)| <= |Slots(BT, queued, traffic, 0)|
    ensures Backlog(queued, traffic, Slots(BT_TO_WFD, queued, traffic, 0), k)
         <= Backlog(queued, traffic, Slots(BT, queued, traffic, 0), k)
  {
    SlotsDominate(queued, queued, traffic, 0, k);
  }

  // --- The simulation loops ---

  lemma ServeSlot(s: int, rem: nat, traffic: seq<nat>, i: nat, served: seq<nat>, slot: nat)
    requires ValidScenario(s) && i < |traffic| && slot == Min(rem + traffic[i], GetMaxBW(BwAdapter(s, i)))
    ensures served + Slots(s, rem, traffic[i..], i)
         == served + [slot] + Slots(s, rem + traffic[i] - slot, traffic[i + 1..], i + 1)
  {
    assert traffic[i..][1..] == traffic[i + 1..];
  }

  lemma LastSlots(s: int, rem: nat, traffic: seq<nat>)
    requires ValidScenario(s)
    ensures Slots(s, rem, traffic[|traffic|..], |traffic|) == Drained(rem, GetMaxBW(TailAdapter(s, |traffic|)))
  {
  }

  lemma DrainSlot(rem: nat, cap: nat, served: seq<nat>)
    requires cap > 0
    ensures rem == 0 ==> served + Drained(rem, cap) == served
    ensures rem > 0 ==> served + Drained(rem, cap) == served + [Min(rem, cap)] + Drained(rem - Min(rem, cap), cap)
  {
  }

  /** The switch timeline of the bandwidth simulation before slot `i`. */
  ghost predicate Timeline(s: int, i: nat, adapter: int, latency: real, switching: bool, delayed: bool) {
    && adapter == TailAdapter(s, i)
    && (switching <==> (s == BT_TO_WFD && i < 6) || (s == WFD_TO_BT && i < 7))
    && (delayed <==> s == BT_TO_WFD && i == 6)
    && (switching ==> latency == GetSwitchLatency(s) - i as real)
  }

  /** The switch prediction at the head of the loop: WFD is applied one slot late, BT at once. */
  method PredictSwitch(adapter: int, latency: real, switching: bool, delayed: bool, ghost s: int, ghost i: nat)
    returns (adapter': int, latency': real, switching': bool, delayed': bool)
    requires ValidScenario(s) && Timeline(s, i, adapter, latency, switching, delayed)
    ensures adapter' == BwAdapter(s, i) && Timeline(s, i + 1, adapter', latency', switching', delayed')
  {
    adapter', latency', switching', delayed' := adapter, latency, switching, delayed;
    if switching {
      latency' := latency - 1.0;
      if latency' < 0.0 {
        if adapter == BT_TO_WFD { delayed' := true; } else if adapter == WFD_TO_BT { adapter' := BT; }
        switching' := false;
      }
    } else if delayed {
      adapter' := WFD;
      delayed' := false;
    }
  }

  method PredictBandwidthSeq(queueLength: nat, traffic: seq<nat>, s: int, initial: seq<nat>)
    returns (ok: bool, bandwidth: seq<nat>)
    ensures ok <==> initial == [] && ValidScenario(s)
    ensures ok ==> bandwidth == Slots(s, queueLength, traffic, 0)
    ensures !ok ==> bandwidth == initial
  {
    hide Slots, Drained;
    bandwidth := initial;
    if initial != [] { return false, bandwidth; }
    if !ValidScenario(s) { return false, bandwidth; }
    var adapter := s;
    var remainder: nat := queueLength;
    var latency := GetSwitchLatency(s);
    var switching, delayed := latency > 0.0, false;
    for i := 0 to |traffic|
      invariant Timeline(s, i, adapter, latency, switching, delayed)
      invariant bandwidth + Slots(s, remainder, traffic[i..], i) == Slots(s, queueLength, traffic, 0)
    {
      adapter, latency, switching, delayed := PredictSwitch(adapter, latency, switching, delayed, s, i);
      var prepared := remainder + traffic[i];
      var slot := if prepared < GetMaxBW(adapter) then prepared else GetMaxBW(adapter);
      ServeSlot(s, remainder, traffic, i, bandwidth, slot);
      remainder := prepared - slot;
      bandwidth := bandwidth + [slot];
    }
    LastSlots(s, remainder, traffic);
    while remainder > 0
      invariant bandwidth + Drained(remainder, GetMaxBW(adapter)) == Slots(s, queueLength, traffic, 0)
    {
      var slot := if remainder < GetMaxBW(adapter) then remainder else GetMaxBW(adapter);
      DrainSlot(remainder, GetMaxBW(adapter), bandwidth);
      remainder := remainder - slot;
      bandwidth := bandwidth + [slot];
    }
    DrainSlot(0, GetMaxBW(adapter), bandwidth);
    ok := true;
  }

  /** The power charged for slot `i`. */
  function SlotPower(s: int, bw: seq<nat>, i: nat): real
    requires ValidScenario(s) && i < |bw|
  {
    GetPower(bw[i], EnergyAdapter(s, |bw|, i))
  }

  function Total(s: int, bw: seq<nat>, n: nat): real
    requires ValidScenario(s) && n <= |bw|
  {
    if n == 0 then 0.0 else Total(s, bw, n - 1) + SlotPower(s, bw, n - 1)
  }

  lemma {:induction false} TotalNonNegative(s: int, bw: seq<nat>, n: nat)
    requires ValidScenario(s) && n <= |bw|
    requires forall i :: 0 <= i < n ==> SlotPower(s, bw, i) >= 0.0
    ensures Total(s, bw, n) >= 0.0
  {
    if n > 0 { TotalNonNegative(s, bw, n - 1); }
  }

  /** The private half: fails exactly if some slot's power is negative on the adapter charged for it. */
  method PredictEnergyOf(bw: seq<nat>, s: int) returns (energy: real)
    ensures energy == -1.0 <==>
              !ValidScenario(s)
              || (|bw| <= 2 * PREDICTION_WINDOW_SEC && exists i :: 0 <= i < |bw| && SlotPower(s, bw, i) < 0.0)
    ensures energy != -1.0 ==> energy == if |bw| > 2 * PREDICTION_WINDOW_SEC then MAX_FLOAT else Total(s, bw, |bw|)
    ensures energy >= 0.0 || energy == -1.0
  {
    if !ValidScenario(s) { return -1.0; }
    if |bw| > PREDICTION_WINDOW_SEC * 2 { return MAX_FLOAT; }
    var adapter := s;
    energy := 0.0;
    var latency := GetSwitchLatency(s);
    var switching := latency > 0.0;
    var backLatency := GetSwitchBackLatency(s);
    var switchBack := backLatency > 0.0;
    var backStart := if switchBack then |bw| as real - backLatency else -1.0;
    var n := |bw|;
    ghost var back := if n <= 7 then 1 else n - 6;
    for i := 0 to n
      invariant i < n ==> adapter == EnergyAdapter(s, n, i)
      invariant switching <==> (s == BT_TO_WFD && i < 6) || (s == WFD_TO_BT && i < 7)
      invariant switching ==> latency == GetSwitchLatency(s) - i as real
      invariant switchBack <==> s == BT_TO_WFD && i < back
      invariant switchBack ==> backStart == n as real - LATENCY_WFD_TO_BT - i as real
      invariant energy == Total(s, bw, i)
      invariant forall k :: 0 <= k < i ==> SlotPower(s, bw, k) >= 0.0
    {
      var power := GetPower(bw[i], adapter);
      assert power == SlotPower(s, bw, i);
      if power < 0.0 { return -1.0; }
      if switching {
        latency := latency - 1.0;
        if latency < 0.0 {
          if adapter == BT_TO_WFD { adapter := WFD; } else if adapter == WFD_TO_BT { adapter := BT; }
          switching := false;
        }
      }
      if switchBack {
        backStart := backStart - 1.0;
        if backStart < 0.0 {
          if adapter == WFD || adapter == BT_TO_WFD {
            adapter := WFD_TO_BT;
            switchBack := false;
          }
        }
      }
      energy := energy + power;
    }
    TotalNonNegative(s, bw, n);
    if energy < 0.0 { energy := 0.0; }
  }

  // --- When prediction fails ---

  lemma NonNegativeProduct(a: real, b: real)
    requires a >= 0.0 && b >= 0.0
    ensures a * b >= 0.0
  {
  }

  lemma ConcavePositive(b0: real, b1: real, b2: real, x: real, max: real)
    requires b0 > 0.0 && b2 >= 0.0 && 0.0 <= x <= max && b1 - b2 * max >= 0.0
    ensures b0 + b1 * x - b2 * x * x > 0.0
  {
    assert b2 * x <= b2 * max;
    assert x * (b1 - b2 * x) >= 0.0;
  }

  /** Within the cap of an adapter its own power polynomial is positive. */
  lemma PowerPositive(bandwidth: nat, adapter: int)
    requires ValidScenario(adapter) && bandwidth <= GetMaxBW(adapter)
    ensures GetPower(bandwidth, adapter) > 0.0
  {
    var x := bandwidth as real / 1000.0;
    if adapter == BT { ConcavePositive(20.56, 1.756, 0.001641, x, 75.0); }
    else if adapter == WFD { ConcavePositive(143.8, 0.1964, 0.000006769, x, 3500.0); }
    else if adapter == BT_TO_WFD { ConcavePositive(217.7, 4.433, 0.02262, x, 75.0); }
    else { ConcavePositive(203.3, 0.1869, 0.00001695, x, 3500.0); }
  }

  /** The largest rate at which BT's polynomial is still positive. */
  const BT_POWER_LIMIT: nat := 1081662

  lemma BtPowerNegative(bandwidth: nat)
    ensures GetPower(bandwidth, BT) < 0.0 <==> bandwidth > 1081662
  {
    var x := bandwidth as real / 1000.0;
    if bandwidth <= BT_POWER_LIMIT {
      NonNegativeProduct(x, 1081.662 - x);
      assert 1.756 * x - 0.001641 * x * x == (1.756 - 0.001641 * 1081.662) * x + 0.001641 * (x * (1081.662 - x));
    } else {
      var slope := 1.756 - 0.001641 * x;
      assert slope <= 1.756 - 0.001641 * 1081.663 < 0.0;
      assert (x - 1081.663) * slope <= 0.0;
      assert 1081.663 * slope <= 1081.663 * (1.756 - 0.001641 * 1081.663);
    }
  }

  /** Idle slots are served with nothing. */
  lemma {:induction false} IdleSlots(s: int, k: nat, traffic: seq<nat>, i: nat)
    requires ValidScenario(s)
    ensures Slots(s, 0, Zeros(k) + traffic, i) == Zeros(k) + Slots(s, 0, traffic, i + k)
  {
    if k == 0 {
      assert Zeros(0) + traffic == traffic;
      assert Zeros(0) + Slots(s, 0, traffic, i) == Slots(s, 0, traffic, i);
    } else {
      assert (Zeros(k) + traffic)[1..] == Zeros(k - 1) + traffic;
      IdleSlots(s, k - 1, traffic, i + 1);
      assert [0] + (Zeros(k - 1) + Slots(s, 0, traffic, i + k)) == Zeros(k) + Slots(s, 0, traffic, i + k);
    }
  }

  function Zeros(k: nat): seq<nat> {
    seq(k, _ => 0)
  }

  /** Seven slots with 2 MB in the last one: the switch back to BT is charged while WFD is serving. */
  lemma ShortWindowFails()
    ensures var bw := Slots(BT_TO_WFD, 0, Zeros(6) + [2000000], 0);
      |bw| == 7 && Mismatched(BT_TO_WFD, 7, 6) && SlotPower(BT_TO_WFD, bw, 6) < 0.0
  {
    IdleSlots(BT_TO_WFD, 6, [2000000], 0);
    assert Slots(BT_TO_WFD, 0, [2000000], 6) == [2000000] + Slots(BT_TO_WFD, 0, [], 7);
    BtPowerNegative(2000000);
  }

  /** The slots charged with a polynomial that does not cover their cap. */
  predicate Mismatched(s: int, n: nat, i: nat) {
    (s == BT_TO_WFD && n < 12 && i >= 6) || (s == WFD_TO_BT && i >= 7)
  }

  lemma SlotPowerPositive(s: int, queued: nat, traffic: seq<nat>, i: nat)
    requires ValidScenario(s) && i < |Slots(s, queued, traffic, 0)|
    requires !Mismatched(s, |Slots(s, queued, traffic, 0)|, i) || |traffic| >= 12
    ensures SlotPower(s, Slots(s, queued, traffic, 0), i) > 0.0
  {
    SlotsFacts(s, queued, traffic, 0);
    var bw := Slots(s, queued, traffic, 0);
    assert bw[i] <= CapAt(s, |traffic|, i);
    PowerPositive(bw[i], EnergyAdapter(s, |bw|, i));
  }

  /** What there is to serve in slot `i`: the backlog before it and the traffic of the slot. */
  function Offered(rem: nat, traffic: seq<nat>, bw: seq<nat>, i: nat): int {
    Backlog(rem, traffic, bw, i) + if i < |traffic| then traffic[i] else 0
  }

  /**
   * The two timelines disagree so far that a slot served at WFD speed is charged as BT: the switch to BT after at most
   * six slots of traffic, or the switch back to BT within fewer than twelve slots.
   */
  predicate AtOdds(s: int, t: nat, n: nat, i: nat) {
    || (s == BT_TO_WFD && t >= 7 && n < 12 && i >= 6)
    || (s == WFD_TO_BT && t <= 6 && i >= 7)
  }

  /** Some such slot has more to serve than BT's polynomial is good for. */
  ghost predicate Overcharged(s: int, queued: nat, traffic: seq<nat>)
    requires ValidScenario(s)
  {
    var bw := Slots(s, queued, traffic, 0);
    && |bw| <= 2 * PREDICTION_WINDOW_SEC
    && exists i :: 0 <= i < |bw| && AtOdds(s, |traffic|, |bw|, i) && Offered(queued, traffic, bw, i) > BT_POWER_LIMIT
  }

  /** A slot's power is negative exactly if the timelines are at odds there and there is too much to serve. */
  lemma SlotPowerNegative(s: int, queued: nat, traffic: seq<nat>, i: nat)
    requires ValidScenario(s) && i < |Slots(s, queued, traffic, 0)|
    ensures var bw := Slots(s, queued, traffic, 0);
      SlotPower(s, bw, i) < 0.0
      <==> AtOdds(s, |traffic|, |bw|, i) && Offered(queued, traffic, bw, i) > BT_POWER_LIMIT
  {
    var bw := Slots(s, queued, traffic, 0);
    SlotsFacts(s, queued, traffic, 0);
    SlotsGreedy(s, queued, traffic, 0, i);
    var cap := CapAt(s, |traffic|, i);
    assert bw[i] == Min(Offered(queued, traffic, bw, i), cap);
    hide Slots, Backlog, Offered, GetPower;
    if AtOdds(s, |traffic|, |bw|, i) {
      assert cap == 3500000 && EnergyAdapter(s, |bw|, i) == BT;
      BtPowerNegative(bw[i]);
    } else if Mismatched(s, |bw|, i) && |traffic| < 12 {
      assert cap == 75000;
      if EnergyAdapter(s, |bw|, i) == BT { BtPowerNegative(bw[i]); }
    } else {
      SlotPowerPositive(s, queued, traffic, i);
    }
  }

  // --- What a timeline costs ---

  function Squares(bw: seq<nat>): nat {
    if bw == [] then 0 else bw[0] * bw[0] + Squares(bw[1..])
  }

  function Terms(b0: real, b1: real, b2: real, n: real, sum: real, squares: real): real {
    b0 * n + b1 * sum + b2 * squares
  }

  /** Slots that are all charged with the polynomial b0 + b1 x + b2 x^2 of the rate x in kB/s. */
  function Cost(b0: real, b1: real, b2: real, bw: seq<nat>): real {
    Terms(b0, b1, b2, |bw| as real, Sum(bw) as real / 1000.0, Squares(bw) as real / 1000000.0)
  }

  function OnBt(bw: seq<nat>): real {
    Cost(20.56, 1.756, -0.001641, bw)
  }

  function OnWfd(bw: seq<nat>): real {
    Cost(143.8, 0.1964, -0.000006769, bw)
  }

  function Up(bw: seq<nat>): real {
    Cost(217.7, 4.433, -0.02262, bw)
  }

  function Down(bw: seq<nat>): real {
    Cost(203.3, 0.1869, -0.00001695, bw)
  }

  /**
   * The phases of each scenario. A switch to WFD takes six slots and ends with a switch back of six more; where the
   * window is too short for both, the switch back cuts the switch off and leads to BT.
   */
  function Spent(s: int, bw: seq<nat>): real
    requires ValidScenario(s)
  {
    var n := |bw|;
    if s == BT then OnBt(bw)
    else if s == WFD then OnWfd(bw)
    else if s == WFD_TO_BT then (if n <= 7 then Down(bw) else Down(bw[..7]) + OnBt(bw[7..]))
    else if n >= 12 then Up(bw[..6]) + OnWfd(bw[6..n - 6]) + Down(bw[n - 6..])
    else if n <= 1 then Up(bw)
    else if n <= 6 then Up(bw[..1]) + Down(bw[1..])
    else if n == 7 then Up(bw[..1]) + Down(bw[1..6]) + OnBt(bw[6..])
    else Up(bw[..n - 6]) + Down(bw[n - 6..6]) + OnBt(bw[6..])
  }

  lemma {:induction false} SumSnoc(l: seq<nat>, x: nat)
    ensures Sum(l + [x]) == Sum(l) + x && Squares(l + [x]) == Squares(l) + x * x
  {
    if l == [] {
      assert [] + [x] == [x] && [x][1..] == [];
    } else {
      assert (l + [x])[1..] == l[1..] + [x];
      SumSnoc(l[1..], x);
    }
  }

  function Polynomial(b0: real, b1: real, b2: real, rate: nat): real {
    var x := rate as real / 1000.0;
    b0 + b1 * x + b2 * (x * x)
  }

  lemma Distributes(b0: real, b1: real, b2: real, n: real, sum: real, squares: real, rate: nat)
    ensures var x := rate as real / 1000.0;
      Terms(b0, b1, b2, n + 1.0, sum + x, squares + x * x)
      == Terms(b0, b1, b2, n, sum, squares) + Polynomial(b0, b1, b2, rate)
  {
    var x := rate as real / 1000.0;
    var y := x * x;
    assert b1 * (sum + x) == b1 * sum + b1 * x;
    assert b2 * (squares + y) == b2 * squares + b2 * y;
  }

  lemma OneRateMore(bw: seq<nat>, rate: nat)
    ensures var x := rate as real / 1000.0;
      && Sum(bw + [rate]) as real / 1000.0 == Sum(bw) as real / 1000.0 + x
      && Squares(bw + [rate]) as real / 1000000.0 == Squares(bw) as real / 1000000.0 + x * x
      && |bw + [rate]| as real == |bw| as real + 1.0
  {
    SumSnoc(bw, rate);
    SquareOfThousandth(rate);
    hide Squares, Sum;
  }

  lemma CostSnoc(b0: real, b1: real, b2: real, bw: seq<nat>, rate: nat)
    ensures Cost(b0, b1, b2, bw + [rate]) == Cost(b0, b1, b2, bw) + Polynomial(b0, b1, b2, rate)
  {
    hide Squares, Sum, Terms, Polynomial;
    var n, sum, squares := |bw| as real, Sum(bw) as real / 1000.0, Squares(bw) as real / 1000000.0;
    OneRateMore(bw, rate);
    Distributes(b0, b1, b2, n, sum, squares, rate);
  }

  lemma SquareOfThousandth(rate: nat)
    ensures (rate as real / 1000.0) * (rate as real / 1000.0) == (rate * rate) as real / 1000000.0
  {
    assert (rate * rate) as real == rate as real * rate as real;
  }

  /** The polynomial of an adapter, as the table gives its coefficients. */
  function Table(adapter: int): (real, real, real)
    requires ValidScenario(adapter)
  {
    if adapter == BT then (20.56, 1.756, -0.001641)
    else if adapter == WFD then (143.8, 0.1964, -0.000006769)
    else if adapter == BT_TO_WFD then (217.7, 4.433, -0.02262)
    else (203.3, 0.1869, -0.00001695)
  }

  lemma PowerIsPolynomial(rate: nat, adapter: int)
    requires ValidScenario(adapter)
    ensures var t := Table(adapter); GetPower(rate, adapter) == Polynomial(t.0, t.1, t.2, rate)
  {
  }

  lemma TotalStep(s: int, bw: seq<nat>, n: nat, adapter: int)
    requires ValidScenario(s) && ValidScenario(adapter) && 0 < n <= |bw| && EnergyAdapter(s, |bw|, n - 1) == adapter
    ensures var t := Table(adapter); Total(s, bw, n) == Total(s, bw, n - 1) + Polynomial(t.0, t.1, t.2, bw[n - 1])
  {
    PowerIsPolynomial(bw[n - 1], adapter);
    hide GetPower, Table, Polynomial, EnergyAdapter;
  }

  lemma CostOfNone(b0: real, b1: real, b2: real)
    ensures Cost(b0, b1, b2, []) == 0.0
  {
  }

  /** A phase in which one adapter is charged. */
  lemma {:induction false} PhaseCosts(s: int, bw: seq<nat>, a: nat, b: nat, adapter: int)
    requires ValidScenario(s) && ValidScenario(adapter) && a <= b <= |bw|
    requires forall i :: a <= i < b ==> EnergyAdapter(s, |bw|, i) == adapter
    ensures var t := Table(adapter); Total(s, bw, b) == Total(s, bw, a) + Cost(t.0, t.1, t.2, bw[a..b])
    decreases b
  {
    hide Total, Cost, Table, Polynomial;
    var t := Table(adapter);
    if a == b {
      assert bw[a..b] == [];
      CostOfNone(t.0, t.1, t.2);
    } else {
      assert EnergyAdapter(s, |bw|, b - 1) == adapter;
      hide EnergyAdapter;
      PhaseCosts(s, bw, a, b - 1, adapter);
      TotalStep(s, bw, b, adapter);
      assert bw[a..b] == bw[a..b - 1] + [bw[b - 1]];
      CostSnoc(t.0, t.1, t.2, bw[a..b - 1], bw[b - 1]);
    }
  }

  lemma WholeSlice(bw: seq<nat>)
    ensures bw[0..|bw|] == bw
    ensures forall k :: 0 <= k <= |bw| ==> bw[0..k] == bw[..k] && bw[k..|bw|] == bw[k..]
  {
  }

  /** The loop over the slots adds up exactly the phases. */
  lemma TotalIsSpent(s: int, bw: seq<nat>)
    requires ValidScenario(s)
    ensures Total(s, bw, |bw|) == Spent(s, bw)
  {
    var n := |bw|;
    WholeSlice(bw);
    hide Cost, Total;
    assert Total(s, bw, 0) == 0.0 by { TotalOfNothing(s, bw); }
    if s == BT || s == WFD {
      PhaseCosts(s, bw, 0, n, s);
    } else if s == WFD_TO_BT {
      PhaseCosts(s, bw, 0, if n <= 7 then n else 7, WFD_TO_BT);
      if n > 7 { PhaseCosts(s, bw, 7, n, BT); }
    } else if n >= 12 {
      PhaseCosts(s, bw, 0, 6, BT_TO_WFD);
      PhaseCosts(s, bw, 6, n - 6, WFD);
      PhaseCosts(s, bw, n - 6, n, WFD_TO_BT);
    } else {
      var back := if n <= 1 then n else if n <= 7 then 1 else n - 6;
      var end := if n <= 6 then n else 6;
      PhaseCosts(s, bw, 0, back, BT_TO_WFD);
      if n > 1 { PhaseCosts(s, bw, back, end, WFD_TO_BT); }
      if n > 6 { PhaseCosts(s, bw, 6, n, BT); }
    }
  }

  lemma TotalOfNothing(s: int, bw: seq<nat>)
    requires ValidScenario(s)
    ensures Total(s, bw, 0) == 0.0
  {
  }

  /** What the policy compares. */
  function Predicted(s: int, queued: nat, traffic: seq<nat>): real
    requires ValidScenario(s)
  {
    var bw := Slots(s, queued, traffic, 0);
    if |bw| > 60 then MAX_FLOAT else Spent(s, bw)
  }

  /**
   * Prediction fails exactly for an unknown scenario, or when too much served at WFD speed is charged as BT; otherwise
   * it returns what the phases of the scenario cost.
   */
  method PredictEnergy(queueLength: nat, traffic: seq<nat>, s: int) returns (energy: real)
    ensures energy == -1.0 <==> !ValidScenario(s) || Overcharged(s, queueLength, traffic)
    ensures energy >= 0.0 || energy == -1.0
    ensures energy != -1.0 ==> energy == Predicted(s, queueLength, traffic)
  {
    var ok, bandwidth := PredictBandwidthSeq(queueLength, traffic, s, []);
    if !ok { return -1.0; }
    energy := PredictEnergyOf(bandwidth, s);
    TotalIsSpent(s, bandwidth);
    hide Total, Spent, Slots;
    forall i | 0 <= i < |bandwidth|
      ensures SlotPower(s, bandwidth, i) < 0.0
         <==> AtOdds(s, |traffic|, |bandwidth|, i) && Offered(queueLength, traffic, bandwidth, i) > BT_POWER_LIMIT
    {
      SlotPowerNegative(s, queueLength, traffic, i);
    }
  }

  // --- Closed forms ---

  /** Which rate limits which slot: 75 kB/s on BT, 3.5 MB/s on WFD, the first also up to six slots into a switch up. */
  lemma CapIs(s: int, n: nat, k: nat)
    requires ValidScenario(s)
    ensures var i := if k < n then k else if n == 0 then 0 else n - 1;
      CapAt(s, n, k) == if s == 1 || (s == 3 && i < 6) || (s == 4 && i >= 6) then 75000 else 3500000
  {
  }

  /** Traffic below the cap is served as it comes. */
  lemma {:induction false} LightTraffic(s: int, traffic: seq<nat>, i: nat)
    requires ValidScenario(s) && forall k :: 0 <= k < |traffic| ==> traffic[k] <= 75000
    ensures Slots(s, 0, traffic, i) == traffic
    decreases |traffic|
  {
    if traffic != [] {
      LightTraffic(s, traffic[1..], i + 1);
      assert traffic == [traffic[0]] + traffic[1..];
    }
  }

  function Constant(n: nat, rate: nat): seq<nat> {
    seq(n, _ => rate)
  }

  lemma {:induction false} SumsOfConstant(n: nat, rate: nat)
    ensures Sum(Constant(n, rate)) == n * rate && Squares(Constant(n, rate)) == n * (rate * rate)
  {
    if n > 0 {
      assert Constant(n, rate)[1..] == Constant(n - 1, rate);
      SumsOfConstant(n - 1, rate);
      assert n * rate == (n - 1) * rate + rate;
      assert n * (rate * rate) == (n - 1) * (rate * rate) + rate * rate;
    }
  }

  /** That many slots at this price. */
  function Times(n: nat, price: real): real {
    if n == 0 then 0.0 else price + Times(n - 1, price)
  }

  lemma {:induction false} TimesIsProduct(n: nat, price: real)
    ensures Times(n, price) == n as real * price
  {
    if n > 0 { TimesIsProduct(n - 1, price); }
  }

  lemma ConstantSums(n: nat, rate: nat)
    ensures var x, bw := rate as real / 1000.0, Constant(n, rate);
      && Sum(bw) as real / 1000.0 == n as real * x
      && Squares(bw) as real / 1000000.0 == n as real * (x * x)
  {
    SumsOfConstant(n, rate);
    SquareOfThousandth(rate);
    assert (n * rate) as real == n as real * rate as real;
    assert (n * (rate * rate)) as real == n as real * (rate * rate) as real;
    hide Sum, Squares, Constant;
  }

  lemma CostOfConstant(b0: real, b1: real, b2: real, n: nat, rate: nat)
    ensures Cost(b0, b1, b2, Constant(n, rate)) == Times(n, Polynomial(b0, b1, b2, rate))
  {
    hide Sum, Squares, Terms, Polynomial, Times;
    ConstantSums(n, rate);
    TimesPolynomial(b0, b1, b2, n as real, rate);
    TimesIsProduct(n, Polynomial(b0, b1, b2, rate));
  }

  lemma TimesPolynomial(b0: real, b1: real, b2: real, m: real, rate: nat)
    ensures var x := rate as real / 1000.0;
      Terms(b0, b1, b2, m, m * x, m * (x * x)) == m * Polynomial(b0, b1, b2, rate)
  {
    var x := rate as real / 1000.0;
    var y := x * x;
    assert b1 * (m * x) == m * (b1 * x);
    assert b2 * (m * y) == m * (b2 * y);
    assert m * (b0 + b1 * x + b2 * y) == m * b0 + m * (b1 * x) + m * (b2 * y);
  }

  lemma SlicesOfConstant(n: nat, rate: nat, a: nat, b: nat)
    requires a <= b <= n
    ensures Constant(n, rate)[a..b] == Constant(b - a, rate)
    ensures a == 0 ==> Constant(n, rate)[..b] == Constant(b, rate)
    ensures b == n ==> Constant(n, rate)[a..] == Constant(n - a, rate)
  {
  }

  lemma ServedAsItComes(s: int, n: nat, rate: nat)
    requires ValidScenario(s) && n <= 60 && rate <= 75000
    ensures Predicted(s, 0, Constant(n, rate)) == Spent(s, Constant(n, rate))
  {
    LightTraffic(s, Constant(n, rate), 0);
    hide Spent, Slots;
  }

  /** Light constant traffic on either adapter, in a window of at most a minute: the polynomial for every slot. */
  lemma SteadyTraffic(n: nat, rate: nat)
    requires n <= 60 && rate <= 75000
    ensures Predicted(1, 0, Constant(n, rate)) == Times(n, Polynomial(20.56, 1.756, -0.001641, rate))
    ensures Predicted(2, 0, Constant(n, rate)) == Times(n, Polynomial(143.8, 0.1964, -0.000006769, rate))
  {
    hide Cost, Polynomial, Predicted, Times;
    ServedAsItComes(1, n, rate);
    ServedAsItComes(2, n, rate);
    CostOfConstant(20.56, 1.756, -0.001641, n, rate);
    CostOfConstant(143.8, 0.1964, -0.000006769, n, rate);
  }

  /** The same for switches, in a window that is long enough: six slots up and six down, or seven down. */
  lemma SteadySwitch(n: nat, rate: nat)
    requires 12 <= n <= 60 && rate <= 75000
    ensures Predicted(3, 0, Constant(n, rate))
         == Times(6, Polynomial(217.7, 4.433, -0.02262, rate))
            + Times(n - 12, Polynomial(143.8, 0.1964, -0.000006769, rate))
            + Times(6, Polynomial(203.3, 0.1869, -0.00001695, rate))
    ensures Predicted(4, 0, Constant(n, rate))
         == Times(7, Polynomial(203.3, 0.1869, -0.00001695, rate))
            + Times(n - 7, Polynomial(20.56, 1.756, -0.001641, rate))
  {
    hide Cost, Polynomial, Predicted, Times;
    ServedAsItComes(3, n, rate);
    ServedAsItComes(4, n, rate);
    SlicesOfConstant(n, rate, 0, 6);
    SlicesOfConstant(n, rate, 6, n - 6);
    SlicesOfConstant(n, rate, n - 6, n);
    SlicesOfConstant(n, rate, 0, 7);
    SlicesOfConstant(n, rate, 7, n);
    CostOfConstant(217.7, 4.433, -0.02262, 6, rate);
    CostOfConstant(143.8, 0.1964, -0.000006769, n - 12, rate);
    CostOfConstant(203.3, 0.1869, -0.00001695, 6, rate);
    CostOfConstant(203.3, 0.1869, -0.00001695, 7, rate);
    CostOfConstant(20.56, 1.756, -0.001641, n - 7, rate);
  }

  lemma PolynomialAtRest(b0: real, b1: real, b2: real)
    ensures Polynomial(b0, b1, b2, 0) == b0
  {
  }

  /** Without traffic, over the prediction window: what the policy compares when nothing is sent. */
  lemma IdleWindow()
    ensures Predicted(1, 0, Constant(30, 0)) == 616.8 && Predicted(2, 0, Constant(30, 0)) == 4314.0
    ensures Predicted(3, 0, Constant(30, 0)) == 5114.4 && Predicted(4, 0, Constant(30, 0)) == 1895.98
  {
    hide *;
    SteadyTraffic(30, 0);
    SteadySwitch(30, 0);
    PolynomialAtRest(20.56, 1.756, -0.001641);
    PolynomialAtRest(143.8, 0.1964, -0.000006769);
    PolynomialAtRest(217.7, 4.433, -0.02262);
    PolynomialAtRest(203.3, 0.1869, -0.00001695);
    TimesIsProduct(30, 20.56);
    TimesIsProduct(30, 143.8);
    TimesIsProduct(6, 217.7);
    TimesIsProduct(18, 143.8);
    TimesIsProduct(6, 203.3);
    TimesIsProduct(7, 203.3);
    TimesIsProduct(23, 20.56);
  }

  /** Two slots of 10 and 75 kB on BT: every rate is charged, and squared on its own. */
  lemma TwoSlots()
    ensures Predicted(1, 0, [10000, 75000]) == 2.0 * 20.56 + 1.756 * 85.0 - 0.001641 * (100.0 + 5625.0)
  {
    LightTraffic(1, [10000, 75000], 0);
    var bw: seq<nat> := [10000, 75000];
    assert bw[1..] == [75000] && bw[1..][1..] == [];
    assert Sum(bw) == 85000;
    assert Squares(bw) == 10000 * 10000 + 75000 * 75000;
  }

  /** No rate below the WFD cap costs more than a million a slot. */
  lemma PowerIsSmall(rate: nat, adapter: int)
    requires ValidScenario(adapter) && rate <= 3500000
    ensures GetPower(rate, adapter) <= 1000000.0
  {
    var x := rate as real / 1000.0;
    NonNegativeProduct(x, x);
    assert 0.0 <= x <= 3500.0;
    var y := x * x;
    assert -0.001641 * y <= 0.0 && -0.000006769 * y <= 0.0 && -0.02262 * y <= 0.0 && -0.00001695 * y <= 0.0;
  }

  lemma {:induction false} TotalIsSmall(s: int, bw: seq<nat>, n: nat)
    requires ValidScenario(s) && n <= |bw| && forall i :: 0 <= i < |bw| ==> bw[i] <= 3500000
    ensures Total(s, bw, n) <= 1000000.0 * n as real
  {
    if n > 0 {
      TotalIsSmall(s, bw, n - 1);
      PowerIsSmall(bw[n - 1], EnergyAdapter(s, |bw|, n - 1));
    }
  }

  /** The greatest float is returned exactly if serving everything takes more than a minute. */
  lemma MaximumExactly(s: int, queued: nat, traffic: seq<nat>)
    requires ValidScenario(s)
    ensures Predicted(s, queued, traffic) == 340282346638528859811704183484516925440.0
       <==> |Slots(s, queued, traffic, 0)| > 60
  {
    var bw := Slots(s, queued, traffic, 0);
    SlotsFacts(s, queued, traffic, 0);
    forall i | 0 <= i < |bw| ensures bw[i] <= 3500000 { CapIs(s, |traffic|, i); }
    TotalIsSpent(s, bw);
    TotalIsSmall(s, bw, |bw|);
    hide Total, Spent, Slots;
  }

  /** From twelve slots of traffic on, prediction never fails. */
  lemma LongWindowsNeverFail(s: int, queued: nat, traffic: seq<nat>)
    requires ValidScenario(s) && |traffic| >= 12
    ensures !Overcharged(s, queued, traffic)
  {
    SlotsFacts(s, queued, traffic, 0);
  }

  /** `k` full slots come first. */
  lemma {:induction false} DrainedFull(rem: nat, cap: nat, k: nat)
    requires cap > 0 && rem > k * cap
    ensures k < |Drained(rem, cap)| && Drained(rem, cap)[k] == Min(rem - k * cap, cap)
    ensures rem - k * cap <= cap ==> |Drained(rem, cap)| == k + 1
    decreases k
  {
    if k == 0 {
      assert rem <= cap ==> Drained(rem, cap) == [rem] + Drained(0, cap);
    } else {
      assert k * cap == (k - 1) * cap + cap;
      assert (k - 1) * cap >= 0;
      DrainedFull(rem - cap, cap, k - 1);
    }
  }

  /** No traffic and 26.5 MB queued: seven slots at WFD speed are charged as switching, the eighth as BT. */
  lemma BacklogAloneFails()
    ensures var bw := Slots(WFD_TO_BT, 26500000, [], 0);
      |bw| == 8 && AtOdds(WFD_TO_BT, 0, 8, 7) && SlotPower(WFD_TO_BT, bw, 7) < 0.0
  {
    DrainedFull(26500000, 3500000, 7);
    BtPowerNegative(2000000);
  }
}
