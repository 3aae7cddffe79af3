/**
 Fuel accounting of an agent (kernel/src/fuel_hardening.rs): monthly budgets and
 their alert thresholds, the burn anomaly detector, and the ledger that reports
 and restores them.  Amounts are u64 and saturate where the source saturates.
 */
module FuelLedger {
  import opened Common

  // ------------------------------------------------------------------
  // Thresholds
  // ------------------------------------------------------------------

  const THRESHOLDS: seq<nat> := [70, 100, 120]

  /** The largest multiple of 100 a u64 holds. */
  const EXACT_LIMIT: nat := U64_MAX / 100 * 100

  function PercentCeiling(value: nat, percent: nat): nat {
    SaturatingAdd(SaturatingMul(value, percent), 99) / 100
  }

  predicate Reached(cap: nat, percent: nat, spent: nat) {
    spent >= PercentCeiling(cap, percent)
  }

  /** The saturating arithmetic decides every threshold exactly iff the product is at most `EXACT_LIMIT`. */
  lemma ReachedExactlyWhen(cap: nat, percent: nat)
    ensures (forall spent: nat :: spent <= U64_MAX ==>
               (Reached(cap, percent, spent) <==> 100 * spent >= cap * percent)) <==>
            cap * percent <= EXACT_LIMIT
  {
    var product := cap * percent;
    if product <= EXACT_LIMIT {
      forall spent: nat | spent <= U64_MAX ensures Reached(cap, percent, spent) <==> 100 * spent >= product {
        ReachedBelow(cap, percent, spent);
      }
    } else {
      assert Reached(cap, percent, U64_MAX / 100);
    }
  }

  lemma ReachedBelow(cap: nat, percent: nat, spent: nat)
    requires cap * percent <= EXACT_LIMIT
    ensures Reached(cap, percent, spent) <==> 100 * spent >= cap * percent
  {
  }

  /** A cap whose alerts come early: 120 % of the largest cap is announced at about 1 % of it. */
  lemma EarlyAlert()
    ensures Reached(U64_MAX, 120, U64_MAX / 100) && 100 * (U64_MAX / 100) < U64_MAX * 120
  {
  }

  lemma ProductGrows(cap: nat, low: nat, high: nat)
    requires low <= high
    ensures cap * low <= cap * high
  {
  }

  lemma CeilingGrows(low: nat, high: nat)
    requires low <= high
    ensures SaturatingAdd(Capped(low), 99) / 100 <= SaturatingAdd(Capped(high), 99) / 100
  {
  }

  lemma ThresholdsGrow(cap: nat, low: nat, high: nat)
    requires low <= high
    ensures PercentCeiling(cap, low) <= PercentCeiling(cap, high)
  {
    hide Capped, SaturatingAdd;
    ProductGrows(cap, low, high);
    CeilingGrows(cap * low, cap * high);
  }

  /** A higher threshold is reached no sooner, and a reached one stays reached. */
  lemma ReachedInOrder(cap: nat, before: nat, after: nat)
    requires before <= after
    ensures forall p :: Reached(cap, p, before) ==> Reached(cap, p, after)
    ensures forall spent :: Reached(cap, 100, spent) ==> Reached(cap, 70, spent)
    ensures forall spent :: Reached(cap, 120, spent) ==> Reached(cap, 100, spent)
  {
    hide PercentCeiling;
    ThresholdsGrow(cap, 70, 100);
    ThresholdsGrow(cap, 100, 120);
  }

  /** The first `n` thresholds that are reached and not yet in `alerts`, in order. */
  function Crossed(alerts: seq<nat>, cap: nat, spent: nat, n: nat): seq<nat>
    requires n <= |THRESHOLDS|
  {
    if n == 0 then []
    else
      var p := THRESHOLDS[n - 1];
      Crossed(alerts, cap, spent, n - 1) + if p !in alerts && Reached(cap, p, spent) then [p] else []
  }

  /** The alerts a budget has emitted if its cap was never changed. */
  function AlertsFor(cap: nat, spent: nat): seq<nat> {
    Crossed([], cap, spent, |THRESHOLDS|)
  }

  /** Filling in the three thresholds. */
  lemma CrossedUnrolled(alerts: seq<nat>, cap: nat, spent: nat)
    ensures Crossed(alerts, cap, spent, 3) ==
            (if 70 !in alerts && Reached(cap, 70, spent) then [70] else []) +
            (if 100 !in alerts && Reached(cap, 100, spent) then [100] else []) +
            (if 120 !in alerts && Reached(cap, 120, spent) then [120] else [])
  {
    hide Reached;
    assert Crossed(alerts, cap, spent, 0) == [];
    assert Crossed(alerts, cap, spent, 1) == if 70 !in alerts && Reached(cap, 70, spent) then [70] else [];
    assert Crossed(alerts, cap, spent, 2) ==
           (if 70 !in alerts && Reached(cap, 70, spent) then [70] else []) +
           (if 100 !in alerts && Reached(cap, 100, spent) then [100] else []);
  }

  /** A spend adds exactly the thresholds it newly reaches. */
  lemma SpendKeepsAlerts(cap: nat, before: nat, after: nat)
    requires before <= after
    ensures var crossed := Crossed(AlertsFor(cap, before), cap, after, 3);
            && AlertsFor(cap, before) + crossed == AlertsFor(cap, after)
            && forall p :: p in THRESHOLDS ==> (p in crossed <==> Reached(cap, p, after) && !Reached(cap, p, before))
  {
    hide Reached, Crossed;
    ReachedInOrder(cap, before, after);
    CrossedUnrolled([], cap, before);
    CrossedUnrolled([], cap, after);
    CrossedUnrolled(AlertsFor(cap, before), cap, after);
  }

  // ------------------------------------------------------------------
  // The monthly budget
  // ------------------------------------------------------------------

  class MonthlyBudget {
    var cap: nat
    var spent: nat
    var period: string
    var alerts: seq<nat>

    constructor (cap: nat, period: string)
      ensures this.cap == AtLeastOne(cap) && spent == 0 && this.period == period && alerts == []
    {
      this.cap, spent, this.period, alerts := AtLeastOne(cap), 0, period, [];
    }

    constructor Restored(cap: nat, spent: nat, period: string, alerts: seq<nat>)
      ensures this.cap == cap && this.spent == spent && this.period == period && this.alerts == alerts
    {
      this.cap, this.spent, this.period, this.alerts := cap, spent, period, alerts;
    }

    /** A new period starts from nothing. */
    method SetPeriod(period: string) returns (changed: bool)
      modifies this
      ensures changed == (old(this.period) != period) && this.period == period && cap == old(cap)
      ensures if changed then spent == 0 && alerts == [] else spent == old(spent) && alerts == old(alerts)
    {
      changed := this.period != period;
      if changed {
        this.period, spent, alerts := period, 0, [];
      }
    }

    method RecordSpend(units: nat) returns (crossed: seq<nat>)
      modifies this`spent, this`alerts
      ensures spent == SaturatingAdd(old(spent), units)
      ensures crossed == Crossed(old(alerts), cap, spent, 3) && alerts == old(alerts) + crossed
    {
      hide Reached, SaturatingAdd;
      spent := SaturatingAdd(spent, units);
      crossed := [];
      for i := 0 to |THRESHOLDS|
        invariant spent == SaturatingAdd(old(spent), units)
        invariant crossed == Crossed(old(alerts), cap, spent, i) && alerts == old(alerts) + crossed
        invariant forall p :: p in crossed ==> exists j :: 0 <= j < i && THRESHOLDS[j] == p
      {
        var threshold := THRESHOLDS[i];
        if threshold !in alerts && Reached(cap, threshold, spent) {
          alerts := alerts + [threshold];
          crossed := crossed + [threshold];
        }
      }
    }
  }

  /** The total of `spends`. */
  function Sum(spends: seq<nat>): nat {
    if spends == [] then 0 else Sum(spends[..|spends| - 1]) + spends[|spends| - 1]
  }

  lemma SumStep(spends: seq<nat>, n: nat)
    requires n < |spends|
    ensures Sum(spends[..n + 1]) == Sum(spends[..n]) + spends[n]
  {
    assert spends[..n + 1][..n] == spends[..n];
  }

  lemma {:induction false} SumGrows(spends: seq<nat>, i: nat, j: nat)
    requires i <= j <= |spends|
    ensures Sum(spends[..i]) <= Sum(spends[..j])
  {
    if i < j {
      SumGrows(spends, i, j - 1);
      SumStep(spends, j - 1);
    }
  }

  /** What a budget shows as spent. */
  function SpentBy(spends: seq<nat>, n: nat): nat
    requires n <= |spends|
  {
    Capped(Sum(spends[..n]))
  }

  /** Spend `k` is the one that first reaches `p` percent of the cap. */
  predicate FirstReached(cap: nat, p: nat, spends: seq<nat>, k: nat)
    requires k < |spends|
  {
    Reached(cap, p, SpentBy(spends, k + 1)) && !Reached(cap, p, SpentBy(spends, k))
  }

  /** ... which is about the exact total, saturated or not, as far as the thresholds are exact. */
  lemma FirstReachedMeans(cap: nat, p: nat, spends: seq<nat>, k: nat)
    requires k < |spends| && cap * p <= EXACT_LIMIT
    ensures FirstReached(cap, p, spends, k) <==>
              100 * Sum(spends[..k + 1]) >= cap * p && 100 * Sum(spends[..k]) < cap * p
  {
    ReachedBelow(cap, p, SpentBy(spends, k + 1));
    ReachedBelow(cap, p, SpentBy(spends, k));
  }

  /**
   One period with a fixed cap: threshold `p` is announced at the spend that
   first reaches it, and at no other.
   */
  method OnePeriod(cap: nat, period: string, spends: seq<nat>) returns (crossed: seq<seq<nat>>)
    ensures |crossed| == |spends|
    ensures forall k, p :: 0 <= k < |spends| && p in THRESHOLDS ==>
              (p in crossed[k] <==> FirstReached(AtLeastOne(cap), p, spends, k))
    ensures forall j, k, p :: 0 <= j < k < |spends| && p in THRESHOLDS && p in crossed[j] ==> p !in crossed[k]
  {
    hide Reached, Crossed, SpentBy, Sum;
    var limit := AtLeastOne(cap);
    var budget := new MonthlyBudget(cap, period);
    crossed := [];
    NothingSpent(limit, spends);
    for n := 0 to |spends|
      invariant fresh(budget) && budget.cap == limit && |crossed| == n
      invariant budget.spent == SpentBy(spends, n) && budget.alerts == AlertsFor(limit, SpentBy(spends, n))
      invariant forall k, p :: 0 <= k < n && p in THRESHOLDS ==>
                  (p in crossed[k] <==> FirstReached(limit, p, spends, k))
    {
      SpentStep(spends, n);
      SpendKeepsAlerts(limit, SpentBy(spends, n), SpentBy(spends, n + 1));
      var alerts := budget.RecordSpend(spends[n]);
      crossed := crossed + [alerts];
    }
    forall j, k, p | 0 <= j < k < |spends| && p in THRESHOLDS && p in crossed[j] ensures p !in crossed[k] {
      assert FirstReached(limit, p, spends, j);
      ReachedStays(limit, p, spends, j + 1, k);
      assert !FirstReached(limit, p, spends, k);
    }
  }

  lemma NothingSpent(cap: nat, spends: seq<nat>)
    requires cap >= 1
    ensures SpentBy(spends, 0) == 0 && AlertsFor(cap, 0) == []
  {
    CrossedUnrolled([], cap, 0);
  }

  lemma SpentStep(spends: seq<nat>, n: nat)
    requires n < |spends|
    ensures SpentBy(spends, n + 1) == SaturatingAdd(SpentBy(spends, n), spends[n]) >= SpentBy(spends, n)
  {
    SumStep(spends, n);
  }

  lemma ReachedStays(cap: nat, p: nat, spends: seq<nat>, i: nat, j: nat)
    requires i <= j <= |spends| && Reached(cap, p, SpentBy(spends, i))
    ensures Reached(cap, p, SpentBy(spends, j))
  {
    SumGrows(spends, i, j);
  }

  // ------------------------------------------------------------------
  // The burn anomaly detector
  // ------------------------------------------------------------------

  datatype AnomalyKind = Spike | Slope

  datatype AnomalyEvent = AnomalyEvent(kind: AnomalyKind, cost: nat, baseline: nat, spikeFactor: nat,
                                       windowTotal: nat, windowCalls: nat)

  function SatSum(costs: seq<nat>): nat {
    if costs == [] then 0 else SaturatingAdd(SatSum(costs[..|costs| - 1]), costs[|costs| - 1])
  }

  lemma {:induction false} SatSumExactly(costs: seq<nat>)
    ensures SatSum(costs) == Capped(Sum(costs))
  {
    if costs != [] {
      SatSumExactly(costs[..|costs| - 1]);
    }
  }

  /** The last `n` of `costs`, or all of them. */
  function Last(costs: seq<nat>, n: nat): seq<nat> {
    if |costs| <= n then costs else costs[|costs| - n..]
  }

  predicate IsSpike(baseline: nat, spikeFactor: nat, cost: nat) {
    baseline > 0 && spikeFactor > 0 && SaturatingMul(cost, 100) >= SaturatingMul(baseline, spikeFactor)
  }

  datatype Burn = Burn(baseline: nat, spikeFactor: nat, slopeThreshold: nat, windowCalls: nat)

  /** What the costs observed so far say about the last of them: a spike before a slope. */
  function Judged(burn: Burn, observed: seq<nat>): Option<AnomalyEvent>
    requires observed != []
  {
    var cost := observed[|observed| - 1];
    var total := Capped(Sum(Last(observed, burn.windowCalls)));
    if IsSpike(burn.baseline, burn.spikeFactor, cost) then
      Some(AnomalyEvent(Spike, cost, burn.baseline, burn.spikeFactor, total, Min(|observed|, burn.windowCalls)))
    else if burn.windowCalls > 0 && |observed| >= burn.windowCalls && total >= burn.slopeThreshold then
      Some(AnomalyEvent(Slope, cost, burn.baseline, burn.spikeFactor, total, burn.windowCalls))
    else None
  }

  class BurnAnomalyDetector {
    const baseline: nat
    const spikeFactor: nat
    const slopeThreshold: nat
    const windowCalls: nat
    var history: seq<nat>
    ghost var observed: seq<nat>

    /** The history is the window of the last observed costs. */
    ghost predicate Valid()
      reads this
    {
      history == Last(observed, windowCalls)
    }

    function Settings(): Burn {
      Burn(baseline, spikeFactor, slopeThreshold, windowCalls)
    }

    constructor (baseline: nat, spikeFactor: nat, slopeThreshold: nat, windowCalls: nat)
      ensures Valid() && observed == []
      ensures this.baseline == baseline && this.spikeFactor == spikeFactor
      ensures this.slopeThreshold == slopeThreshold && this.windowCalls == windowCalls
    {
      this.baseline, this.spikeFactor, this.slopeThreshold, this.windowCalls :=
        baseline, spikeFactor, slopeThreshold, windowCalls;
      history, observed := [], [];
    }

    /** Take in a cost, and drop the oldest ones beyond the window. */
    method Slide(cost: nat)
      requires Valid()
      modifies this
      ensures Valid() && observed == old(observed) + [cost]
    {
      ghost var all := observed + [cost];
      history := history + [cost];
      while |history| > windowCalls
        invariant |history| <= |all| && history == all[|all| - |history|..]
        invariant |history| >= Min(|all|, windowCalls)
        decreases |history|
      {
        history := history[1..];
      }
      observed := all;
    }

    /** The saturating total of the window. */
    method WindowTotal() returns (total: nat)
      ensures total == Capped(Sum(history))
    {
      hide Capped, Sum;
      total := 0;
      for i := 0 to |history|
        invariant total == SatSum(history[..i])
      {
        assert history[..i + 1][..i] == history[..i];
        total := SaturatingAdd(total, history[i]);
      }
      assert history[..|history|] == history;
      SatSumExactly(history);
    }

    /** Slide the window and judge the new cost; a spike is reported before a slope. */
    method Observe(cost: nat) returns (event: Option<AnomalyEvent>)
      requires Valid()
      modifies this
      ensures Valid() && observed == old(observed) + [cost]
      ensures event == Judged(Settings(), observed)
    {
      hide Sum, Capped, IsSpike;
      Slide(cost);
      var total := WindowTotal();
      if IsSpike(baseline, spikeFactor, cost) {
        return Some(AnomalyEvent(Spike, cost, baseline, spikeFactor, total, |history|));
      }
      if windowCalls > 0 && |history| == windowCalls && total >= slopeThreshold {
        return Some(AnomalyEvent(Slope, cost, baseline, spikeFactor, total, |history|));
      }
      return None;
    }
  }

  // ------------------------------------------------------------------
  // The breakdown by model
  // ------------------------------------------------------------------

  datatype ModelSpend = ModelSpend(model: string, inputTokens: nat, outputTokens: nat, spent: nat, calls: nat)

  type Breakdown = map<string, ModelSpend>

  /** The units spent over all models. */
  ghost function Units(breakdown: Breakdown): nat {
    if breakdown == map[] then 0
    else
      var model :| model in breakdown;
      breakdown[model].spent + Units(breakdown - {model})
  }

  lemma {:induction false} UnitsWithout(breakdown: Breakdown, model: string)
    requires model in breakdown
    ensures Units(breakdown) == breakdown[model].spent + Units(breakdown - {model})
    decreases |breakdown|
  {
    var first :| first in breakdown && Units(breakdown) == breakdown[first].spent + Units(breakdown - {first});
    if first != model {
      UnitsWithout(breakdown - {first}, model);
      UnitsWithout(breakdown - {model}, first);
      assert breakdown - {first} - {model} == breakdown - {model} - {first};
    }
  }

  /** The entry a spend is added to. */
  function EntryFor(breakdown: Breakdown, model: string): ModelSpend {
    if model in breakdown then breakdown[model] else ModelSpend(model, 0, 0, 0, 0)
  }

  function Charged(entry: ModelSpend, input: nat, output: nat, cost: nat): ModelSpend {
    ModelSpend(entry.model, SaturatingAdd(entry.inputTokens, input), SaturatingAdd(entry.outputTokens, output),
               SaturatingAdd(entry.spent, cost), SaturatingAdd(entry.calls, 1))
  }

  /** The budget and the breakdown move together, saturation included. */
  lemma ChargeKeepsTotal(breakdown: Breakdown, model: string, input: nat, output: nat, cost: nat, spent: nat)
    requires spent == Capped(Units(breakdown))
    ensures var after := breakdown[model := Charged(EntryFor(breakdown, model), input, output, cost)];
            SaturatingAdd(spent, cost) == Capped(Units(after))
  {
    var after := breakdown[model := Charged(EntryFor(breakdown, model), input, output, cost)];
    UnitsWithout(after, model);
    assert after - {model} == breakdown - {model};
    if model in breakdown {
      UnitsWithout(breakdown, model);
    } else {
      assert breakdown - {model} == breakdown;
    }
  }

  // ------------------------------------------------------------------
  // Reports
  // ------------------------------------------------------------------

  /** Text order by character. */
  predicate Less(a: string, b: string) {
    b != "" && (a == "" || a[0] < b[0] || (a[0] == b[0] && Less(a[1..], b[1..])))
  }

  lemma {:induction false} LessTotal(a: string, b: string)
    ensures Less(a, b) || Less(b, a) || a == b
  {
    if a != "" && b != "" && a[0] == b[0] {
      LessTotal(a[1..], b[1..]);
      assert a == [a[0]] + a[1..] && b == [b[0]] + b[1..];
    }
  }

  predicate SortedByModel(entries: seq<ModelSpend>) {
    |entries| <= 1 || (Less(entries[0].model, entries[1].model) && SortedByModel(entries[1..]))
  }

  function Insert(entries: seq<ModelSpend>, entry: ModelSpend): seq<ModelSpend> {
    if entries == [] || Less(entry.model, entries[0].model) then [entry] + entries
    else [entries[0]] + Insert(entries[1..], entry)
  }

  lemma {:induction false} InsertSorted(entries: seq<ModelSpend>, entry: ModelSpend)
    requires SortedByModel(entries) && forall i :: 0 <= i < |entries| ==> entries[i].model != entry.model
    ensures SortedByModel(Insert(entries, entry))
    ensures forall e :: e in Insert(entries, entry) <==> e == entry || e in entries
  {
    if entries != [] && !Less(entry.model, entries[0].model) {
      LessTotal(entry.model, entries[0].model);
      InsertSorted(entries[1..], entry);
      assert entries == [entries[0]] + entries[1..];
    }
  }

  datatype Report = Report(period: string, cap: nat, spent: nat, anomalies: seq<AnomalyEvent>, halts: nat,
                           breakdown: seq<ModelSpend>)

  /** What a ledger holds, apart from its detector's history. */
  datatype LedgerView = LedgerView(period: string, cap: nat, spent: nat, alerts: seq<nat>, anomalies: seq<AnomalyEvent>,
                                   halts: nat, breakdown: Breakdown)

  /** The report lists the breakdown, sorted, and copies the rest. */
  ghost predicate Reports(report: Report, view: LedgerView) {
    && report.period == view.period && report.cap == view.cap && report.spent == view.spent
    && report.anomalies == view.anomalies && report.halts == view.halts
    && Lists(report.breakdown, view.breakdown) && SortedByModel(report.breakdown)
  }

  ghost predicate Lists(entries: seq<ModelSpend>, breakdown: Breakdown) {
    && (forall i :: 0 <= i < |entries| ==> entries[i].model in breakdown && breakdown[entries[i].model] == entries[i])
    && (forall model :: model in breakdown ==> breakdown[model] in entries)
  }

  function BreakdownOf(entries: seq<ModelSpend>): Breakdown {
    if entries == [] then map[]
    else BreakdownOf(entries[..|entries| - 1])[entries[|entries| - 1].model := entries[|entries| - 1]]
  }

  lemma {:induction false} BreakdownOfMeans(entries: seq<ModelSpend>)
    ensures forall i :: 0 <= i < |entries| ==> entries[i].model in BreakdownOf(entries)
    ensures forall model :: model in BreakdownOf(entries) ==>
              BreakdownOf(entries)[model] in entries && BreakdownOf(entries)[model].model == model
  {
    if entries != [] {
      BreakdownOfMeans(entries[..|entries| - 1]);
    }
  }

  lemma BreakdownRebuilt(entries: seq<ModelSpend>, breakdown: Breakdown)
    requires Lists(entries, breakdown) && forall model :: model in breakdown ==> breakdown[model].model == model
    ensures BreakdownOf(entries) == breakdown
  {
    BreakdownOfMeans(entries);
    hide BreakdownOf;
    forall model | model in breakdown ensures model in BreakdownOf(entries) {
      var i :| 0 <= i < |entries| && entries[i] == breakdown[model];
    }
  }

  /** What a report restores: the alerts are recomputed from cap and spend. */
  function Restored(report: Report): LedgerView {
    LedgerView(report.period, AtLeastOne(report.cap), report.spent, AlertsFor(AtLeastOne(report.cap), report.spent),
               report.anomalies, report.halts, BreakdownOf(report.breakdown))
  }

  /** Restoring a report gives the ledger back iff its alerts are those of its present cap. */
  lemma ReportRoundTrip(report: Report, view: LedgerView)
    requires Reports(report, view) && view.cap >= 1
    requires forall model :: model in view.breakdown ==> view.breakdown[model].model == model
    ensures Restored(report) == view <==> view.alerts == AlertsFor(view.cap, view.spent)
    ensures Restored(report) == view.(alerts := AlertsFor(view.cap, view.spent))
  {
    BreakdownRebuilt(report.breakdown, view.breakdown);
  }

  /** A cap change keeps the alerts restorable iff it moves no threshold across the present spend. */
  lemma CapChangeRestorable(cap: nat, changed: nat, spent: nat)
    ensures AlertsFor(cap, spent) == AlertsFor(changed, spent) <==>
            forall p :: p in THRESHOLDS ==> (Reached(cap, p, spent) <==> Reached(changed, p, spent))
  {
    hide Reached;
    CrossedUnrolled([], cap, spent);
    CrossedUnrolled([], changed, spent);
    if forall p :: p in THRESHOLDS ==> (Reached(cap, p, spent) <==> Reached(changed, p, spent)) {
      assert 70 in THRESHOLDS && 100 in THRESHOLDS && 120 in THRESHOLDS;
    } else {
      var p :| p in THRESHOLDS && (Reached(cap, p, spent) != Reached(changed, p, spent));
      assert p in AlertsFor(cap, spent) <==> Reached(cap, p, spent);
      assert p in AlertsFor(changed, spent) <==> Reached(changed, p, spent);
    }
  }

  /** ... as raising a cap of 100 to 1000 after 80 units were spent does. */
  lemma RaisedCapIsNotRestored()
    ensures AlertsFor(100, 80) == [70] && AlertsFor(1000, 80) == []
  {
    CrossedUnrolled([], 100, 80);
    CrossedUnrolled([], 1000, 80);
  }

  // ------------------------------------------------------------------
  // The ledger
  // ------------------------------------------------------------------

  /** The thresholds a spend newly reaches. */
  function NewAlerts(view: LedgerView, cost: nat): seq<nat> {
    Crossed(view.alerts, view.cap, SaturatingAdd(view.spent, cost), 3)
  }

  /** A ledger after one charged call: an anomaly, or else an exceeded cap, counts as a halt. */
  function Charge(view: LedgerView, judged: Option<AnomalyEvent>, model: string, input: nat, output: nat,
                  cost: nat): LedgerView {
    var spent := SaturatingAdd(view.spent, cost);
    view.(spent := spent,
          alerts := view.alerts + NewAlerts(view, cost),
          breakdown := view.breakdown[model := Charged(EntryFor(view.breakdown, model), input, output, cost)],
          anomalies := if judged.Some? then view.anomalies + [judged.value] else view.anomalies,
          halts := if judged.Some? || spent > view.cap then Min(view.halts + 1, U32_MAX) else view.halts)
  }

  datatype Violation = AnomalyDetected | OverMonthlyCap | ProviderTokenMismatch

  class AgentFuelLedger {
    const budget: MonthlyBudget
    const detector: BurnAnomalyDetector
    var anomalies: seq<AnomalyEvent>
    var halts: nat
    var breakdown: Breakdown

    ghost predicate Valid()
      reads this, budget, detector
    {
      && detector.Valid() && budget.cap >= 1
      && budget.spent == Capped(Units(breakdown))
      && (forall model :: model in breakdown ==> breakdown[model].model == model)
    }

    function View(): LedgerView
      reads this, budget
    {
      LedgerView(budget.period, budget.cap, budget.spent, budget.alerts, anomalies, halts, breakdown)
    }

    constructor (period: string, cap: nat, detector: BurnAnomalyDetector)
      requires detector.Valid()
      ensures Valid() && fresh(budget) && this.detector == detector
      ensures View() == LedgerView(period, AtLeastOne(cap), 0, [], [], 0, map[])
    {
      budget := new MonthlyBudget(cap, period);
      this.detector, anomalies, halts, breakdown := detector, [], 0, map[];
    }

    /** Rebuild a ledger from a report; the detector starts afresh. */
    constructor FromReport(report: Report)
      ensures report.spent == Capped(Units(BreakdownOf(report.breakdown))) ==> Valid()
      ensures fresh(budget) && fresh(detector) && View() == Restored(report)
    {
      var cap := AtLeastOne(report.cap);
      var alerts := [];
      for i := 0 to |THRESHOLDS|
        invariant alerts == Crossed([], cap, report.spent, i)
      {
        if Reached(cap, THRESHOLDS[i], report.spent) {
          alerts := alerts + [THRESHOLDS[i]];
        }
      }
      var entries: Breakdown := map[];
      for i := 0 to |report.breakdown|
        invariant entries == BreakdownOf(report.breakdown[..i])
      {
        assert report.breakdown[..i + 1][..i] == report.breakdown[..i];
        entries := entries[report.breakdown[i].model := report.breakdown[i]];
      }
      assert report.breakdown[..|report.breakdown|] == report.breakdown;
      BreakdownOfMeans(report.breakdown);
      budget := new MonthlyBudget.Restored(cap, report.spent, report.period, alerts);
      detector := new BurnAnomalyDetector(100, 500, 1200, 4);
      anomalies, halts, breakdown := report.anomalies, report.halts, entries;
    }

    method SetPeriod(period: string) returns (changed: bool)
      requires Valid()
      modifies this, budget
      ensures Valid()
      ensures changed == (old(budget.period) != period)
      ensures View() == if changed then LedgerView(period, old(budget.cap), 0, [], [], 0, map[]) else old(View())
    {
      changed := budget.SetPeriod(period);
      if changed {
        anomalies, halts, breakdown := [], 0, map[];
      }
    }

    method SetCap(cap: nat)
      requires Valid()
      modifies budget
      ensures Valid() && View() == old(View()).(cap := AtLeastOne(cap))
    {
      budget.cap := AtLeastOne(cap);
    }

    /** Charge one model call and announce the thresholds it crosses. */
    method RecordLlmSpend(model: string, input: nat, output: nat, cost: nat)
      returns (violation: Option<Violation>, crossed: seq<nat>)
      requires Valid()
      modifies this, budget, detector
      ensures Valid() && detector.observed == old(detector.observed) + [cost]
      ensures var judged := Judged(detector.Settings(), detector.observed);
              && View() == Charge(old(View()), judged, model, input, output, cost)
              && violation == (if judged.Some? then Some(AnomalyDetected)
                               else if View().spent > View().cap then Some(OverMonthlyCap) else None)
      ensures crossed == NewAlerts(old(View()), cost)
    {
      hide Units, Crossed, IsSpike, Judged;
      ChargeKeepsTotal(breakdown, model, input, output, cost, budget.spent);
      crossed := budget.RecordSpend(cost);
      breakdown := breakdown[model := Charged(EntryFor(breakdown, model), input, output, cost)];
      var anomaly := detector.Observe(cost);
      if anomaly.Some? {
        anomalies := anomalies + [anomaly.value];
        halts := Min(halts + 1, U32_MAX);
        return Some(AnomalyDetected), crossed;
      }
      if budget.spent > budget.cap {
        halts := Min(halts + 1, U32_MAX);
        return Some(OverMonthlyCap), crossed;
      }
      return None, crossed;
    }

    method RegisterViolation()
      requires Valid()
      modifies this
      ensures Valid() && View() == old(View()).(halts := Min(old(halts) + 1, U32_MAX))
    {
      halts := Min(halts + 1, U32_MAX);
    }

    /** The report of this ledger, its breakdown sorted by model. */
    method Snapshot() returns (report: Report)
      requires Valid()
      ensures Reports(report, View())
    {
      var entries: seq<ModelSpend> := [];
      var todo := breakdown.Keys;
      while todo != {}
        invariant todo <= breakdown.Keys && SortedByModel(entries)
        invariant forall e :: e in entries ==> e.model in breakdown && e.model !in todo && breakdown[e.model] == e
        invariant forall model :: model in breakdown && model !in todo ==> breakdown[model] in entries
        decreases todo
      {
        var model :| model in todo;
        InsertSorted(entries, breakdown[model]);
        entries := Insert(entries, breakdown[model]);
        todo := todo - {model};
      }
      return Report(budget.period, budget.cap, budget.spent, anomalies, halts, entries);
    }
  }

  // ------------------------------------------------------------------
  // Whole runs
  // ------------------------------------------------------------------

  datatype Call =
    | SpendCall(model: string, input: nat, output: nat, cost: nat)
    | PeriodCall(period: string)
    | CapCall(cap: nat)
    | ViolationCall

  datatype Setup = Setup(period: string, cap: nat, burn: Burn)

  /** A ledger on paper, and the costs its detector observed. */
  datatype Account = Account(view: LedgerView, observed: seq<nat>)

  function Opening(setup: Setup): Account {
    Account(LedgerView(setup.period, AtLeastOne(setup.cap), 0, [], [], 0, map[]), [])
  }

  /** Whether a call starts a new period. */
  predicate Renews(account: Account, call: Call) {
    call.PeriodCall? && call.period != account.view.period
  }

  function Next(burn: Burn, account: Account, call: Call): Account {
    var view := account.view;
    match call
    case SpendCall(model, input, output, cost) =>
      var observed := account.observed + [cost];
      Account(Charge(view, Judged(burn, observed), model, input, output, cost), observed)
    case PeriodCall(period) =>
      if Renews(account, call) then account.(view := LedgerView(period, view.cap, 0, [], [], 0, map[])) else account
    case CapCall(cap) => account.(view := view.(cap := AtLeastOne(cap)))
    case ViolationCall => account.(view := view.(halts := Min(view.halts + 1, U32_MAX)))
  }

  function After(setup: Setup, calls: seq<Call>): Account {
    if calls == [] then Opening(setup)
    else Next(setup.burn, After(setup, calls[..|calls| - 1]), calls[|calls| - 1])
  }

  lemma AfterStep(setup: Setup, calls: seq<Call>, n: nat)
    requires n < |calls|
    ensures After(setup, calls[..n + 1]) == Next(setup.burn, After(setup, calls[..n]), calls[n])
  {
    assert calls[..n + 1][..n] == calls[..n];
  }

  /** The thresholds call `k` announces. */
  function Announces(setup: Setup, calls: seq<Call>, k: nat): seq<nat>
    requires k < |calls|
  {
    if calls[k].SpendCall? then NewAlerts(After(setup, calls[..k]).view, calls[k].cost) else []
  }

  /** No call after `j` and before `k` starts a new period. */
  ghost predicate SamePeriod(setup: Setup, calls: seq<Call>, j: nat, k: nat)
    requires k <= |calls|
  {
    forall i :: j < i < k ==> !RenewsAt(setup, calls, i)
  }

  predicate RenewsAt(setup: Setup, calls: seq<Call>, i: nat)
    requires i < |calls|
  {
    Renews(After(setup, calls[..i]), calls[i])
  }

  /** Threshold `p` was announced in the period that is current after the first `n` calls. */
  ghost predicate Announced(setup: Setup, calls: seq<Call>, n: nat, p: nat)
    requires n <= |calls|
  {
    exists j :: 0 <= j < n && p in Announces(setup, calls, j) && SamePeriod(setup, calls, j, n)
  }

  lemma CrossedFresh(alerts: seq<nat>, cap: nat, spent: nat, p: nat)
    ensures p in Crossed(alerts, cap, spent, 3) <==> p in THRESHOLDS && p !in alerts && Reached(cap, p, spent)
  {
    hide Reached;
    CrossedUnrolled(alerts, cap, spent);
    if p == 70 {
      assert THRESHOLDS[0] == p;
    } else if p == 100 {
      assert THRESHOLDS[1] == p;
    } else if p == 120 {
      assert THRESHOLDS[2] == p;
    }
  }

  /** One call adds what it announces, and forgets the rest only with its period. */
  lemma NextAlerts(burn: Burn, account: Account, call: Call, p: nat)
    ensures p in Next(burn, account, call).view.alerts <==>
            || (call.SpendCall? && p in NewAlerts(account.view, call.cost))
            || (p in account.view.alerts && !Renews(account, call))
  {
    hide NewAlerts, Judged, Charged, EntryFor;
  }

  lemma NothingAnnounced(setup: Setup, calls: seq<Call>, p: nat)
    ensures After(setup, calls[..0]).view.alerts == [] && !Announced(setup, calls, 0, p)
  {
    hide Next;
    assert calls[..0] == [];
  }

  /** The emitted alerts are exactly what was announced in the current period. */
  lemma {:induction false} AlertsAreAnnounced(setup: Setup, calls: seq<Call>, n: nat, p: nat)
    requires n <= |calls|
    ensures p in After(setup, calls[..n]).view.alerts <==> Announced(setup, calls, n, p)
  {
    hide Next, After, Announced, NewAlerts, Renews;
    if n == 0 {
      NothingAnnounced(setup, calls, p);
    } else {
      NextAlerts(setup.burn, After(setup, calls[..n - 1]), calls[n - 1], p);
      AlertsAreAnnounced(setup, calls, n - 1, p);
      AfterStep(setup, calls, n - 1);
      AnnouncedStep(setup, calls, n - 1, p);
    }
  }

  lemma AnnouncedStep(setup: Setup, calls: seq<Call>, n: nat, p: nat)
    requires n < |calls|
    ensures Announced(setup, calls, n + 1, p) <==>
              p in Announces(setup, calls, n) || (Announced(setup, calls, n, p) && !RenewsAt(setup, calls, n))
  {
    hide Announces, RenewsAt;
    if p in Announces(setup, calls, n) {
      assert SamePeriod(setup, calls, n, n + 1);
    }
    if Announced(setup, calls, n, p) && !RenewsAt(setup, calls, n) {
      var j :| 0 <= j < n && p in Announces(setup, calls, j) && SamePeriod(setup, calls, j, n);
      assert SamePeriod(setup, calls, j, n + 1);
    }
    if Announced(setup, calls, n + 1, p) {
      var j :| 0 <= j < n + 1 && p in Announces(setup, calls, j) && SamePeriod(setup, calls, j, n + 1);
      assert j < n ==> SamePeriod(setup, calls, j, n);
    }
  }

  /** Over any calls, cap changes included, a threshold is announced at most once in a period. */
  lemma OncePerPeriod(setup: Setup, calls: seq<Call>, j: nat, k: nat, p: nat)
    requires j < k < |calls| && SamePeriod(setup, calls, j, k)
    requires p in Announces(setup, calls, j)
    ensures p !in Announces(setup, calls, k)
  {
    assert Announced(setup, calls, k, p);
    AlertsAreAnnounced(setup, calls, k, p);
    if calls[k].SpendCall? {
      var view := After(setup, calls[..k]).view;
      CrossedFresh(view.alerts, view.cap, SaturatingAdd(view.spent, calls[k].cost), p);
    }
  }

  /** Alerts are emitted in threshold order, so they are the first few thresholds. */
  predicate FirstFew(alerts: seq<nat>) {
    alerts == [] || alerts == [70] || alerts == [70, 100] || alerts == [70, 100, 120]
  }

  lemma CrossedFirstFew(alerts: seq<nat>, cap: nat, spent: nat)
    requires FirstFew(alerts)
    ensures FirstFew(alerts + Crossed(alerts, cap, spent, 3))
  {
    ThresholdsGrow(cap, 70, 100);
    ThresholdsGrow(cap, 100, 120);
    CrossedUnrolled(alerts, cap, spent);
    hide PercentCeiling, Crossed;
    if alerts == [] {
    } else if alerts == [70] {
    } else if alerts == [70, 100] {
    }
  }

  lemma {:induction false} AlertsAreFirstFew(setup: Setup, calls: seq<Call>)
    ensures FirstFew(After(setup, calls).view.alerts)
  {
    if calls != [] {
      hide Crossed, FirstFew;
      AlertsAreFirstFew(setup, calls[..|calls| - 1]);
      var view, call := After(setup, calls[..|calls| - 1]).view, calls[|calls| - 1];
      if call.SpendCall? {
        CrossedFirstFew(view.alerts, view.cap, SaturatingAdd(view.spent, call.cost));
      }
      NoneIsFirstFew();
    } else {
      NoneIsFirstFew();
    }
  }

  lemma NoneIsFirstFew()
    ensures FirstFew([])
  {
  }

  /** Emitted alerts are those of the present cap iff they agree with it on every threshold. */
  lemma AlertsExactly(alerts: seq<nat>, cap: nat, spent: nat)
    requires FirstFew(alerts)
    ensures alerts == AlertsFor(cap, spent) <==> forall p :: p in THRESHOLDS ==> (p in alerts <==> Reached(cap, p, spent))
  {
    ThresholdsGrow(cap, 70, 100);
    ThresholdsGrow(cap, 100, 120);
    CrossedUnrolled([], cap, spent);
    hide PercentCeiling, Crossed;
    assert THRESHOLDS[0] == 70 && THRESHOLDS[1] == 100 && THRESHOLDS[2] == 120;
  }

  /** What decides whether the report of a run restores its ledger. */
  ghost predicate Restorable(setup: Setup, calls: seq<Call>) {
    var view := After(setup, calls).view;
    forall p :: p in THRESHOLDS ==> (Announced(setup, calls, |calls|, p) <==> Reached(view.cap, p, view.spent))
  }

  /** The report of a run restores its ledger iff exactly the thresholds its cap has now were announced in its period. */
  lemma RestorableExactly(setup: Setup, calls: seq<Call>)
    ensures var view := After(setup, calls).view;
            view.alerts == AlertsFor(view.cap, view.spent) <==> Restorable(setup, calls)
  {
    hide Announced, Reached;
    var view := After(setup, calls).view;
    AlertsAreFirstFew(setup, calls);
    AlertsExactly(view.alerts, view.cap, view.spent);
    assert calls[..|calls|] == calls;
    forall p ensures p in view.alerts <==> Announced(setup, calls, |calls|, p) {
      AlertsAreAnnounced(setup, calls, |calls|, p);
    }
  }

  /** As long as the cap is left alone that is always so. */
  lemma {:induction false} FixedCapRestores(setup: Setup, calls: seq<Call>)
    requires forall i :: 0 <= i < |calls| ==> !calls[i].CapCall?
    ensures Restorable(setup, calls) && After(setup, calls).view.cap == AtLeastOne(setup.cap)
  {
    RestorableExactly(setup, calls);
    hide Crossed, Restorable;
    if calls == [] {
      NothingSpent(AtLeastOne(setup.cap), []);
    } else {
      var front, call := calls[..|calls| - 1], calls[|calls| - 1];
      FixedCapRestores(setup, front);
      RestorableExactly(setup, front);
      var view := After(setup, front).view;
      NothingSpent(view.cap, []);
      if call.SpendCall? {
        SpentFits(setup, front);
        SpendKeepsAlerts(view.cap, view.spent, SaturatingAdd(view.spent, call.cost));
      }
    }
  }

  lemma {:induction false} SpentFits(setup: Setup, calls: seq<Call>)
    ensures After(setup, calls).view.spent <= U64_MAX
  {
    if calls != [] {
      SpentFits(setup, calls[..|calls| - 1]);
    }
  }

  /** A ledger and what it is on paper. */
  ghost predicate Agrees(ledger: AgentFuelLedger, burn: Burn, account: Account)
    reads ledger, ledger.budget, ledger.detector
  {
    && ledger.Valid() && ledger.View() == account.view && ledger.detector.observed == account.observed
    && ledger.detector.Settings() == burn
  }

  method Step(ledger: AgentFuelLedger, call: Call, ghost burn: Burn, ghost account: Account) returns (announced: seq<nat>)
    requires Agrees(ledger, burn, account)
    modifies ledger, ledger.budget, ledger.detector
    ensures Agrees(ledger, burn, Next(burn, account, call))
    ensures announced == if call.SpendCall? then NewAlerts(account.view, call.cost) else []
  {
    hide Units, Crossed, Judged;
    announced := [];
    match call {
      case SpendCall(model, input, output, cost) =>
        var violation;
        violation, announced := ledger.RecordLlmSpend(model, input, output, cost);
      case PeriodCall(period) => var changed := ledger.SetPeriod(period);
      case CapCall(cap) => ledger.SetCap(cap);
      case ViolationCall => ledger.RegisterViolation();
    }
  }

  /**
   Any run: call by call the ledger is what it is on paper and announces what
   `Announces` says; its spend is the sum of its breakdown; and its report
   restores it exactly when `Restorable` says so.
   */
  method AnyRun(setup: Setup, calls: seq<Call>) returns (announced: seq<seq<nat>>, report: Report, view: LedgerView)
    ensures |announced| == |calls| && forall k :: 0 <= k < |calls| ==> announced[k] == Announces(setup, calls, k)
    ensures view == After(setup, calls).view && view.spent == Capped(Units(view.breakdown))
    ensures Reports(report, view) && (Restored(report) == view <==> Restorable(setup, calls))
  {
    hide Crossed, Units, Next, After, NewAlerts, Judged, Restorable, AlertsFor;
    var detector := new BurnAnomalyDetector(setup.burn.baseline, setup.burn.spikeFactor, setup.burn.slopeThreshold,
                                            setup.burn.windowCalls);
    var ledger := new AgentFuelLedger(setup.period, setup.cap, detector);
    announced := [];
    assert After(setup, []) == Opening(setup) by {
      OpensEmpty(setup);
    }
    assert calls[..0] == [];
    for n := 0 to |calls|
      invariant fresh(ledger) && fresh(ledger.budget) && fresh(ledger.detector)
      invariant Agrees(ledger, setup.burn, After(setup, calls[..n])) && |announced| == n
      invariant forall k :: 0 <= k < n ==> announced[k] == Announces(setup, calls, k)
    {
      AfterStep(setup, calls, n);
      var alerts := Step(ledger, calls[n], setup.burn, After(setup, calls[..n]));
      announced := announced + [alerts];
    }
    assert calls[..|calls|] == calls;
    report := ledger.Snapshot();
    view := ledger.View();
    ReportRoundTrip(report, view);
    RestorableExactly(setup, calls);
  }

  lemma OpensEmpty(setup: Setup)
    ensures After(setup, []) == Opening(setup)
  {
  }
}
