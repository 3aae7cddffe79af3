/**
 The input rate limiter (kernel/src/computer_control.rs, `ComputerControlEngine`).
 The clock is read as the source reads it, twice for an executed action, and
 never goes back; `performed` are the times at which actions were passed on.
 */
module ComputerControl {
  import opened Common

  const DEFAULT_INPUT_RATE_LIMIT: nat := 100
  const WINDOW: nat := 60

  /** How many of `times` lie in the closed window that opens at `w`. */
  function InWindow(times: seq<nat>, w: nat): nat {
    if times == [] then 0
    else
      var last := times[|times| - 1];
      InWindow(times[..|times| - 1], w) + if w <= last <= w + WINDOW then 1 else 0
  }

  /** How many of `times` are `lo` or later. */
  function CountFrom(times: seq<nat>, lo: nat): nat {
    if times == [] then 0
    else CountFrom(times[..|times| - 1], lo) + if lo <= times[|times| - 1] then 1 else 0
  }

  lemma CountAppend(times: seq<nat>, t: nat, w: nat)
    ensures InWindow(times + [t], w) == InWindow(times, w) + if w <= t <= w + WINDOW then 1 else 0
    ensures CountFrom(times + [t], w) == CountFrom(times, w) + if w <= t then 1 else 0
  {
    assert (times + [t])[..|times|] == times;
  }

  lemma {:induction false} WindowAtMostFrom(times: seq<nat>, w: nat)
    ensures InWindow(times, w) <= CountFrom(times, w)
  {
    if times != [] {
      WindowAtMostFrom(times[..|times| - 1], w);
    }
  }

  /** A stale prefix does not count, and the rest counts at most its length. */
  lemma {:induction false} CountFromSuffix(times: seq<nat>, stale: nat, lo: nat)
    requires stale <= |times| && forall i :: 0 <= i < stale ==> times[i] < lo
    ensures CountFrom(times, lo) <= |times| - stale
    ensures (forall i :: stale <= i < |times| ==> lo <= times[i]) ==> CountFrom(times, lo) == |times| - stale
  {
    if times != [] {
      var front := times[..|times| - 1];
      CountFromSuffix(front, if stale < |times| then stale else |front|, lo);
    }
  }

  /** `now` less the window, saturating at zero. */
  function WindowStart(now: nat): nat {
    if now < WINDOW then 0 else now - WINDOW
  }

  ghost predicate Sorted(times: seq<nat>, clock: nat) {
    && (forall i, j :: 0 <= i <= j < |times| ==> times[i] <= times[j])
    && (forall i :: 0 <= i < |times| ==> times[i] <= clock)
  }

  /** `recent` is what is left of `times` once some stale entries were dropped from the front. */
  ghost predicate Recent(recent: seq<nat>, times: seq<nat>, clock: nat) {
    && |recent| <= |times| && recent == times[|times| - |recent|..]
    && forall i :: 0 <= i < |times| - |recent| ==> times[i] < WindowStart(clock)
  }

  /** Every window holds at most `bound` performed actions, each of them recorded. */
  ghost predicate WithinLimit(performed: seq<nat>, times: seq<nat>, bound: nat) {
    && (forall w: nat :: InWindow(performed, w) <= bound)
    && (forall w: nat :: CountFrom(performed, w) <= CountFrom(times, w))
  }

  lemma RecordKeepsLimit(performed: seq<nat>, times: seq<nat>, t: nat, bound: nat)
    requires WithinLimit(performed, times, bound)
    ensures WithinLimit(performed, times + [t], bound)
  {
    forall w: nat ensures CountFrom(performed, w) <= CountFrom(times + [t], w) {
      CountAppend(times, t, w);
    }
  }

  /** An action performed at `t`, with fewer than `max` fresh entries when it was checked. */
  lemma PerformKeepsLimit(performed: seq<nat>, times: seq<nat>, recent: seq<nat>, checked: nat, t: nat, max: nat,
                          bound: nat)
    requires WithinLimit(performed, times, bound) && Recent(recent, times, checked)
    requires checked <= t && |recent| < max <= bound
    ensures WithinLimit(performed + [t], times + [t], bound)
  {
    forall w: nat ensures InWindow(performed + [t], w) <= bound {
      CountAppend(performed, t, w);
      if w <= t <= w + WINDOW {
        WindowAtMostFrom(performed, w);
        CountFromSuffix(times, |times| - |recent|, w);
      }
    }
    forall w: nat ensures CountFrom(performed + [t], w) <= CountFrom(times + [t], w) {
      CountAppend(performed, t, w);
      CountAppend(times, t, w);
    }
  }

  lemma RecentGrows(recent: seq<nat>, times: seq<nat>, clock: nat, t: nat)
    requires Recent(recent, times, clock) && clock <= t
    ensures Recent(recent + [t], times + [t], t)
  {
  }

  lemma SortedGrows(times: seq<nat>, clock: nat)
    requires Sorted(times, clock)
    ensures Sorted(times + [clock], clock)
  {
  }

  /** Whenever it is read later, the window holds no more than was kept. */
  lemma KeptIsEnough(recent: seq<nat>, times: seq<nat>, checked: nat, now: nat)
    requires Recent(recent, times, checked) && checked <= now
    ensures CountFrom(times, WindowStart(now)) <= |recent|
  {
    CountFromSuffix(times, |times| - |recent|, WindowStart(now));
  }

  datatype ActionRecord = ActionRecord(timestamp: nat, success: bool)

  datatype Refusal = Disabled | KillSwitch | RateLimited | ActionFailed

  function Times(history: seq<ActionRecord>): seq<nat> {
    if history == [] then [] else Times(history[..|history| - 1]) + [history[|history| - 1].timestamp]
  }

  lemma DropOldest(recent: seq<nat>, times: seq<nat>, clock: nat)
    requires Recent(recent, times, clock) && |recent| > 0 && recent[0] < WindowStart(clock)
    ensures Recent(recent[1..], times, clock)
  {
    var at := |times| - |recent|;
    assert recent[0] == times[at];
    assert recent[1..] == times[at + 1..];
  }

  /** With nothing stale left in front, what is kept is exactly the window. */
  lemma AllFresh(recent: seq<nat>, times: seq<nat>, clock: nat)
    requires Sorted(times, clock) && Recent(recent, times, clock)
    requires |recent| > 0 ==> recent[0] >= WindowStart(clock)
    ensures |recent| == CountFrom(times, WindowStart(clock))
  {
    var at := |times| - |recent|;
    assert |recent| > 0 ==> recent[0] == times[at];
    CountFromSuffix(times, at, WindowStart(clock));
  }

  lemma NothingRecorded(clock: nat)
    ensures Times([]) == [] && Sorted([], clock) && Recent([], [], clock)
  {
  }

  class ComputerControlEngine {
    var enabled: bool
    var history: seq<ActionRecord>
    var max: nat
    var recent: seq<nat>
    // Outside: the clock, and the input actions passed on to the operating system.
    var clock: nat
    var performed: seq<nat>

    ghost predicate Valid()
      reads this
    {
      max >= 1 && Sorted(Times(history), clock) && Recent(recent, Times(history), clock)
    }

    constructor (clock: nat)
      ensures Valid() && !enabled && history == [] && performed == [] && max == DEFAULT_INPUT_RATE_LIMIT
    {
      enabled, history, max, recent := false, [], DEFAULT_INPUT_RATE_LIMIT, [];
      this.clock, performed := clock, [];
      new;
      NothingRecorded(clock);
    }

    method Now() returns (now: nat)
      modifies this`clock
      ensures now == clock && clock >= old(clock)
    {
      var elapsed: int := *;
      if elapsed > 0 {
        clock := clock + elapsed;
      }
      now := clock;
    }

    /** Drop what is older than the window, from the front. */
    method EvictStale() returns (ghost now: nat)
      requires Valid()
      modifies this`clock, this`recent
      ensures Valid() && now == clock >= old(clock)
      ensures |recent| == CountFrom(Times(history), WindowStart(now))
    {
      hide Sorted, Recent, CountFrom, Times;
      now := LaterNow();
      var start := WindowStart(clock);
      ghost var times := Times(history);
      while |recent| > 0 && recent[0] < start
        invariant clock == now && Recent(recent, times, clock)
        decreases |recent|
      {
        DropOldest(recent, times, clock);
        recent := recent[1..];
      }
      AllFresh(recent, times, clock);
    }

    /** Refuse exactly when the last 60 seconds already hold `max` recorded actions. */
    method RateLimitCheck() returns (ok: bool, ghost now: nat)
      requires Valid()
      modifies this`clock, this`recent
      ensures Valid() && now == clock >= old(clock)
      ensures ok <==> CountFrom(Times(history), WindowStart(now)) < max
      ensures ok <==> |recent| < max
    {
      now := EvictStale();
      ok := |recent| < max;
    }

    /** Record an action at `now`. */
    method Append(now: nat, success: bool) returns (record: ActionRecord)
      requires Valid() && now == clock
      modifies this`history, this`recent
      ensures Valid() && history == old(history) + [record] && record == ActionRecord(now, success)
      ensures Times(history) == Times(old(history)) + [now]
    {
      hide Sorted, Recent, Times;
      record := ActionRecord(now, success);
      RecentGrows(recent, Times(history), clock, now);
      SortedGrows(Times(history), clock);
      TimesGrow(history, record);
      history := history + [record];
      recent := recent + [now];
    }

    method Execute(ghost bound: nat) returns (r: Result<ActionRecord, Refusal>)
      requires Valid() && max <= bound && WithinLimit(performed, Times(history), bound)
      modifies this`clock, this`recent, this`history, this`performed
      ensures Valid() && clock >= old(clock) && WithinLimit(performed, Times(history), bound)
      ensures !enabled ==> r == Err(Disabled)
      ensures r.Err? && !r.error.ActionFailed? ==> history == old(history) && performed == old(performed)
      ensures r == Err(RateLimited) ==> CountFrom(Times(history), WindowStart(clock)) >= max
      ensures r.Ok? || r == Err(ActionFailed) ==>
                && CountFrom(Times(old(history)), WindowStart(clock)) < max
                && performed == old(performed) + [clock] && history == old(history) + [ActionRecord(clock, r.Ok?)]
    {
      hide WithinLimit, Sorted, Recent, Times, CountFrom, WindowStart;
      if !enabled {
        return Err(Disabled);
      }
      var killed: bool := *;
      if killed {
        return Err(KillSwitch);
      }
      var ok, checked := RateLimitCheck();
      if !ok {
        return Err(RateLimited);
      }
      var record := PassOn(bound);
      return if record.success then Ok(record) else Err(ActionFailed);
    }

    /** The check passed: read the clock, pass the action on, and record it. */
    method PassOn(ghost bound: nat) returns (record: ActionRecord)
      requires Valid() && |recent| < max <= bound && WithinLimit(performed, Times(history), bound)
      modifies this`clock, this`recent, this`history, this`performed
      ensures Valid() && clock >= old(clock) && WithinLimit(performed, Times(history), bound)
      ensures CountFrom(Times(old(history)), WindowStart(clock)) < max
      ensures record.timestamp == clock && performed == old(performed) + [clock] && history == old(history) + [record]
    {
      hide WithinLimit, Sorted, Recent, Times;
      ghost var checked := clock;
      var now := LaterNow();
      PerformKeepsLimit(performed, Times(history), recent, checked, now, max, bound);
      KeptIsEnough(recent, Times(history), checked, now);
      performed := performed + [now];
      var success: bool := *;
      record := Append(now, success);
    }

    /** Read the clock again; nothing recorded becomes younger. */
    method LaterNow() returns (now: nat)
      requires Valid()
      modifies this`clock
      ensures Valid() && now == clock >= old(clock)
    {
      now := Now();
    }

    method RecordDryRun(ghost bound: nat) returns (record: ActionRecord)
      requires Valid() && WithinLimit(performed, Times(history), bound)
      modifies this`clock, this`recent, this`history
      ensures Valid() && clock >= old(clock) && WithinLimit(performed, Times(history), bound)
      ensures history == old(history) + [ActionRecord(clock, true)] && record == ActionRecord(clock, true)
    {
      hide WithinLimit, Sorted;
      var now := LaterNow();
      RecordKeepsLimit(performed, Times(history), now, bound);
      record := Append(now, true);
    }

    method SetMax(limit: nat)
      requires Valid()
      modifies this`max
      ensures Valid() && max == AtLeastOne(limit)
    {
      max := AtLeastOne(limit);
    }
  }

  datatype Call = ExecuteCall | DryRunCall | EnableCall(on: bool) | WindowCall | SetMaxCall(limit: nat)

  /** What a call did, and when; `Nothing` was neither recorded nor refused for the rate. */
  datatype Outcome = Performed(time: nat) | DryRun(time: nat) | Limited(time: nat) | Nothing

  predicate IsRecorded(outcome: Outcome) { outcome.Performed? || outcome.DryRun? }

  function RecordedTimes(outcomes: seq<Outcome>): seq<nat> {
    if outcomes == [] then []
    else
      var front, last := RecordedTimes(outcomes[..|outcomes| - 1]), outcomes[|outcomes| - 1];
      if IsRecorded(last) then front + [last.time] else front
  }

  function PerformedTimes(outcomes: seq<Outcome>): seq<nat> {
    if outcomes == [] then []
    else
      var front, last := PerformedTimes(outcomes[..|outcomes| - 1]), outcomes[|outcomes| - 1];
      if last.Performed? then front + [last.time] else front
  }

  lemma TimesAppend(outcomes: seq<Outcome>, outcome: Outcome)
    ensures RecordedTimes(outcomes + [outcome]) ==
            RecordedTimes(outcomes) + if IsRecorded(outcome) then [outcome.time] else []
    ensures PerformedTimes(outcomes + [outcome]) ==
            PerformedTimes(outcomes) + if outcome.Performed? then [outcome.time] else []
  {
    assert (outcomes + [outcome])[..|outcomes|] == outcomes;
  }

  /** The limit in force, and whether control is enabled, after `calls`. */
  function LimitAfter(limit: nat, calls: seq<Call>): nat {
    if calls == [] then AtLeastOne(limit)
    else if calls[|calls| - 1].SetMaxCall? then AtLeastOne(calls[|calls| - 1].limit)
    else LimitAfter(limit, calls[..|calls| - 1])
  }

  predicate EnabledAfter(calls: seq<Call>) {
    calls != [] &&
    if calls[|calls| - 1].EnableCall? then calls[|calls| - 1].on else EnabledAfter(calls[..|calls| - 1])
  }

  lemma AfterStep(limit: nat, calls: seq<Call>, n: nat)
    requires n < |calls|
    ensures LimitAfter(limit, calls[..n + 1]) ==
            if calls[n].SetMaxCall? then AtLeastOne(calls[n].limit) else LimitAfter(limit, calls[..n])
    ensures EnabledAfter(calls[..n + 1]) <==> if calls[n].EnableCall? then calls[n].on else EnabledAfter(calls[..n])
  {
    assert calls[..n + 1][..n] == calls[..n];
  }

  /** What an outcome says about its call and what was recorded before it. */
  ghost predicate Explained(call: Call, outcome: Outcome, before: seq<nat>, max: nat, enabled: bool) {
    match outcome
    case Performed(time) => call.ExecuteCall? && enabled && CountFrom(before, WindowStart(time)) < max
    case Limited(time) => call.ExecuteCall? && enabled && CountFrom(before, WindowStart(time)) >= max
    case DryRun(_) => call.DryRunCall?
    case Nothing => !call.DryRunCall?
  }

  method Step(engine: ComputerControlEngine, call: Call, ghost bound: nat) returns (outcome: Outcome)
    requires engine.Valid() && engine.max <= bound && WithinLimit(engine.performed, Times(engine.history), bound)
    requires call.SetMaxCall? ==> AtLeastOne(call.limit) <= bound
    modifies engine
    ensures engine.Valid() && engine.max <= bound && WithinLimit(engine.performed, Times(engine.history), bound)
    ensures Explained(call, outcome, old(Times(engine.history)), old(engine.max), old(engine.enabled))
    ensures engine.performed == old(engine.performed) + if outcome.Performed? then [outcome.time] else []
    ensures Times(engine.history) == old(Times(engine.history)) + if IsRecorded(outcome) then [outcome.time] else []
    ensures engine.max == if call.SetMaxCall? then AtLeastOne(call.limit) else old(engine.max)
    ensures engine.enabled == if call.EnableCall? then call.on else old(engine.enabled)
  {
    hide WithinLimit, Sorted, Recent, CountFrom, Times, WindowStart;
    outcome := Nothing;
    ghost var before := engine.history;
    match call {
      case ExecuteCall =>
        var r := engine.Execute(bound);
        if r.Ok? || r == Err(ActionFailed) {
          TimesGrow(before, ActionRecord(engine.clock, r.Ok?));
          outcome := Performed(engine.clock);
        } else if r == Err(RateLimited) {
          outcome := Limited(engine.clock);
        }
      case DryRunCall =>
        var record := engine.RecordDryRun(bound);
        TimesGrow(before, record);
        outcome := DryRun(record.timestamp);
      case EnableCall(on) => engine.enabled := on;
      case WindowCall => var now := engine.EvictStale();
      case SetMaxCall(limit) => engine.SetMax(limit);
    }
  }

  lemma TimesGrow(history: seq<ActionRecord>, record: ActionRecord)
    ensures Times(history + [record]) == Times(history) + [record.timestamp]
  {
    assert (history + [record])[..|history|] == history;
  }

  ghost predicate ExplainedAt(limit: nat, calls: seq<Call>, outcomes: seq<Outcome>, k: nat)
    requires k < |outcomes| <= |calls|
  {
    Explained(calls[k], outcomes[k], RecordedTimes(outcomes[..k]), LimitAfter(limit, calls[..k]),
            EnabledAfter(calls[..k]))
  }

  ghost predicate AllExplained(limit: nat, calls: seq<Call>, outcomes: seq<Outcome>)
    requires |outcomes| <= |calls|
  {
    forall k :: 0 <= k < |outcomes| ==> ExplainedAt(limit, calls, outcomes, k)
  }

  lemma ExplainedStep(limit: nat, calls: seq<Call>, outcomes: seq<Outcome>, outcome: Outcome)
    requires |outcomes| < |calls| && AllExplained(limit, calls, outcomes)
    requires Explained(calls[|outcomes|], outcome, RecordedTimes(outcomes), LimitAfter(limit, calls[..|outcomes|]),
                       EnabledAfter(calls[..|outcomes|]))
    ensures AllExplained(limit, calls, outcomes + [outcome])
  {
    hide Explained, RecordedTimes, LimitAfter, EnabledAfter;
    var after := outcomes + [outcome];
    forall k | 0 <= k < |after| ensures ExplainedAt(limit, calls, after, k) {
      assert after[..k] == outcomes[..k];
      if k < |outcomes| {
        assert ExplainedAt(limit, calls, outcomes, k);
      } else {
        assert outcomes[..k] == outcomes;
      }
    }
  }

  /**
   Any run, dry runs included, whose limits never exceed `bound`: no closed
   60-second window holds more than `bound` performed actions, and an action is
   performed only if the 60 seconds before it hold fewer than the limit then in
   force, and refused for the rate only if they do not.
   */
  method AnyRun(clock: nat, limit: nat, calls: seq<Call>, bound: nat) returns (outcomes: seq<Outcome>)
    requires AtLeastOne(limit) <= bound
    requires forall i :: 0 <= i < |calls| && calls[i].SetMaxCall? ==> AtLeastOne(calls[i].limit) <= bound
    ensures |outcomes| == |calls| && AllExplained(limit, calls, outcomes)
    ensures WithinLimit(PerformedTimes(outcomes), RecordedTimes(outcomes), bound)
    ensures Sorted(RecordedTimes(outcomes), LastTime(outcomes))
  {
    hide AllExplained, Explained, RecordedTimes, PerformedTimes, LimitAfter, EnabledAfter, WithinLimit, Sorted,
         Recent, Times, LastTime;
    var engine := new ComputerControlEngine(clock);
    engine.SetMax(limit);
    outcomes := [];
    NoCallsYet(limit, calls, bound);
    for n := 0 to |calls|
      invariant fresh(engine) && engine.Valid() && engine.max <= bound
      invariant WithinLimit(engine.performed, Times(engine.history), bound)
      invariant |outcomes| == n && Times(engine.history) == RecordedTimes(outcomes)
      invariant engine.performed == PerformedTimes(outcomes)
      invariant engine.max == LimitAfter(limit, calls[..n]) && engine.enabled == EnabledAfter(calls[..n])
      invariant AllExplained(limit, calls, outcomes)
    {
      AfterStep(limit, calls, n);
      var outcome := Step(engine, calls[n], bound);
      TimesAppend(outcomes, outcome);
      ExplainedStep(limit, calls, outcomes, outcome);
      outcomes := outcomes + [outcome];
    }
    LastIsLatest(outcomes, engine.clock);
  }

  /** The time of the last recorded outcome. */
  function LastTime(outcomes: seq<Outcome>): nat {
    var times := RecordedTimes(outcomes);
    if times == [] then 0 else times[|times| - 1]
  }

  lemma LastIsLatest(outcomes: seq<Outcome>, clock: nat)
    requires Sorted(RecordedTimes(outcomes), clock)
    ensures Sorted(RecordedTimes(outcomes), LastTime(outcomes))
  {
  }

  lemma NoCallsYet(limit: nat, calls: seq<Call>, bound: nat)
    ensures LimitAfter(limit, calls[..0]) == AtLeastOne(limit) && !EnabledAfter(calls[..0])
    ensures RecordedTimes([]) == [] && PerformedTimes([]) == [] && Times([]) == []
    ensures AllExplained(limit, calls, []) && WithinLimit([], [], bound)
  {
  }
}
