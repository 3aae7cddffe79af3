/**
 The emergency-stop authority (kernel/src/emergency_stop.rs) as a transition
 system whose steps are the code's atomic actions: one step per critical
 section, one step per audit callback (which runs with no lock held), and three
 steps for `engage`, so that the lock-free mirror of the stop number can be
 observed while an engagement holds the lock.

 `Run(steps)` is the state after any interleaving of those steps; the theorems
 at the end hold for every `steps`.  Class `StopAuthority` is the code with its
 fields updated in place, proved to take exactly these steps.
 */
module EmergencyStop {
  import opened Common

  const HALT_LOG_CAPACITY: nat := 256

  datatype HaltArea = CognitiveLoop | Coding | ModelCall
  datatype HaltOutcome = Ended | CleanupFailed(reason: string)
  datatype HaltRecord = HaltRecord(area: HaltArea, stopNumber: nat, outcome: HaltOutcome)

  /** Whether a halt of this area is written to the attached durable audit. */
  predicate Durable(area: HaltArea) {
    area.ModelCall?
  }

  /** The number a halt is stamped with: the first stop after admission, when known. */
  function Stamp(number: nat, admittedAt: Option<nat>): nat {
    match admittedAt
    case Some(admitted) => if number != admitted then SaturatingAdd(admitted, 1) else number
    case None => number
  }

  // ------------------------------------------------------------------
  // States and steps
  // ------------------------------------------------------------------

  /** Where an `engage` holding the lock has got to. */
  datatype Lock = Free | FlagSet | Bumped

  /** A logged halt.  `id` numbers halts in the order they were recorded. */
  datatype Entry = Entry(id: nat, halt: HaltRecord)

  /** Admitted work.  `time` is the step at which it was admitted. */
  datatype Watch = Watch(admittedAt: nat, time: nat)

  /** The stop and the watches. */
  datatype Stops = Stops(
    lock: Lock,
    stopped: bool,
    number: nat,
    mirror: nat,                // the lock-free copy of `number`
    stopTimes: seq<nat>,        // the step of every engagement
    watches: seq<Watch>)        // every watch ever admitted

  /** The halt log, the audit and the threads between a lock and an audit call. */
  datatype Audit = Audit(
    halts: seq<Entry>,          // the bounded halt log
    total: nat,                 // halts ever recorded
    durables: set<nat>,         // the model-call halts among them
    attached: bool,
    attachedAt: nat,            // `total` when the audit was attached
    pending: set<nat>,          // recorders that hold the audit and have not called it
    backlog: seq<nat>,          // what the attaching thread still has to hand over
    attaching: bool,
    attachRefused: nat,         // refusals the attaching thread has not counted yet
    owed: nat,                  // recorders with a refusal they have not counted yet
    handed: seq<nat>,           // calls of the audit, in order
    refused: set<nat>,
    lost: set<nat>,
    unrecorded: nat)

  /** `clock` counts the steps taken. */
  datatype State = State(clock: nat, stops: Stops, audit: Audit)

  datatype Step =
    | EngageLock
    | EngageBump
    | EngagePublish
    | Admit
    | LiftIf(number: nat)
    | Record(area: HaltArea, outcome: HaltOutcome, watch: Option<nat>)
    | CallAudit(id: nat, unrecorded: bool)
    | CountOne
    | Attach
    | CallBacklog(unrecorded: bool)
    | FinishBacklog

  const Initial: State :=
    State(0, Stops(Free, false, 0, 0, [], []), Audit([], 0, {}, false, 0, {}, [], false, 0, 0, [], {}, {}, 0))

  /** Whether a step can be taken; a critical section needs the lock free. */
  predicate Enabled(s: State, step: Step) {
    match step
    case EngageLock => s.stops.lock.Free?
    case EngageBump => s.stops.lock.FlagSet?
    case EngagePublish => s.stops.lock.Bumped?
    case Admit => s.stops.lock.Free? && !s.stops.stopped
    case LiftIf(_) => s.stops.lock.Free?
    case Record(_, _, watch) => s.stops.lock.Free? && (watch.Some? ==> watch.value < |s.stops.watches|)
    case CallAudit(id, _) => id in s.audit.pending
    case CountOne => s.stops.lock.Free? && s.audit.owed > 0
    case Attach => s.stops.lock.Free? && !s.audit.attached
    case CallBacklog(_) => s.audit.attaching && s.audit.backlog != []
    case FinishBacklog => s.stops.lock.Free? && s.audit.attaching && s.audit.backlog == []
  }

  function StopsEffect(s: Stops, clock: nat, step: Step): Stops {
    match step
    case EngageLock => s.(lock := FlagSet, stopped := true)
    case EngageBump =>
      s.(lock := Bumped, number := SaturatingAdd(s.number, 1), stopTimes := s.stopTimes + [clock])
    case EngagePublish => s.(lock := Free, mirror := s.number)
    case Admit => s.(watches := s.watches + [Watch(s.number, clock)])
    case LiftIf(number) => if s.number == number then s.(stopped := false) else s
    case _ => s
  }

  function DurableIds(halts: seq<Entry>): seq<nat> {
    if halts == [] then []
    else if Durable(halts[0].halt.area) then [halts[0].id] + DurableIds(halts[1..])
    else DurableIds(halts[1..])
  }

  /** The halt a `Record` step logs. */
  function HaltOf(s: Stops, area: HaltArea, outcome: HaltOutcome, watch: Option<nat>): HaltRecord
    requires watch.Some? ==> watch.value < |s.watches|
  {
    var admittedAt := if watch.Some? then Some(s.watches[watch.value].admittedAt) else None;
    HaltRecord(area, Stamp(s.number, admittedAt), outcome)
  }

  /** The locked part of recording a halt. */
  function RecordHalt(s: Audit, halt: HaltRecord): Audit {
    var full := |s.halts| == HALT_LOG_CAPACITY;
    var dropsUnwritten := full && !s.attached && Durable(s.halts[0].halt.area);
    var kept := if full then s.halts[1..] else s.halts;
    s.(halts := kept + [Entry(s.total, halt)],
       total := s.total + 1,
       durables := if Durable(halt.area) then s.durables + {s.total} else s.durables,
       lost := if dropsUnwritten then s.lost + {s.halts[0].id} else s.lost,
       unrecorded := if dropsUnwritten then SaturatingAdd(s.unrecorded, 1) else s.unrecorded,
       pending := if s.attached && Durable(halt.area) then s.pending + {s.total} else s.pending)
  }

  /** A recorder that captured the audit calls it, outside the lock. */
  function HandPending(s: Audit, id: nat, unrecorded: bool): Audit {
    s.(pending := s.pending - {id},
       handed := s.handed + [id],
       refused := if unrecorded then s.refused + {id} else s.refused,
       owed := if unrecorded then s.owed + 1 else s.owed)
  }

  function AttachAudit(s: Audit): Audit {
    s.(attached := true, attachedAt := s.total, attaching := true, backlog := DurableIds(s.halts))
  }

  /** The attaching thread hands over the next halt of its backlog, outside the lock. */
  function HandBacklog(s: Audit, unrecorded: bool): Audit
    requires s.backlog != []
  {
    s.(backlog := s.backlog[1..],
       handed := s.handed + [s.backlog[0]],
       refused := if unrecorded then s.refused + {s.backlog[0]} else s.refused,
       attachRefused := if unrecorded then s.attachRefused + 1 else s.attachRefused)
  }

  function AuditEffect(s: State, step: Step): Audit
    requires Enabled(s, step)
  {
    var audit := s.audit;
    match step
    case Record(area, outcome, watch) => RecordHalt(audit, HaltOf(s.stops, area, outcome, watch))
    case CallAudit(id, unrecorded) => HandPending(audit, id, unrecorded)
    case CountOne => audit.(owed := audit.owed - 1, unrecorded := SaturatingAdd(audit.unrecorded, 1))
    case Attach => AttachAudit(audit)
    case CallBacklog(unrecorded) => HandBacklog(audit, unrecorded)
    case FinishBacklog =>
      audit.(attaching := false, attachRefused := 0,
             unrecorded := SaturatingAdd(audit.unrecorded, audit.attachRefused))
    case _ => audit
  }

  function Next(s: State, step: Step): State {
    if Enabled(s, step)
    then State(s.clock + 1, StopsEffect(s.stops, s.clock, step), AuditEffect(s, step))
    else s.(clock := s.clock + 1)
  }

  /** The state after `steps`: any interleaving of any number of threads. */
  function Run(steps: seq<Step>): State {
    if steps == [] then Initial
    else Next(Run(steps[..|steps| - 1]), steps[|steps| - 1])
  }

  // ------------------------------------------------------------------
  // Observations
  // ------------------------------------------------------------------

  /** `StopWatch::halted`: reads the number under the lock. */
  predicate Halted(s: Stops, w: Watch) { s.number != w.admittedAt }

  /** `StopWatch::halted_now`: reads the mirror without the lock. */
  predicate HaltedNow(s: Stops, w: Watch) { s.mirror != w.admittedAt }

  ghost predicate StoppedSince(s: Stops, w: Watch) {
    exists k :: 0 <= k < |s.stopTimes| && s.stopTimes[k] > w.time
  }

  /** The audit is attached and no thread is between a lock and an audit call. */
  predicate Quiescent(s: State) {
    && s.stops.lock.Free?
    && s.audit.attached && !s.audit.attaching && s.audit.pending == {} && s.audit.owed == 0
  }

  // ------------------------------------------------------------------
  // The stop number
  // ------------------------------------------------------------------

  /** `before` stops were engaged before `w` was admitted. */
  ghost predicate AdmittedAfter(s: Stops, w: Watch, before: nat) {
    && before <= |s.stopTimes|
    && w.admittedAt == Capped(before)
    && (forall k :: 0 <= k < before ==> s.stopTimes[k] < w.time)
    && (forall k :: before <= k < |s.stopTimes| ==> s.stopTimes[k] > w.time)
  }

  ghost predicate Placed(s: Stops, w: Watch) {
    exists before: nat :: AdmittedAfter(s, w, before)
  }

  ghost predicate NumberInv(s: Stops, clock: nat) {
    && (forall k :: 0 <= k < |s.stopTimes| ==> s.stopTimes[k] < clock)
    && (forall w :: w in s.watches ==> w.time < clock && Placed(s, w))
    && s.number == Capped(|s.stopTimes|)
    && (!s.lock.Bumped? ==> s.mirror == s.number)
    && (s.lock.Bumped? ==> |s.stopTimes| > 0 && s.mirror == Capped(|s.stopTimes| - 1))
    && (!s.lock.Free? ==> s.stopped)
    && (s.stopped && !s.lock.FlagSet? ==> forall w :: w in s.watches ==> StoppedSince(s, w))
  }

  /** One more engagement is after every watch admitted so far. */
  lemma BumpKeepsPlace(s: Stops, t: Stops, w: Watch, now: nat)
    requires Placed(s, w) && w.time < now
    requires t.stopTimes == s.stopTimes + [now]
    ensures Placed(t, w) && StoppedSince(t, w)
  {
    var before: nat :| AdmittedAfter(s, w, before);
    assert t.stopTimes[|s.stopTimes|] == now;
    assert AdmittedAfter(t, w, before);
  }

  lemma SamePlace(s: Stops, t: Stops, w: Watch)
    requires t.stopTimes == s.stopTimes
    ensures Placed(s, w) ==> Placed(t, w)
    ensures StoppedSince(s, w) ==> StoppedSince(t, w)
  {
    if Placed(s, w) {
      var before: nat :| AdmittedAfter(s, w, before);
      assert AdmittedAfter(t, w, before);
    }
  }

  lemma NumberInvKept(s: State, step: Step)
    requires NumberInv(s.stops, s.clock)
    ensures NumberInv(Next(s, step).stops, s.clock + 1)
  {
    var t := Next(s, step).stops;
    if Enabled(s, step) && step.EngageBump? {
      forall w | w in t.watches ensures Placed(t, w) && StoppedSince(t, w) {
        BumpKeepsPlace(s.stops, t, w, s.clock);
      }
    } else {
      forall w | w in s.stops.watches
        ensures Placed(t, w) && (StoppedSince(s.stops, w) ==> StoppedSince(t, w))
      {
        SamePlace(s.stops, t, w);
      }
      if Enabled(s, step) && step.Admit? {
        assert AdmittedAfter(t, Watch(s.stops.number, s.clock), |s.stops.stopTimes|);
      }
    }
  }

  lemma {:induction false} RunNumberInv(steps: seq<Step>)
    ensures NumberInv(Run(steps).stops, Run(steps).clock)
  {
    if steps != [] {
      RunNumberInv(steps[..|steps| - 1]);
      NumberInvKept(Run(steps[..|steps| - 1]), steps[|steps| - 1]);
    }
  }

  /**
   In every interleaving, a watch is halted exactly when a stop was engaged
   after its admission, unless it was admitted at the saturated number: such a
   watch is never halted.
   */
  lemma HaltedIffStoppedSince(steps: seq<Step>, w: Watch)
    requires w in Run(steps).stops.watches
    ensures Halted(Run(steps).stops, w) <==> StoppedSince(Run(steps).stops, w) && w.admittedAt < U64_MAX
  {
    var s := Run(steps).stops;
    RunNumberInv(steps);
    assert Placed(s, w);
    var before: nat :| AdmittedAfter(s, w, before);
    if before < |s.stopTimes| {
      assert s.stopTimes[before] > w.time;
    }
  }

  lemma StepOnlyGrows(s: State, step: Step)
    ensures s.stops.watches <= Next(s, step).stops.watches
    ensures s.stops.stopTimes <= Next(s, step).stops.stopTimes
  {
  }

  lemma {:induction false} WatchesAndStopsOnlyGrow(steps: seq<Step>, more: seq<Step>)
    ensures Run(steps).stops.watches <= Run(steps + more).stops.watches
    ensures Run(steps).stops.stopTimes <= Run(steps + more).stops.stopTimes
  {
    if more == [] {
      assert steps + more == steps;
    } else {
      var rest := more[..|more| - 1];
      WatchesAndStopsOnlyGrow(steps, rest);
      assert (steps + more)[..|steps + more| - 1] == steps + rest;
      StepOnlyGrows(Run(steps + rest), more[|more| - 1]);
    }
  }

  /** A halted watch stays halted, whatever happens later, resumes included. */
  lemma HaltedForever(steps: seq<Step>, more: seq<Step>, w: Watch)
    requires w in Run(steps).stops.watches && Halted(Run(steps).stops, w)
    ensures w in Run(steps + more).stops.watches && Halted(Run(steps + more).stops, w)
  {
    HaltedIffStoppedSince(steps, w);
    WatchesAndStopsOnlyGrow(steps, more);
    var s, t := Run(steps).stops, Run(steps + more).stops;
    var k :| 0 <= k < |s.stopTimes| && s.stopTimes[k] > w.time;
    assert t.stopTimes[k] == s.stopTimes[k];
    var i :| 0 <= i < |s.watches| && s.watches[i] == w;
    assert t.watches[i] == w;
    HaltedIffStoppedSince(steps + more, w);
  }

  /** While a stop is in force every watch ever admitted is halted. */
  lemma StopHaltsEveryWatch(steps: seq<Step>, w: Watch)
    requires w in Run(steps).stops.watches
    requires Run(steps).stops.lock.Free? && Run(steps).stops.stopped
    ensures StoppedSince(Run(steps).stops, w)
    ensures Halted(Run(steps).stops, w) <==> w.admittedAt < U64_MAX
  {
    RunNumberInv(steps);
    HaltedIffStoppedSince(steps, w);
  }

  /** The mirror is the locked number whenever the lock is free, and at most one stop behind it. */
  lemma MirrorAgreesWhenUnlocked(steps: seq<Step>, w: Watch)
    ensures var s := Run(steps).stops;
            && (s.lock.Free? ==> s.mirror == s.number)
            && s.mirror <= s.number <= s.mirror + 1
            && (s.lock.Free? ==> (HaltedNow(s, w) <==> Halted(s, w)))
  {
    RunNumberInv(steps);
  }

  /**
   Resuming stop `number` lifts the stop in force only if it is that stop, the
   last one engaged.  A later stop can carry the same number only at saturation.
   */
  lemma LiftNeverLiftsALaterStop(steps: seq<Step>, number: nat)
    requires Run(steps).stops.stopped && !Next(Run(steps), LiftIf(number)).stops.stopped
    ensures number == Capped(|Run(steps).stops.stopTimes|)
    ensures number < U64_MAX ==> number == |Run(steps).stops.stopTimes|
  {
    RunNumberInv(steps);
  }

  /** Saturation is the exact exception: at the last number a resume lifts any later stop. */
  lemma LiftAtSaturation(steps: seq<Step>)
    requires Run(steps).stops.lock.Free? && |Run(steps).stops.stopTimes| >= U64_MAX
    ensures !Next(Run(steps), LiftIf(U64_MAX)).stops.stopped
  {
    RunNumberInv(steps);
  }

  /** `first` is the first stop engaged after `w` was admitted. */
  ghost predicate FirstStopAfter(s: Stops, w: Watch, first: nat) {
    && first < |s.stopTimes|
    && s.stopTimes[first] > w.time
    && (forall k :: 0 <= k < first ==> s.stopTimes[k] < w.time)
  }

  /** A halted watch's record names the first stop engaged after its admission. */
  lemma RecordNamesFirstStop(steps: seq<Step>, i: nat, first: nat, area: HaltArea, outcome: HaltOutcome)
    requires Run(steps).stops.lock.Free? && i < |Run(steps).stops.watches|
    requires FirstStopAfter(Run(steps).stops, Run(steps).stops.watches[i], first)
    ensures var halts := Next(Run(steps), Record(area, outcome, Some(i))).audit.halts;
            && |halts| > 0
            && halts[|halts| - 1].halt == HaltRecord(area, Capped(first + 1), outcome)
  {
    var s := Run(steps).stops;
    RunNumberInv(steps);
    var w := s.watches[i];
    assert Placed(s, w);
    var before: nat :| AdmittedAfter(s, w, before);
    assert before <= first;
    assert s.stopTimes[before] > w.time;
    assert before == first;
  }

  // ------------------------------------------------------------------
  // The halt audit
  // ------------------------------------------------------------------

  /** Where a model-call halt is, by id. */
  ghost predicate Waiting(s: Audit, id: nat) {
    !s.attached && id in s.durables && s.total - |s.halts| <= id
  }

  ghost predicate NoDuplicates(ids: seq<nat>) {
    forall i, j :: 0 <= i < j < |ids| ==> ids[i] != ids[j]
  }

  ghost predicate LogInv(s: Audit) {
    && |s.halts| == (if s.total <= HALT_LOG_CAPACITY then s.total else HALT_LOG_CAPACITY)
    && (forall i :: 0 <= i < |s.halts| ==> s.halts[i].id == s.total - |s.halts| + i)
    && (forall i :: 0 <= i < |s.halts| ==> (Durable(s.halts[i].halt.area) <==> s.halts[i].id in s.durables))
    && (forall id :: id in s.durables ==> id < s.total)
    && (s.attached ==> s.attachedAt <= s.total)
  }

  /** The halts that left the bounded log before an audit was attached. */
  ghost predicate LostInv(s: Audit) {
    var seen := if s.attached then s.attachedAt else s.total;
    forall id :: id in s.lost <==> id in s.durables && id + HALT_LOG_CAPACITY < seen
  }

  /** Every model-call halt is in exactly one place. */
  ghost predicate PlacesInv(s: Audit) {
    && NoDuplicates(s.handed) && NoDuplicates(s.backlog)
    && (forall id :: id in s.pending || id in s.backlog || id in s.handed ==> id in s.durables)
    && (forall id :: id in s.pending ==> id !in s.backlog && id !in s.handed && id !in s.lost)
    && (forall id :: id in s.backlog ==> id !in s.handed && id !in s.lost)
    && (forall id :: id in s.handed ==> id !in s.lost)
    && (forall id :: id in s.durables ==>
          id in s.pending || id in s.backlog || id in s.handed || id in s.lost || Waiting(s, id))
    && (!s.attached ==> s.pending == {} && s.backlog == [] && s.handed == [] && !s.attaching)
    && (!s.attaching ==> s.backlog == [] && s.attachRefused == 0)
  }

  /** `unrecorded` counts the lost and the refused halts, refusals being counted late. */
  ghost predicate CountInv(s: Audit) {
    && (forall id :: id in s.refused ==> id in s.handed)
    && s.owed + s.attachRefused <= |s.refused|
    && s.unrecorded == Capped(|s.lost| + |s.refused| - s.owed - s.attachRefused)
  }

  ghost predicate AuditInv(s: Audit) {
    LogInv(s) && LostInv(s) && PlacesInv(s) && CountInv(s)
  }

  lemma PrependKeepsDistinct(id: nat, ids: seq<nat>)
    requires NoDuplicates(ids) && id !in ids
    ensures NoDuplicates([id] + ids)
  {
  }

  lemma {:induction false} DurableIdsOf(halts: seq<Entry>, first: nat)
    requires forall i :: 0 <= i < |halts| ==> halts[i].id == first + i
    ensures NoDuplicates(DurableIds(halts))
    ensures forall id :: id in DurableIds(halts) <==>
              first <= id < first + |halts| && Durable(halts[id - first].halt.area)
  {
    if halts != [] {
      var rest := halts[1..];
      DurableIdsOf(rest, first + 1);
      assert forall i :: 0 <= i < |rest| ==> rest[i] == halts[i + 1];
      forall id
        ensures id in DurableIds(halts) <==>
                first <= id < first + |halts| && Durable(halts[id - first].halt.area)
      {
        if first < id < first + |halts| {
          assert rest[id - (first + 1)] == halts[id - first];
        }
      }
      PrependKeepsDistinct(first, DurableIds(rest));
    }
  }

  lemma RecordKeepsLog(s: Audit, halt: HaltRecord)
    requires LogInv(s)
    ensures LogInv(RecordHalt(s, halt))
  {
    var t := RecordHalt(s, halt);
    var full := |s.halts| == HALT_LOG_CAPACITY;
    forall i | 0 <= i < |t.halts|
      ensures t.halts[i].id == t.total - |t.halts| + i
      ensures Durable(t.halts[i].halt.area) <==> t.halts[i].id in t.durables
    {
      if i == |t.halts| - 1 {
        assert t.halts[i] == Entry(s.total, halt);
        assert s.total !in s.durables;
      } else {
        assert t.halts[i] == s.halts[if full then i + 1 else i];
      }
    }
  }

  lemma RecordKeepsPlaces(s: Audit, halt: HaltRecord)
    requires LogInv(s) && LostInv(s) && PlacesInv(s)
    ensures LostInv(RecordHalt(s, halt)) && PlacesInv(RecordHalt(s, halt))
  {
    var t := RecordHalt(s, halt);
    assert s.total !in s.durables;
    if |s.halts| == HALT_LOG_CAPACITY {
      assert s.halts[0].id == s.total - HALT_LOG_CAPACITY;
    }
    assert LostInv(t);
  }

  lemma RecordKeepsAudit(s: Audit, halt: HaltRecord)
    requires AuditInv(s)
    ensures AuditInv(RecordHalt(s, halt))
  {
    RecordKeepsLog(s, halt);
    RecordKeepsPlaces(s, halt);
    if |s.halts| == HALT_LOG_CAPACITY {
      assert s.halts[0].id == s.total - HALT_LOG_CAPACITY;
      assert s.halts[0].id !in s.lost;
    }
  }

  lemma AttachKeepsAudit(s: Audit)
    requires AuditInv(s) && !s.attached
    ensures AuditInv(AttachAudit(s))
  {
    DurableIdsOf(s.halts, s.total - |s.halts|);
    assert forall id :: id in AttachAudit(s).backlog <==> Waiting(s, id);
  }

  lemma HandPendingKeepsAudit(s: Audit, id: nat, unrecorded: bool)
    requires AuditInv(s) && id in s.pending
    ensures AuditInv(HandPending(s, id, unrecorded))
  {
    assert id !in s.refused;
  }

  lemma HandBacklogKeepsAudit(s: Audit, unrecorded: bool)
    requires AuditInv(s) && s.attaching && s.backlog != []
    ensures AuditInv(HandBacklog(s, unrecorded))
  {
    var id := s.backlog[0];
    assert s.backlog == [id] + s.backlog[1..];
    assert id in s.backlog && id !in s.backlog[1..] && id !in s.refused;
    var t := HandBacklog(s, unrecorded);
    assert forall x :: x in s.backlog <==> x == id || x in t.backlog;
    assert forall x :: x in t.handed <==> x == id || x in s.handed;
  }

  lemma CountingKeepsAudit(s: Audit, t: Audit, owed: nat, attachRefused: nat)
    requires AuditInv(s) && owed <= s.owed && attachRefused <= s.attachRefused
    requires s.attaching || attachRefused == 0
    requires t == s.(owed := s.owed - owed, attachRefused := s.attachRefused - attachRefused,
                     attaching := t.attaching,
                     unrecorded := SaturatingAdd(s.unrecorded, owed + attachRefused))
    requires t.attaching ==> s.attaching
    requires !t.attaching ==> t.attachRefused == 0 && s.backlog == []
    ensures AuditInv(t)
  {
    assert forall id :: Waiting(t, id) == Waiting(s, id);
  }

  lemma AuditInvKept(s: State, step: Step)
    requires AuditInv(s.audit)
    ensures AuditInv(Next(s, step).audit)
  {
    if Enabled(s, step) {
      match step
      case Record(area, outcome, watch) => RecordKeepsAudit(s.audit, HaltOf(s.stops, area, outcome, watch));
      case Attach => AttachKeepsAudit(s.audit);
      case CallAudit(id, unrecorded) => HandPendingKeepsAudit(s.audit, id, unrecorded);
      case CallBacklog(unrecorded) => HandBacklogKeepsAudit(s.audit, unrecorded);
      case CountOne => CountingKeepsAudit(s.audit, Next(s, step).audit, 1, 0);
      case FinishBacklog => CountingKeepsAudit(s.audit, Next(s, step).audit, 0, s.audit.attachRefused);
      case _ =>
    }
  }

  lemma {:induction false} RunAuditInv(steps: seq<Step>)
    ensures AuditInv(Run(steps).audit)
  {
    if steps != [] {
      RunAuditInv(steps[..|steps| - 1]);
      AuditInvKept(Run(steps[..|steps| - 1]), steps[|steps| - 1]);
    }
  }

  /** In every interleaving of recorders and attachment, no halt is handed to the audit twice. */
  lemma HandedAtMostOnce(steps: seq<Step>, i: nat, j: nat)
    requires i < j < |Run(steps).audit.handed|
    ensures Run(steps).audit.handed[i] != Run(steps).audit.handed[j]
    ensures Run(steps).audit.handed[i] in Run(steps).audit.durables
  {
    RunAuditInv(steps);
    assert Run(steps).audit.handed[i] in Run(steps).audit.handed;
  }

  /**
   At quiescence after attachment a model-call halt was handed over exactly when
   it was still among the last `HALT_LOG_CAPACITY` halts at attachment; the
   others are exactly the lost ones.
   */
  lemma QuiescentHandedOrLost(steps: seq<Step>, id: nat)
    requires Quiescent(Run(steps)) && id in Run(steps).audit.durables
    ensures id in Run(steps).audit.handed <==> Run(steps).audit.attachedAt <= id + HALT_LOG_CAPACITY
    ensures id in Run(steps).audit.lost <==> id !in Run(steps).audit.handed
  {
    RunAuditInv(steps);
  }

  /** Whenever every refusal has been counted, `unrecorded` is the lost plus the refused halts. */
  lemma UnrecordedCountsLostAndRefused(steps: seq<Step>)
    requires Run(steps).audit.owed == 0 && !Run(steps).audit.attaching
    ensures Run(steps).audit.unrecorded == Capped(|Run(steps).audit.lost| + |Run(steps).audit.refused|)
    ensures Run(steps).audit.lost !! Run(steps).audit.refused
  {
    RunAuditInv(steps);
  }

  // ------------------------------------------------------------------
  // The authority's fields, updated in place
  // ------------------------------------------------------------------

  /** The halts of a log, without their ids. */
  function HaltsOf(entries: seq<Entry>): (halts: seq<HaltRecord>)
    ensures |halts| == |entries|
    ensures forall i :: 0 <= i < |entries| ==> halts[i] == entries[i].halt
  {
    seq(|entries|, i requires 0 <= i < |entries| => entries[i].halt)
  }

  /** The model-call halts of a log, oldest first. */
  function DurableHalts(halts: seq<HaltRecord>): seq<HaltRecord> {
    if halts == [] then []
    else
      var last := halts[|halts| - 1];
      DurableHalts(halts[..|halts| - 1]) + (if Durable(last.area) then [last] else [])
  }

  /** The states of the transition system. */
  ghost predicate Reachable(s: State) {
    exists steps :: s == Run(steps)
  }

  lemma ReachableNext(s: State, step: Step)
    requires Reachable(s)
    ensures Reachable(Next(s, step))
  {
    var steps :| s == Run(steps);
    assert (steps + [step])[..|steps|] == steps;
    assert Next(s, step) == Run(steps + [step]);
  }

  lemma EngageSection(s: State)
    requires s.stops.lock.Free?
    ensures var number := SaturatingAdd(s.stops.number, 1);
            Next(Next(Next(s, EngageLock), EngageBump), EngagePublish) ==
            State(s.clock + 3,
                  s.stops.(stopped := true, number := number, mirror := number,
                           stopTimes := s.stops.stopTimes + [s.clock + 1]),
                  s.audit)
  {
  }

  lemma RecordSection(s: Audit, halt: HaltRecord)
    requires |s.halts| <= HALT_LOG_CAPACITY && s.total !in s.pending
    ensures var full := |s.halts| == HALT_LOG_CAPACITY;
            var t := RecordHalt(s, halt);
            && HaltsOf(t.halts) == (if full then HaltsOf(s.halts)[1..] else HaltsOf(s.halts)) + [halt]
            && t.unrecorded == (if full && !s.attached && Durable(HaltsOf(s.halts)[0].area)
                                then SaturatingAdd(s.unrecorded, 1) else s.unrecorded)
            && (s.total in t.pending <==> s.attached && Durable(halt.area))
  {
  }

  lemma ReachableLog(s: State)
    requires Reachable(s)
    ensures |s.audit.halts| <= HALT_LOG_CAPACITY && s.audit.total !in s.audit.pending
    ensures forall i, j :: 0 <= i < j < |s.audit.halts| ==> s.audit.halts[i].id < s.audit.halts[j].id
  {
    var steps :| s == Run(steps);
    RunAuditInv(steps);
  }

  /**
   The authority behind its lock.  Every method is one critical section (all of
   `engage` is one), and `model` is the transition system it drives: the
   contracts say which steps each section takes.
   */
  class StopAuthority {
    var stopped: bool
    var number: nat
    var numberNow: nat
    var halts: seq<HaltRecord>
    var auditAttached: bool
    var unrecorded: nat
    const global: bool
    var controlled: bool
    ghost var model: State

    ghost predicate Valid()
      reads this
    {
      && Reachable(model)
      && model.stops.lock.Free?
      && stopped == model.stops.stopped && number == model.stops.number && numberNow == model.stops.mirror
      && halts == HaltsOf(model.audit.halts)
      && auditAttached == model.audit.attached && unrecorded == model.audit.unrecorded
    }

    constructor (global: bool)
      ensures Valid() && model == Initial && this.global == global && !controlled
    {
      stopped, number, numberNow, halts := false, 0, 0, [];
      auditAttached, unrecorded := false, 0;
      this.global, controlled := global, false;
      model := Initial;
      assert Run([]) == Initial;
    }

    ghost method Take(step: Step)
      requires Reachable(model)
      modifies this`model
      ensures Reachable(model) && model == Next(old(model), step)
    {
      ReachableNext(model, step);
      model := Next(model, step);
    }

    /** The one right to lift, minted once. */
    method MintController() returns (minted: bool)
      modifies this`controlled
      ensures minted == !old(controlled) && controlled
    {
      minted := !controlled;
      controlled := true;
    }

    /** The controller of a fresh authority; never that of the process's own. */
    method ClaimController() returns (minted: bool)
      modifies this`controlled
      ensures minted == (!global && !old(controlled))
      ensures controlled == (old(controlled) || minted)
    {
      if global {
        return false;
      }
      minted := MintController();
    }

    /** The controller of the process's own authority: the first claim wins. */
    method ClaimGlobalController() returns (minted: bool)
      requires global
      modifies this`controlled
      ensures minted == !old(controlled) && controlled
    {
      minted := MintController();
    }

    method Engage() returns (engaged: nat)
      requires Valid()
      modifies this
      ensures Valid() && controlled == old(controlled)
      ensures model == Next(Next(Next(old(model), EngageLock), EngageBump), EngagePublish)
      ensures stopped && engaged == number && |model.stops.stopTimes| == |old(model).stops.stopTimes| + 1
    {
      EngageSection(model);
      Take(EngageLock);
      stopped := true;
      Take(EngageBump);
      number := SaturatingAdd(number, 1);
      Take(EngagePublish);
      numberNow := number;
      engaged := number;
    }

    method Admit() returns (admitted: Option<nat>)
      requires Valid()
      modifies this`model
      ensures Valid() && model == Next(old(model), Step.Admit)
      ensures admitted.None? <==> old(stopped)
      ensures admitted.Some? ==>
                model.stops.watches == old(model).stops.watches + [Watch(admitted.value, old(model).clock)]
    {
      Take(Step.Admit);
      if stopped {
        return None;
      }
      return Some(number);
    }

    method Lift(confirmed: nat) returns (lifted: bool)
      requires Valid()
      modifies this`stopped, this`model
      ensures Valid() && model == Next(old(model), LiftIf(confirmed))
      ensures lifted <==> number == confirmed
      ensures stopped == (old(stopped) && !lifted)
    {
      Take(LiftIf(confirmed));
      lifted := number == confirmed;
      if lifted {
        stopped := false;
      }
    }

    /** The locked part of `record`; the caller calls the audit afterwards if `callAudit`. */
    method RecordLocked(area: HaltArea, outcome: HaltOutcome, admittedAt: Option<nat>, ghost watch: Option<nat>)
      returns (halt: HaltRecord, callAudit: bool)
      requires Valid()
      requires watch.Some? ==> watch.value < |model.stops.watches|
      requires admittedAt == if watch.Some? then Some(model.stops.watches[watch.value].admittedAt) else None
      modifies this`halts, this`unrecorded, this`model
      ensures Valid() && model == Next(old(model), Record(area, outcome, watch))
      ensures |halts| <= HALT_LOG_CAPACITY && halts[|halts| - 1] == halt
      ensures halt == HaltRecord(area, Stamp(number, admittedAt), outcome)
      ensures callAudit <==> old(model).audit.total in model.audit.pending
    {
      ReachableLog(model);
      RecordSection(model.audit, HaltOf(model.stops, area, outcome, watch));
      Take(Record(area, outcome, watch));
      var stopNumber := number;
      if admittedAt.Some? && number != admittedAt.value {
        stopNumber := SaturatingAdd(admittedAt.value, 1);
      }
      halt := HaltRecord(area, stopNumber, outcome);
      if |halts| == HALT_LOG_CAPACITY {
        var dropped := halts[0];
        halts := halts[1..];
        if !auditAttached && Durable(dropped.area) {
          unrecorded := SaturatingAdd(unrecorded, 1);
        }
      }
      halts := halts + [halt];
      callAudit := auditAttached && Durable(area);
    }

    /** The attachment's critical section: the audit is set and the log read together. */
    method AttachLocked() returns (attachedNow: bool, backlog: seq<HaltRecord>)
      requires Valid()
      modifies this`auditAttached, this`model
      ensures Valid() && model == Next(old(model), Attach)
      ensures attachedNow == !old(auditAttached) && auditAttached
      ensures backlog == if attachedNow then DurableHalts(halts) else []
      ensures attachedNow ==> Names(model.audit.halts, model.audit.backlog, backlog)
    {
      Take(Attach);
      backlog := [];
      attachedNow := !auditAttached;
      if attachedNow {
        auditAttached := true;
        backlog := FilterDurable(halts);
        ReachableLog(old(model));
        SameDurables(old(model).audit.halts);
      }
    }

    /** The second critical section of a recorder, or of the attachment. */
    method CountUnrecorded(refusals: nat, ghost step: Step)
      requires Valid() && Enabled(model, step)
      requires (step.CountOne? && refusals == 1) || (step.FinishBacklog? && refusals == model.audit.attachRefused)
      modifies this`unrecorded, this`model
      ensures Valid() && model == Next(old(model), step)
      ensures unrecorded == SaturatingAdd(old(unrecorded), refusals)
    {
      Take(step);
      unrecorded := SaturatingAdd(unrecorded, refusals);
    }
  }

  method FilterDurable(halts: seq<HaltRecord>) returns (durable: seq<HaltRecord>)
    ensures durable == DurableHalts(halts)
  {
    durable := [];
    for i := 0 to |halts|
      invariant durable == DurableHalts(halts[..i])
    {
      assert halts[..i + 1][..i] == halts[..i];
      if Durable(halts[i].area) {
        durable := durable + [halts[i]];
      }
    }
    assert halts[..|halts|] == halts;
  }

  /** `halts` are, one by one and oldest first, the logged halts with these ids. */
  ghost predicate Names(entries: seq<Entry>, ids: seq<nat>, halts: seq<HaltRecord>) {
    && |ids| == |halts|
    && (forall i :: 0 <= i < |ids| ==> Entry(ids[i], halts[i]) in entries)
    && (forall i, j :: 0 <= i < j < |ids| ==> ids[i] < ids[j])
  }

  /** The halts and the ids of a log's model calls correspond. */
  lemma {:induction false} SameDurables(entries: seq<Entry>)
    requires forall i, j :: 0 <= i < j < |entries| ==> entries[i].id < entries[j].id
    ensures Names(entries, DurableIds(entries), DurableHalts(HaltsOf(entries)))
  {
    if entries != [] {
      var front, last := entries[..|entries| - 1], entries[|entries| - 1];
      SameDurables(front);
      DurableIdsAppend(front, last);
      assert entries == front + [last];
      assert HaltsOf(entries)[..|front|] == HaltsOf(front);
    }
  }

  lemma {:induction false} DurableIdsAppend(entries: seq<Entry>, last: Entry)
    ensures DurableIds(entries + [last]) ==
            DurableIds(entries) + (if Durable(last.halt.area) then [last.id] else [])
  {
    if entries == [] {
      assert entries + [last] == [last];
    } else {
      DurableIdsAppend(entries[1..], last);
      assert (entries + [last])[1..] == entries[1..] + [last];
    }
  }
}
