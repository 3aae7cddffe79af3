/**
 The ledger of a coding run: its event kinds, the prepared/outcome protocol of
 staging mutations, and the trail of state-bearing events.
 */
module RunLedger {

  datatype RevocationReason = Explicit | GrantRevoked | GrantExpired | EmergencyStop

  datatype FailureReason =
    | AuthorityDenied | IdentityChanged | SnapshotRejected | StagingRedirect | StagingIo
    | StructuralRejected | ModelUnavailable | WorkerLimitExceeded | AuditUnavailable

  datatype RecoveryReason =
    | OutcomeNotRecorded | UnmatchedPrepared | LedgerIntegrity | TerminalNotRecorded | GrantedNotRecorded
    | RejectionNotRecorded | StagingRevocationFailed | ProjectRevocationFailed | WorkerPanicked

  datatype RunState =
    | Created | Granted | Staged | Candidate | StructurallyVerified
    | Cancelled
    | Revoked(revocation: RevocationReason)
    | Failed(failure: FailureReason)
    | RecoveryRequired(recovery: RecoveryReason)

  /** No further work: a terminal outcome, or a verified candidate. */
  predicate IsTerminal(state: RunState) {
    !(state.Created? || state.Granted? || state.Staged? || state.Candidate?)
  }

  /** A terminal outcome: a state with its own terminal ledger event. */
  predicate HasEnded(state: RunState) {
    IsTerminal(state) && !state.StructurallyVerified?
  }

  datatype OpKind = AllocateStaging | SnapshotScope | ApplyEdit

  datatype Event =
    | RunCreated
    | RunGranted(grant: nat)
    | OperationPrepared(op: nat, kind: OpKind)
    | OperationOutcome(op: nat, ok: bool)
    | RunEnded(state: RunState)       // run.cancelled, run.revoked, run.failed, recovery.required
    | EditRejected | StructuralVerification(passed: bool) | ModelPinned | WorkerRead
    | ReviewComputed | CandidateWithdrawn | StagingDiscarded

  // ------------------------------------------------------------------
  // Prepared operations and their outcomes
  // ------------------------------------------------------------------

  /** The prepared operations that have no outcome. */
  function Unmatched(ledger: seq<Event>): set<nat> {
    if ledger == [] then {}
    else
      var front, last := ledger[..|ledger| - 1], ledger[|ledger| - 1];
      match last
      case OperationPrepared(op, _) => Unmatched(front) + {op}
      case OperationOutcome(op, _) => Unmatched(front) - {op}
      case _ => Unmatched(front)
  }

  /** Operations are numbered upwards below `nextOp`, and an outcome answers an open one. */
  ghost predicate Protocol(ledger: seq<Event>, nextOp: nat) {
    ledger == [] ||
    var front, last := ledger[..|ledger| - 1], ledger[|ledger| - 1];
    match last
    case OperationPrepared(op, _) => op < nextOp && Protocol(front, op)
    case OperationOutcome(op, _) => op in Unmatched(front) && Protocol(front, nextOp)
    case _ => Protocol(front, nextOp)
  }

  ghost predicate Prepared(ledger: seq<Event>, op: nat, kind: OpKind) {
    exists i :: 0 <= i < |ledger| && ledger[i] == OperationPrepared(op, kind)
  }

  lemma AppendFacts(ledger: seq<Event>, event: Event)
    ensures (ledger + [event])[..|ledger|] == ledger && (ledger + [event])[|ledger|] == event
  {
  }

  lemma {:induction false} ProtocolMonotone(ledger: seq<Event>, nextOp: nat, later: nat)
    requires Protocol(ledger, nextOp) && nextOp <= later
    ensures Protocol(ledger, later)
  {
    if ledger != [] && !ledger[|ledger| - 1].OperationPrepared? {
      ProtocolMonotone(ledger[..|ledger| - 1], nextOp, later);
    }
  }

  lemma {:induction false} UnmatchedBelow(ledger: seq<Event>, nextOp: nat)
    requires Protocol(ledger, nextOp)
    ensures forall op :: op in Unmatched(ledger) ==> op < nextOp
  {
    if ledger != [] {
      var front, last := ledger[..|ledger| - 1], ledger[|ledger| - 1];
      UnmatchedBelow(front, if last.OperationPrepared? then last.op else nextOp);
    }
  }

  lemma PreparedNow(ledger: seq<Event>, op: nat, kind: OpKind)
    ensures Prepared(ledger + [OperationPrepared(op, kind)], op, kind)
    ensures Unmatched(ledger + [OperationPrepared(op, kind)]) == Unmatched(ledger) + {op}
    ensures Protocol(ledger, op) ==> Protocol(ledger + [OperationPrepared(op, kind)], op + 1)
  {
    AppendFacts(ledger, OperationPrepared(op, kind));
    assert (ledger + [OperationPrepared(op, kind)])[|ledger|] == OperationPrepared(op, kind);
  }

  lemma OutcomeNow(ledger: seq<Event>, op: nat, ok: bool, nextOp: nat)
    requires Protocol(ledger, nextOp) && op in Unmatched(ledger)
    ensures Protocol(ledger + [OperationOutcome(op, ok)], nextOp)
    ensures Unmatched(ledger + [OperationOutcome(op, ok)]) == Unmatched(ledger) - {op}
  {
    AppendFacts(ledger, OperationOutcome(op, ok));
  }

  predicate OffProtocol(event: Event) {
    !event.OperationPrepared? && !event.OperationOutcome?
  }

  lemma OtherNow(ledger: seq<Event>, event: Event, nextOp: nat)
    requires OffProtocol(event)
    ensures Protocol(ledger, nextOp) ==> Protocol(ledger + [event], nextOp)
    ensures Unmatched(ledger + [event]) == Unmatched(ledger)
  {
    AppendFacts(ledger, event);
  }

  /** The operations a ledger leaves open. */
  method OpenOperations(ledger: seq<Event>) returns (open: set<nat>)
    ensures open == Unmatched(ledger)
  {
    open := {};
    for i := 0 to |ledger|
      invariant open == Unmatched(ledger[..i])
    {
      assert ledger[..i + 1][..i] == ledger[..i];
      match ledger[i] {
        case OperationPrepared(op, _) => open := open + {op};
        case OperationOutcome(op, _) => open := open - {op};
        case _ =>
      }
    }
    assert ledger[..|ledger|] == ledger;
  }

  /** What the protocol means: operation numbers strictly increase. */
  lemma {:induction false} OpsIncrease(ledger: seq<Event>, nextOp: nat, i: nat, j: nat)
    requires Protocol(ledger, nextOp) && i < j < |ledger|
    requires ledger[i].OperationPrepared? && ledger[j].OperationPrepared?
    ensures ledger[i].op < ledger[j].op < nextOp
  {
    var front, last := ledger[..|ledger| - 1], ledger[|ledger| - 1];
    var bound := if last.OperationPrepared? then last.op else nextOp;
    if j < |ledger| - 1 {
      OpsIncrease(front, bound, i, j);
    } else {
      PreparedBelow(front, bound, i);
    }
  }

  lemma {:induction false} PreparedBelow(ledger: seq<Event>, nextOp: nat, i: nat)
    requires Protocol(ledger, nextOp) && i < |ledger| && ledger[i].OperationPrepared?
    ensures ledger[i].op < nextOp
  {
    var front, last := ledger[..|ledger| - 1], ledger[|ledger| - 1];
    if i < |ledger| - 1 {
      PreparedBelow(front, if last.OperationPrepared? then last.op else nextOp, i);
    }
  }

  /** An unmatched operation was prepared, and none of its outcomes is later. */
  lemma {:induction false} UnmatchedMeans(ledger: seq<Event>, nextOp: nat, op: nat)
    requires Protocol(ledger, nextOp)
    ensures op in Unmatched(ledger) <==>
            && (exists i :: 0 <= i < |ledger| && ledger[i].OperationPrepared? && ledger[i].op == op)
            && (forall j :: 0 <= j < |ledger| && ledger[j].OperationOutcome? ==> ledger[j].op != op)
  {
    if ledger != [] {
      var front, last := ledger[..|ledger| - 1], ledger[|ledger| - 1];
      var bound := if last.OperationPrepared? then last.op else nextOp;
      UnmatchedMeans(front, bound, op);
      assert ledger == front + [last];
      if last.OperationPrepared? && last.op == op {
        assert ledger[|ledger| - 1].op == op;
        NoOutcomeAbove(front, bound, op);
      }
    }
  }

  /** No outcome names an operation not yet prepared. */
  lemma {:induction false} NoOutcomeAbove(ledger: seq<Event>, nextOp: nat, op: nat)
    requires Protocol(ledger, nextOp) && nextOp <= op
    ensures forall j :: 0 <= j < |ledger| && ledger[j].OperationOutcome? ==> ledger[j].op != op
  {
    if ledger != [] {
      var front, last := ledger[..|ledger| - 1], ledger[|ledger| - 1];
      var bound := if last.OperationPrepared? then last.op else nextOp;
      NoOutcomeAbove(front, bound, op);
      UnmatchedBelow(front, bound);
      assert ledger == front + [last];
    }
  }

  /** Each outcome answers an earlier prepared operation, and no other outcome answers it. */
  lemma {:induction false} OutcomeAnswersOnce(ledger: seq<Event>, nextOp: nat, i: nat, j: nat)
    requires Protocol(ledger, nextOp) && i < j < |ledger| && ledger[j].OperationOutcome?
    ensures exists k :: 0 <= k < j && ledger[k].OperationPrepared? && ledger[k].op == ledger[j].op
    ensures ledger[i].OperationOutcome? ==> ledger[i].op != ledger[j].op
  {
    var front, last := ledger[..|ledger| - 1], ledger[|ledger| - 1];
    var bound := if last.OperationPrepared? then last.op else nextOp;
    if j < |ledger| - 1 {
      OutcomeAnswersOnce(front, bound, i, j);
      var k :| 0 <= k < j && front[k].OperationPrepared? && front[k].op == front[j].op;
      assert ledger[k] == front[k];
    } else {
      UnmatchedMeans(front, bound, last.op);
      var k :| 0 <= k < |front| && front[k].OperationPrepared? && front[k].op == last.op;
      assert ledger[k] == front[k] && ledger[i] == front[i];
    }
  }

  // ------------------------------------------------------------------
  // The trail of states
  // ------------------------------------------------------------------

  predicate StateBearing(event: Event) {
    event.RunCreated? || event.RunGranted? || event.RunEnded?
  }

  /** The state-bearing events of a ledger, in order. */
  function Trail(ledger: seq<Event>): seq<Event> {
    if ledger == [] then []
    else
      Trail(ledger[..|ledger| - 1]) +
      (if StateBearing(ledger[|ledger| - 1]) then [ledger[|ledger| - 1]] else [])
  }

  predicate Live(trail: seq<Event>) {
    || trail == [RunCreated]
    || (|trail| == 2 && trail[0] == RunCreated && trail[1].RunGranted?)
  }

  /**
   How the ledger's trail describes a run's state.  A run that ended in anything
   but RecoveryRequired has recorded exactly that end, and nothing state-bearing
   after it; a run that requires recovery may have failed to record its end.
   */
  predicate TrailOf(state: RunState, trail: seq<Event>) {
    match state
    case Created => trail == [RunCreated]
    case Granted | Staged | Candidate | StructurallyVerified =>
      |trail| == 2 && trail[0] == RunCreated && trail[1].RunGranted?
    case _ =>
      || (state.RecoveryRequired? && Live(trail))
      || (trail != [] && trail[|trail| - 1] == RunEnded(state) && Live(trail[..|trail| - 1]))
  }

  /**
   The same with a run whose first end was recorded when its worker panicked
   (`doubled`): it requires recovery, and may have recorded that as a second end.
   */
  predicate Told(state: RunState, trail: seq<Event>, doubled: bool) {
    if doubled then
      && state.RecoveryRequired?
      && (EndsWith(trail, 1) || (EndsWith(trail, 2) && trail[|trail| - 1] == RunEnded(state)))
    else TrailOf(state, trail)
  }

  /** A live trail followed by `n` ends. */
  predicate EndsWith(trail: seq<Event>, n: nat) {
    n <= |trail| && Live(trail[..|trail| - n]) && forall i :: |trail| - n <= i < |trail| ==> trail[i].RunEnded?
  }

  lemma ToldOnce(state: RunState, trail: seq<Event>, doubled: bool)
    requires Told(state, trail, doubled) && !HasEnded(state)
    ensures !doubled && TrailOf(state, trail)
  {
  }

  lemma ToldTwice(state: RunState, trail: seq<Event>, first: RunState, second: RunState, again: bool)
    requires TrailOf(state, trail) && !HasEnded(state) && second.RecoveryRequired?
    ensures Told(second, trail + [RunEnded(first)] + (if again then [RunEnded(second)] else []), true)
  {
    var once, twice := trail + [RunEnded(first)], trail + [RunEnded(first)] + [RunEnded(second)];
    assert once[..|once| - 1] == trail && twice[..|twice| - 2] == trail && once + [] == once;
  }

  lemma TrailAppend(ledger: seq<Event>, event: Event)
    ensures Trail(ledger + [event]) == Trail(ledger) + (if StateBearing(event) then [event] else [])
  {
    AppendFacts(ledger, event);
  }

  lemma TrailEnds(state: RunState, trail: seq<Event>, end: RunState)
    requires TrailOf(state, trail) && !HasEnded(state) && HasEnded(end)
    ensures TrailOf(end, trail + [RunEnded(end)])
    ensures end.RecoveryRequired? ==> TrailOf(end, trail)
  {
    assert (trail + [RunEnded(end)])[..|trail|] == trail;
  }

  /** The trail holds at most one end, and a recorded end is the run's state. */
  lemma AtMostOneEnd(state: RunState, trail: seq<Event>, i: nat, j: nat)
    requires TrailOf(state, trail) && i < |trail| && j < |trail|
    requires trail[i].RunEnded? && trail[j].RunEnded?
    ensures i == j == |trail| - 1 && trail[i] == RunEnded(state)
  {
    assert !Live(trail);
    assert Live(trail[..|trail| - 1]);
  }

  lemma {:induction false} TrailAt(ledger: seq<Event>, i: nat)
    requires i < |ledger| && StateBearing(ledger[i])
    ensures |Trail(ledger[..i])| < |Trail(ledger)|
    ensures Trail(ledger)[|Trail(ledger[..i])|] == ledger[i]
  {
    var front := ledger[..|ledger| - 1];
    if i < |front| {
      TrailAt(front, i);
      assert front[..i] == ledger[..i];
    }
  }

  /** At most one terminal event is ever recorded, it is the run's state, and it is the last state-bearing event. */
  lemma LedgerEndsOnce(state: RunState, ledger: seq<Event>, i: nat, j: nat)
    requires TrailOf(state, Trail(ledger)) && i < |ledger| && j < |ledger|
    requires ledger[i].RunEnded? && StateBearing(ledger[j])
    ensures ledger[i] == RunEnded(state)
    ensures j <= i && (ledger[j].RunEnded? ==> i == j)
  {
    hide Trail, TrailOf;
    TrailAt(ledger, i);
    TrailAt(ledger, j);
    var p, q := |Trail(ledger[..i])|, |Trail(ledger[..j])|;
    AtMostOneEnd(state, Trail(ledger), p, p);
    if i < j {
      TrailOrder(ledger, i, j);
    } else if j < i && ledger[j].RunEnded? {
      AtMostOneEnd(state, Trail(ledger), p, q);
      TrailOrder(ledger, j, i);
    }
  }

  lemma TrailOrder(ledger: seq<Event>, i: nat, j: nat)
    requires i < j <= |ledger| && StateBearing(ledger[i])
    ensures |Trail(ledger[..i])| < |Trail(ledger[..j])|
  {
    hide Trail;
    TrailAt(ledger[..j], i);
    assert ledger[..j][..i] == ledger[..i];
  }
}
