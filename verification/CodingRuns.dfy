/**
 One governed coding run (kernel/src/coding_run.rs).  `CodingRun` has the
 source's fields and methods; every call it makes outside (a ledger append, a
 grant revocation, a directory removal, a stop check, a file operation) may
 succeed or fail freely, so what is proved holds whatever fails on the way.

 The invariants are value predicates, conjoined by `CodingRun.Valid`; `AnyRun`
 drives a run through any sequence of calls and states what every run keeps.
 */
module CodingRuns {
  import opened Common
  import opened RunLedger
  import opened Scope
  import opened Snapshot
  import opened Candidates
  import Structural

  datatype RunError =
    | InvalidState
    | LedgerRefused
    | AuthorityRevoked(reason: RevocationReason)
    | Denied
    | Moved                            // IdentityChanged
    | SnapshotRefused(why: Rejection)
    | EditRefused(rejection: EditRejection)
    | Redirect                         // StagingRedirect
    | IoError                          // StagingIo
    | Unavailable                      // StagingUnavailable
    | NeedsRecovery(recovery: RecoveryReason)
    | CandidateChanged
    | CandidateUnavailable

  datatype CleanupStatus = NotStarted | Discarded | DiscardFailed

  /** The staging directory and its grant, owned from the moment either exists. */
  datatype Lease = Lease(created: bool, open: bool, grant: Option<nat>, revoked: bool, released: bool)

  // ------------------------------------------------------------------
  // Ends of a run
  // ------------------------------------------------------------------

  /** The terminal state an error leads to, if any. */
  function TerminalFor(error: RunError): Option<RunState> {
    match error
    case AuthorityRevoked(reason) => Some(Revoked(reason))
    case Denied => Some(Failed(AuthorityDenied))
    case Moved => Some(Failed(IdentityChanged))
    case SnapshotRefused(_) => Some(Failed(SnapshotRejected))
    case Redirect => Some(Failed(StagingRedirect))
    case IoError | Unavailable => Some(Failed(StagingIo))
    case _ => None
  }

  /** The state a requested end actually has, once the authority closure was attempted. */
  function ActualEnd(requested: RunState, stagingClosed: bool, projectClosed: bool): RunState {
    if !stagingClosed then RecoveryRequired(StagingRevocationFailed)
    else if !projectClosed then RecoveryRequired(ProjectRevocationFailed)
    else requested
  }

  predicate RevocationFailed(state: RunState) {
    state == RecoveryRequired(StagingRevocationFailed) || state == RecoveryRequired(ProjectRevocationFailed)
  }

  /** An end whose ledger event is missing is fail closed, unless a worse reason is already kept. */
  function RecordedEnd(actual: RunState, recorded: bool): RunState {
    if recorded || RevocationFailed(actual) then actual else RecoveryRequired(TerminalNotRecorded)
  }

  /** The states a call that ends a run with `requested` can leave it in. */
  predicate EndOf(requested: RunState, state: RunState) {
    || state == requested
    || RevocationFailed(state)
    || state == RecoveryRequired(TerminalNotRecorded)
  }

  /** How a refused call leaves the state: an error that ends a run names the end. */
  predicate ErrorEnds(error: RunError, before: RunState, after: RunState) {
    if error.NeedsRecovery? then EndOf(RecoveryRequired(error.recovery), after)
    else if TerminalFor(error).Some? then EndOf(TerminalFor(error).value, after)
    else after == before
  }

  /** The one-way order of a run's states. */
  predicate Follows(before: RunState, after: RunState) {
    || before == after
    || (before.Created? && (after.Granted? || HasEnded(after)))
    || (before.Granted? && (after.Staged? || HasEnded(after)))
    || (before.Staged? && (after.Candidate? || HasEnded(after)))
    || (before.Candidate? && (after.StructurallyVerified? || HasEnded(after)))
    || (before.StructurallyVerified? &&
        (|| after == Revoked(EmergencyStop)
         || after == RecoveryRequired(WorkerPanicked)
         || after == RecoveryRequired(TerminalNotRecorded)))
  }

  // ------------------------------------------------------------------
  // Authority
  // ------------------------------------------------------------------

  predicate LeaseClosed(lease: Lease) {
    lease.grant.None? || lease.revoked
  }

  predicate StagingClosed(staging: Option<Lease>) {
    staging.Some? ==> LeaseClosed(staging.value)
  }

  /**
   `live` are the registry's live grants and `issued` the staging grants this run
   was issued.  A live one belongs to the lease the run still holds; a project
   grant the run owns and closed is not live.
   */
  ghost predicate Tracked(staging: Option<Lease>, projectGrant: Option<nat>, projectClosed: bool,
                          issued: set<nat>, live: set<nat>, nextGrant: nat)
  {
    && (forall g :: g in issued || g in live ==> g < nextGrant)
    && (projectGrant.Some? ==> projectGrant.value < nextGrant && projectGrant.value !in issued)
    && (projectGrant.None? ==> projectClosed)
    && (forall g :: g in issued && g in live ==>
          staging.Some? && !staging.value.revoked && staging.value.grant == Some(g))
    && (staging.Some? && staging.value.grant.Some? ==> staging.value.grant.value in issued)
    && (projectGrant.Some? && projectClosed ==> projectGrant.value !in live)
  }

  /** A run that is over holds no authority it did not report as not revocable. */
  predicate ClosedWhenOver(state: RunState, staging: Option<Lease>, projectClosed: bool) {
    IsTerminal(state) && !RevocationFailed(state) ==> StagingClosed(staging) && projectClosed
  }

  /** Staging grants whose lease a panic dropped: nothing the run holds leads to them. */
  ghost predicate Apart(lost: set<nat>, issued: set<nat>, projectGrant: Option<nat>, nextGrant: nat) {
    lost !! issued && forall g :: g in lost ==> g < nextGrant && projectGrant != Some(g)
  }

  /** The confirmed closures are real: of all its grants, only one that a panic lost can be live. */
  lemma ClosedIsNotLive(staging: Option<Lease>, projectGrant: Option<nat>, projectClosed: bool,
                        issued: set<nat>, lost: set<nat>, live: set<nat>, nextGrant: nat)
    requires Tracked(staging, projectGrant, projectClosed, issued, live, nextGrant)
    requires StagingClosed(staging) && projectClosed
    ensures (issued + lost) * live == lost * live && (projectGrant.Some? ==> projectGrant.value !in live)
  {
    assert issued !! live;
  }

  // ------------------------------------------------------------------
  // Staging
  // ------------------------------------------------------------------

  /** Nothing in `after` that was not in `before`. */
  predicate OnlyRemoved(before: StagingTree, after: StagingTree) {
    && after.dirs <= before.dirs
    && forall path :: path in after.files ==> path in before.files && after.files[path] == before.files[path]
  }

  lemma RemovedNothing(tree: StagingTree)
    ensures OnlyRemoved(tree, tree)
  {
  }

  /** What a run did outside so far: its ledger, its operation numbers, its staging tree, the grants it was issued. */
  datatype Effects = Effects(ledger: seq<Event>, nextOp: nat, tree: StagingTree, grants: set<nat>)

  /** An operation numbered meanwhile was recorded as prepared meanwhile. */
  ghost predicate PreparedSince(before: Effects, after: Effects, allocation: bool) {
    exists i :: |before.ledger| <= i < |after.ledger| && IsPrepared(after.ledger[i], before.nextOp, after.nextOp,
            allocation)
  }

  predicate IsPrepared(event: Event, from: nat, to: nat, allocation: bool) {
    event.OperationPrepared? && from <= event.op < to && (event.kind.AllocateStaging? <==> allocation)
  }

  /**
   The ledger only grows; whatever is new in staging has a newly prepared copy or
   edit in it, and a new grant has a newly prepared allocation.
   */
  ghost predicate Traced(before: Effects, after: Effects) {
    && before.ledger <= after.ledger && before.nextOp <= after.nextOp && before.grants <= after.grants
    && (!OnlyRemoved(before.tree, after.tree) ==> PreparedSince(before, after, false))
    && (after.grants != before.grants ==> PreparedSince(before, after, true))
  }

  lemma TracedPlain(before: Effects, after: Effects)
    requires before.ledger <= after.ledger && before.nextOp <= after.nextOp && before.grants == after.grants
    requires OnlyRemoved(before.tree, after.tree)
    ensures Traced(before, after)
  {
  }

  /** What follows without touching staging or the grants adds nothing to trace. */
  lemma TracedOn(before: Effects, between: Effects, after: Effects)
    requires Traced(before, between) && between.ledger <= after.ledger && between.nextOp == after.nextOp
    requires between.tree == after.tree && between.grants == after.grants
    ensures Traced(before, after)
  {
    if PreparedSince(before, between, true) {
      SinceOn(before, between, after, true);
    }
    if PreparedSince(before, between, false) {
      SinceOn(before, between, after, false);
    }
  }

  lemma SinceOn(before: Effects, between: Effects, after: Effects, allocation: bool)
    requires PreparedSince(before, between, allocation)
    requires between.ledger <= after.ledger && between.nextOp == after.nextOp
    ensures PreparedSince(before, after, allocation)
  {
    var i :| |before.ledger| <= i < |between.ledger| &&
             IsPrepared(between.ledger[i], before.nextOp, between.nextOp, allocation);
    assert after.ledger[i] == between.ledger[i];
  }

  lemma TracedPrepared(before: Effects, after: Effects, kind: OpKind)
    requires before.ledger + [OperationPrepared(before.nextOp, kind)] <= after.ledger && before.nextOp < after.nextOp
    requires if kind.AllocateStaging? then OnlyRemoved(before.tree, after.tree) && before.grants <= after.grants
             else before.grants == after.grants
    ensures Traced(before, after)
  {
    assert IsPrepared(after.ledger[|before.ledger|], before.nextOp, after.nextOp, kind.AllocateStaging?);
  }

  predicate Staging(state: RunState, cleanup: CleanupStatus) {
    state.Staged? || state.Candidate? || (state.StructurallyVerified? && cleanup.NotStarted?)
  }

  // ------------------------------------------------------------------
  // Edits
  // ------------------------------------------------------------------

  /** The run error of a snapshot copy. */
  function CopyError(r: CopyResult): (error: Option<RunError>)
    ensures error.None? <==> r.Copied?
    ensures error.Some? ==> TerminalFor(error.value).Some? && TerminalFor(error.value).value.Failed?
  {
    match r
    case Copied => None
    case Rejected(why, _) => Some(SnapshotRefused(why))
    case IoFailed => Some(IoError)
    case Redirected => Some(Redirect)
  }

  datatype EntryKind = DirectoryEntry | RegularEntry | MissingEntry | OtherEntry

  function KindAt(tree: StagingTree, path: Path): EntryKind {
    if path in tree.files then RegularEntry
    else if path == [] || path in tree.dirs then DirectoryEntry
    else MissingEntry
  }

  /** What a worker was doing when it panicked. */
  datatype Interruption =
    | BetweenOperations
    | Preparing                                            // numbered, its prepared record not written
    | DuringMutation(acted: bool, concluded: bool)         // a copy or an edit
    | DuringAllocation(hasGrant: bool, revoked: bool)     // the lease is still a local of `grant`
    | AfterAllocation(granted: bool)                       // the lease is the run's; its grant recorded or not yet
    | DuringEnd(requested: RunState, again: bool)          // an end is recorded, the state not yet set

  /** A panic inside the recording of an end. */
  predicate Ends(interruption: Interruption) {
    interruption.DuringEnd? && HasEnded(interruption.requested)
  }

  datatype Probe = Clear | Refuse(why: EditRejection) | Broken(error: RunError)

  // ------------------------------------------------------------------
  // Steps of the invariants
  // ------------------------------------------------------------------

  /** The grants a new run finds: its own project read grant, if it has one. */
  function FirstLive(owned: Option<nat>): set<nat> { if owned.Some? then {owned.value} else {} }

  function FirstGrant(owned: Option<nat>): nat { if owned.Some? then owned.value + 1 else 0 }

  lemma NothingIssued(owned: Option<nat>)
    ensures Tracked(None, owned, owned.None?, {}, FirstLive(owned), FirstGrant(owned))
    ensures Apart({}, {}, owned, FirstGrant(owned))
  {
  }

  lemma JustCreated()
    ensures Protocol([RunCreated], 0) && Unmatched([RunCreated]) == {} && Told(Created, Trail([RunCreated]), false)
  {
    hide EndsWith, Live;
    assert [RunCreated] == [] + [RunCreated];
    OtherNow([], RunCreated, 0);
    TrailAppend([], RunCreated);
  }

  /** A note changes neither the protocol nor the trail. */
  lemma NoteKept(ledger: seq<Event>, event: Event, nextOp: nat)
    requires OffProtocol(event) && !StateBearing(event)
    requires Protocol(ledger, nextOp)
    ensures Protocol(ledger + [event], nextOp)
    ensures Unmatched(ledger + [event]) == Unmatched(ledger) && Trail(ledger + [event]) == Trail(ledger)
  {
    OtherNow(ledger, event, nextOp);
    TrailAppend(ledger, event);
  }

  /** Recording an end, or failing to record it, leaves a ledger that agrees with the state. */
  lemma EndKept(ledger: seq<Event>, state: RunState, actual: RunState, recorded: bool, nextOp: nat, doubled: bool)
    requires Protocol(ledger, nextOp)
    requires Told(state, Trail(ledger), doubled) && !HasEnded(state) && HasEnded(actual)
    ensures var after := if recorded then ledger + [RunEnded(actual)] else ledger;
            && Protocol(after, nextOp) && Unmatched(after) == Unmatched(ledger)
            && Told(RecordedEnd(actual, recorded), Trail(after), doubled)
            && (actual.RecoveryRequired? ==> Told(actual, Trail(after), doubled))
  {
    hide Trail, Unmatched, Protocol, TrailOf;
    ToldOnce(state, Trail(ledger), doubled);
    OtherNow(ledger, RunEnded(actual), nextOp);
    TrailAppend(ledger, RunEnded(actual));
    TrailEnds(state, Trail(ledger), actual);
    TrailEnds(state, Trail(ledger), RecoveryRequired(TerminalNotRecorded));
  }

  /** Recording two ends. */
  lemma TwoEndsKept(ledger: seq<Event>, state: RunState, first: RunState, second: RunState, again: bool, nextOp: nat,
                    doubled: bool)
    requires Protocol(ledger, nextOp) && Told(state, Trail(ledger), doubled) && !HasEnded(state)
    requires second.RecoveryRequired?
    ensures var after := ledger + [RunEnded(first)] + if again then [RunEnded(second)] else [];
            && Protocol(after, nextOp) && Unmatched(after) == Unmatched(ledger) && Told(second, Trail(after), true)
  {
    hide Trail, Unmatched, Protocol, TrailOf, Told;
    var once := ledger + [RunEnded(first)];
    ToldOnce(state, Trail(ledger), doubled);
    ToldTwice(state, Trail(ledger), first, second, again);
    OtherNow(ledger, RunEnded(first), nextOp);
    TrailAppend(ledger, RunEnded(first));
    OtherNow(once, RunEnded(second), nextOp);
    TrailAppend(once, RunEnded(second));
    assert once + [] == once && Trail(once) + [] == Trail(once);
  }

  lemma PreparedKept(ledger: seq<Event>, op: nat, kind: OpKind)
    requires Protocol(ledger, op)
    ensures var after := ledger + [OperationPrepared(op, kind)];
            && Protocol(after, op + 1)
            && Unmatched(after) == Unmatched(ledger) + {op} && Prepared(after, op, kind)
            && Trail(after) == Trail(ledger)
  {
    PreparedNow(ledger, op, kind);
    TrailAppend(ledger, OperationPrepared(op, kind));
  }

  lemma GrantedKept(ledger: seq<Event>, grant: nat, nextOp: nat, doubled: bool)
    requires Protocol(ledger, nextOp) && Told(Created, Trail(ledger), doubled)
    ensures Protocol(ledger + [RunGranted(grant)], nextOp) && Told(Granted, Trail(ledger + [RunGranted(grant)]), doubled)
    ensures Unmatched(ledger + [RunGranted(grant)]) == Unmatched(ledger)
  {
    hide Trail, Unmatched, Protocol;
    OtherNow(ledger, RunGranted(grant), nextOp);
    TrailAppend(ledger, RunGranted(grant));
  }

  lemma OutcomeKept(ledger: seq<Event>, op: nat, ok: bool, nextOp: nat)
    requires Protocol(ledger, nextOp) && op in Unmatched(ledger)
    ensures var after := ledger + [OperationOutcome(op, ok)];
            && Protocol(after, nextOp)
            && Unmatched(after) == Unmatched(ledger) - {op} && Trail(after) == Trail(ledger)
  {
    OutcomeNow(ledger, op, ok, nextOp);
    TrailAppend(ledger, OperationOutcome(op, ok));
  }

  lemma RevokeKept(lease: Lease, projectGrant: Option<nat>, projectClosed: bool, issued: set<nat>,
                   live: set<nat>, nextGrant: nat)
    requires Tracked(Some(lease), projectGrant, projectClosed, issued, live, nextGrant)
    requires lease.grant.Some?
    ensures Tracked(Some(lease.(revoked := true)), projectGrant, projectClosed, issued,
                    live - {lease.grant.value}, nextGrant)
  {
  }

  lemma ProjectKept(staging: Option<Lease>, projectGrant: Option<nat>, projectClosed: bool, issued: set<nat>,
                    live: set<nat>, nextGrant: nat)
    requires Tracked(staging, projectGrant, projectClosed, issued, live, nextGrant) && projectGrant.Some?
    ensures Tracked(staging, projectGrant, true, issued, live - {projectGrant.value}, nextGrant)
  {
  }

  /** Letting go of a closed lease, or changing what is not authority. */
  lemma LeaseKept(lease: Lease, after: Option<Lease>, projectGrant: Option<nat>, projectClosed: bool,
                  issued: set<nat>, live: set<nat>, nextGrant: nat)
    requires Tracked(Some(lease), projectGrant, projectClosed, issued, live, nextGrant)
    requires (after.None? && LeaseClosed(lease)) ||
             (after.Some? && after.value.grant == lease.grant && after.value.revoked == lease.revoked)
    ensures Tracked(after, projectGrant, projectClosed, issued, live, nextGrant)
  {
  }

  lemma IssueKept(lease: Lease, projectGrant: Option<nat>, projectClosed: bool, issued: set<nat>,
                  live: set<nat>, nextGrant: nat)
    requires Tracked(Some(lease), projectGrant, projectClosed, issued, live, nextGrant)
    requires lease.grant.None? && !lease.revoked
    ensures Tracked(Some(lease.(grant := Some(nextGrant))), projectGrant, projectClosed,
                    issued + {nextGrant}, live + {nextGrant}, nextGrant + 1)
  {
  }

  /** A grant issued to a lease that a panic drops, revoked or not. */
  lemma LostKept(staging: Option<Lease>, projectGrant: Option<nat>, projectClosed: bool, issued: set<nat>, lost: set<nat>,
                 live: set<nat>, nextGrant: nat, revoked: bool)
    requires Tracked(staging, projectGrant, projectClosed, issued, live, nextGrant)
    requires Apart(lost, issued, projectGrant, nextGrant)
    ensures if revoked then
              && Tracked(staging, projectGrant, projectClosed, issued + {nextGrant}, live, nextGrant + 1)
              && Apart(lost, issued + {nextGrant}, projectGrant, nextGrant + 1)
            else
              && Tracked(staging, projectGrant, projectClosed, issued, live + {nextGrant}, nextGrant + 1)
              && Apart(lost + {nextGrant}, issued, projectGrant, nextGrant + 1)
  {
  }

  lemma InstalledKept(projectGrant: Option<nat>, projectClosed: bool, issued: set<nat>, lost: set<nat>, live: set<nat>,
                      nextGrant: nat)
    requires Tracked(None, projectGrant, projectClosed, issued, live, nextGrant)
    requires Apart(lost, issued, projectGrant, nextGrant)
    ensures Tracked(Some(Lease(true, true, Some(nextGrant), false, false)), projectGrant, projectClosed,
                    issued + {nextGrant}, live + {nextGrant}, nextGrant + 1)
    ensures Apart(lost, issued + {nextGrant}, projectGrant, nextGrant + 1)
  {
  }

  lemma ApartIssued(lost: set<nat>, issued: set<nat>, projectGrant: Option<nat>, nextGrant: nat)
    requires Apart(lost, issued, projectGrant, nextGrant)
    ensures Apart(lost, issued + {nextGrant}, projectGrant, nextGrant + 1)
  {
  }

  /** The run's own grants are not lost ones, and no grant has the next number. */
  lemma GrantsAreKnown(staging: Option<Lease>, projectGrant: Option<nat>, projectClosed: bool, issued: set<nat>,
                       lost: set<nat>, live: set<nat>, nextGrant: nat)
    requires Tracked(staging, projectGrant, projectClosed, issued, live, nextGrant)
    requires Apart(lost, issued, projectGrant, nextGrant)
    ensures staging.Some? && staging.value.grant.Some? ==> staging.value.grant.value !in lost
    ensures projectGrant.Some? ==> projectGrant.value !in lost
    ensures nextGrant !in live
  {
  }

  lemma NewLeaseKept(projectGrant: Option<nat>, projectClosed: bool, issued: set<nat>, live: set<nat>, nextGrant: nat)
    requires Tracked(None, projectGrant, projectClosed, issued, live, nextGrant)
    ensures Tracked(Some(Lease(false, false, None, false, false)), projectGrant, projectClosed, issued, live, nextGrant)
  {
  }

  // ------------------------------------------------------------------
  // The run
  // ------------------------------------------------------------------

  class CodingRun {
    const scopes: RunScopes
    const profile: Profile
    /** The per-run project read grant the run owns; a caller-owned grant has no lease. */
    const projectGrant: Option<nat>

    var state: RunState
    var cleanup: CleanupStatus
    var projectClosed: bool
    var projectOpen: bool
    var staging: Option<Lease>
    var base: Option<map<Path, ManifestEntry>>
    var generationValid: bool
    var nextOp: nat
    var modelPinned: bool
    var created: set<Path>
    var verified: bool
    var baseContents: map<Path, Bytes>
    var applied: bool

    // Outside: this run's ledger, the grant registry, the staging directory, the stop's halt log.
    var ledger: seq<Event>
    var issued: set<nat>
    var live: set<nat>
    var nextGrant: nat
    var tree: StagingTree
    var halted: bool
    var haltsLogged: nat

    // History: staging grants no lease leads to any more, whether a panic may have made the run record two ends,
    // the files copied, and the edits accepted since.
    var lost: set<nat>
    var doubled: bool
    var snapshot: map<Path, Bytes>
    var accepted: seq<CandidateEdit>

    /** What holds at every step, even between a prepared record and its outcome. */
    ghost predicate Core()
      reads this
    {
      && Tracked(staging, projectGrant, projectClosed, issued, live, nextGrant)
      && Apart(lost, issued, projectGrant, nextGrant)
      && ClosedWhenOver(state, staging, projectClosed)
      && Told(state, Trail(ledger), doubled)
      && Protocol(ledger, nextOp)
      && (staging.Some? ==> !staging.value.released)
    }

    ghost predicate LeaseMatches()
      reads this
    {
      && (state.Created? ==> staging.None?)
      && (state.Granted? || state.Staged? || state.Candidate? ==> staging.Some? && staging.value.grant.Some?)
    }

    ghost predicate HoldsContents()
      reads this
    {
      && (Staging(state, cleanup) ==> Contents(scopes, profile, base, snapshot, accepted, tree, baseContents))
      && (state.Created? || state.Granted? ==> snapshot == map[] && accepted == [])
      && (state.Staged? ==> accepted == []) && (state.Candidate? ==> accepted != [])
      && (state.StructurallyVerified? && cleanup.NotStarted? ==> Fits(tree.files, profile))
    }

    ghost function Done(): Effects
      reads this
    {
      Effects(ledger, nextOp, tree, issued + lost)
    }

    ghost function Now(): View
      reads this
    {
      View(state, cleanup, generationValid, nextOp, halted, ledger, tree, issued, lost, live, base, snapshot, accepted,
           baseContents, applied, doubled)
    }

    /** What holds between calls. */
    ghost predicate Valid()
      reads this
    {
      && Core()
      && LeaseMatches()
      && HoldsContents()
      && (Unmatched(ledger) == {} || state.Failed? || state.RecoveryRequired?)
      && (!IsTerminal(state) ==> generationValid && cleanup.NotStarted?)
    }

    /**
     A run over a project grant; `owned` is the fresh read grant of an
     owner-selected project.  A run whose creation is not recorded does not exist.
     */
    constructor (scopes: RunScopes, profile: Profile, owned: Option<nat>)
      requires scopes.Valid()
      ensures Valid() && state == Created && ledger == [RunCreated]
      ensures this.scopes == scopes && this.profile == profile && projectGrant == owned
      ensures lost == {} && !doubled
      ensures projectClosed == owned.None? && staging.None? && !halted
    {
      this.scopes, this.profile, projectGrant := scopes, profile, owned;
      state, cleanup, projectClosed, projectOpen, staging := Created, NotStarted, owned.None?, false, None;
      base, generationValid, nextOp, modelPinned, created := None, true, 0, false, {};
      verified, baseContents, applied := false, map[], false;
      ledger := [RunCreated];
      live, nextGrant := FirstLive(owned), FirstGrant(owned);
      tree, halted, haltsLogged := StagingTree({}, map[]), false, 0;
      issued, lost, doubled, snapshot, accepted := {}, {}, false, map[], [];
      new;
      hide CodingRun.Valid;
      FreshIsValid(this);
    }

    // ---------------- Outside calls ----------------

    method Record(event: Event) returns (ok: bool)
      modifies this`ledger
      ensures ledger == if ok then old(ledger) + [event] else old(ledger)
    {
      ok := *;
      if ok {
        ledger := ledger + [event];
      }
    }

    method RecordNote(event: Event) returns (ok: bool)
      requires Core() && OffProtocol(event) && !StateBearing(event)
      modifies this`ledger
      ensures Core() && Unmatched(ledger) == old(Unmatched(ledger))
      ensures ledger == if ok then old(ledger) + [event] else old(ledger)
    {
      hide Tracked, Apart, Protocol, Trail, TrailOf, Told, Unmatched, ClosedWhenOver;
      NoteKept(ledger, event, nextOp);
      ok := Record(event);
    }

    /** Revoke a lease's grant, idempotently. */
    method RevokeGrant(lease: Lease) returns (after: Lease)
      requires Tracked(Some(lease), projectGrant, projectClosed, issued, live, nextGrant)
      modifies this`live
      ensures Tracked(Some(after), projectGrant, projectClosed, issued, live, nextGrant)
      ensures after == lease.(revoked := after.revoked) && (LeaseClosed(lease) ==> after == lease)
      ensures live == old(live) || (lease.grant.Some? && live == old(live) - {lease.grant.value})
    {
      hide Tracked;
      after := lease;
      if lease.grant.Some? && !lease.revoked {
        var revoked: bool := *;
        if revoked {
          RevokeKept(lease, projectGrant, projectClosed, issued, live, nextGrant);
          live := live - {lease.grant.value};
          after := lease.(revoked := true);
        }
      }
    }

    /** Close the run's own project read grant, idempotently. */
    method CloseProjectRead() returns (closed: bool)
      requires Tracked(staging, projectGrant, projectClosed, issued, live, nextGrant)
      modifies this`projectOpen, this`projectClosed, this`live
      ensures Tracked(staging, projectGrant, projectClosed, issued, live, nextGrant)
      ensures closed == projectClosed && (old(projectClosed) ==> closed)
      ensures live == old(live) || (projectGrant.Some? && live == old(live) - {projectGrant.value})
    {
      ProjectFacts(staging, projectGrant, projectClosed, issued, live, nextGrant);
      hide Tracked;
      projectOpen := false;
      if !projectClosed {
        var revoked: bool := *;
        if revoked {
          ProjectKept(staging, projectGrant, projectClosed, issued, live, nextGrant);
          live := live - {projectGrant.value};
          projectClosed := true;
        }
      }
      closed := projectClosed;
    }

    /** Revoke the grant and remove the directory; never touches the ledger. */
    method CloseLease(lease: Lease) returns (after: Lease, status: CleanupStatus)
      requires Tracked(Some(lease), projectGrant, projectClosed, issued, live, nextGrant)
      modifies this`live, this`tree
      ensures Tracked(Some(after), projectGrant, projectClosed, issued, live, nextGrant)
      ensures OnlyRemoved(old(tree), tree)
      ensures after.grant == lease.grant && (lease.revoked ==> after.revoked)
      ensures status.Discarded? && !lease.released ==> LeaseClosed(after) && after.released
      ensures status == if after.released then Discarded else DiscardFailed
      ensures lease.released ==> after == lease
    {
      hide Tracked;
      assert OnlyRemoved(tree, tree);
      if lease.released {
        return lease, Discarded;
      }
      after := RevokeGrant(lease);
      var removed := true;
      if lease.created {
        removed := *;
        if removed && lease.open {
          tree := StagingTree({}, map[]);
        } else {
          removed := false;
          var left: StagingTree :| OnlyRemoved(tree, left);
          tree := left;
        }
      }
      var closed := after;
      if removed {
        closed := closed.(open := false);
      }
      if LeaseClosed(closed) && removed {
        closed := closed.(released := true);
      }
      LeaseKept(after, Some(closed), projectGrant, projectClosed, issued, live, nextGrant);
      after := closed;
      status := if LeaseClosed(closed) && removed then Discarded else DiscardFailed;
    }

    /** A fully closed lease is dropped; one whose cleanup failed is kept. */
    method CloseStaging()
      requires Tracked(staging, projectGrant, projectClosed, issued, live, nextGrant)
      requires staging.Some? ==> !staging.value.released
      modifies this`staging, this`cleanup, this`live, this`tree
      ensures Tracked(staging, projectGrant, projectClosed, issued, live, nextGrant)
      ensures old(StagingClosed(staging)) ==> StagingClosed(staging)
      ensures old(staging).None? ==> staging.None? && cleanup == old(cleanup) && tree == old(tree)
      ensures old(staging).Some? ==> cleanup == if staging.None? then Discarded else DiscardFailed
      ensures staging.Some? ==> !staging.value.released
      ensures OnlyRemoved(old(tree), tree)
    {
      hide Tracked;
      if staging.Some? {
        var lease, status := CloseLease(staging.value);
        cleanup := status;
        if status.Discarded? {
          LeaseKept(lease, None, projectGrant, projectClosed, issued, live, nextGrant);
          staging := None;
        } else {
          staging := Some(lease);
        }
      }
    }

    // ---------------- Ends ----------------

    /** Revoke what the run holds: the staging grant, then its own project read grant. */
    method CloseAuthority()
      requires Core()
      modifies this`staging, this`live, this`projectOpen, this`projectClosed
      ensures Core()
      ensures staging.Some? == old(staging).Some?
      ensures staging.Some? ==> staging.value == old(staging).value.(revoked := staging.value.revoked)
      ensures old(StagingClosed(staging)) ==> staging == old(staging)
      ensures old(projectClosed) ==> projectClosed
      ensures old(live) * lost <= live
    {
      hide Tracked, Apart, Protocol, Trail, TrailOf, Told, Unmatched;
      GrantsAreKnown(staging, projectGrant, projectClosed, issued, lost, live, nextGrant);
      if staging.Some? {
        var lease := RevokeGrant(staging.value);
        staging := Some(lease);
      }
      var closed := CloseProjectRead();
    }

    /**
     Enter a terminal state: authority closes first, the actual state follows
     from that, and only then is it recorded, once.
     */
    method EnterTerminal(requested: RunState) returns (recorded: bool)
      requires Core() && HasEnded(requested) && !HasEnded(state)
      modifies this`staging, this`live, this`projectOpen, this`projectClosed, this`ledger, this`state,
               this`generationValid
      ensures Core()
      ensures staging.Some? == old(staging).Some?
      ensures old(StagingClosed(staging)) ==> staging == old(staging)
      ensures old(projectClosed) ==> projectClosed
      ensures var actual := ActualEnd(requested, StagingClosed(staging), projectClosed);
              && ledger == (if recorded then old(ledger) + [RunEnded(actual)] else old(ledger))
              && state == RecordedEnd(actual, recorded)
      ensures HasEnded(state) && EndOf(requested, state)
      ensures generationValid == (old(generationValid) && !state.RecoveryRequired? && !state.Failed?)
      ensures Unmatched(ledger) == old(Unmatched(ledger))
    {
      hide Tracked, Apart, Protocol, Trail, TrailOf, Told, Unmatched;
      CloseAuthority();
      recorded := RecordEnd(ActualEnd(requested, StagingClosed(staging), projectClosed));
    }

    /** Record the end the closure led to; without the record the run requires recovery. */
    method RecordEnd(actual: RunState) returns (recorded: bool)
      requires Core() && HasEnded(actual) && !HasEnded(state) && ClosedWhenOver(actual, staging, projectClosed)
      modifies this`ledger, this`state, this`generationValid
      ensures Core() && Unmatched(ledger) == old(Unmatched(ledger))
      ensures ledger == (if recorded then old(ledger) + [RunEnded(actual)] else old(ledger))
      ensures state == RecordedEnd(actual, recorded)
      ensures generationValid == (old(generationValid) && !state.RecoveryRequired? && !state.Failed?)
    {
      hide Tracked, Apart, Protocol, Trail, TrailOf, Told, Unmatched;
      EndKept(ledger, state, actual, true, nextOp, doubled);
      EndKept(ledger, state, actual, false, nextOp, doubled);
      recorded := Record(RunEnded(actual));
      state := RecordedEnd(actual, recorded);
      if state.RecoveryRequired? || state.Failed? {
        generationValid := false;
      }
    }

    /** Require recovery, even if the ledger cannot record it. */
    method ForceRecovery(reason: RecoveryReason, discard: bool) returns (error: RunError)
      requires Core() && !HasEnded(state)
      modifies this`staging, this`cleanup, this`live, this`tree, this`projectOpen, this`projectClosed, this`ledger,
               this`state, this`generationValid
      ensures Core()
      ensures var actual := ActualEnd(RecoveryRequired(reason), StagingClosed(staging), projectClosed);
              && state == actual && error == NeedsRecovery(actual.recovery)
              && (ledger == old(ledger) || ledger == old(ledger) + [RunEnded(actual)])
      ensures old(StagingClosed(staging)) ==> StagingClosed(staging)
      ensures old(projectClosed) ==> projectClosed
      ensures !discard ==> tree == old(tree) && cleanup == old(cleanup) && staging.Some? == old(staging).Some?
      ensures !generationValid && Unmatched(ledger) == old(Unmatched(ledger)) && OnlyRemoved(old(tree), tree)
      ensures !discard ==> old(live) * lost <= live
    {
      hide Tracked, Apart, Protocol, Trail, TrailOf, Told, Unmatched;
      generationValid := false;
      CloseForRecovery(discard);
      var actual := ActualEnd(RecoveryRequired(reason), StagingClosed(staging), projectClosed);
      RecordRecovery(actual);
      error := NeedsRecovery(actual.recovery);
    }

    method CloseForRecovery(discard: bool)
      requires Core()
      modifies this`staging, this`cleanup, this`live, this`tree, this`projectOpen, this`projectClosed
      ensures Core()
      ensures old(StagingClosed(staging)) ==> StagingClosed(staging)
      ensures old(projectClosed) ==> projectClosed
      ensures !discard ==> tree == old(tree) && cleanup == old(cleanup) && staging.Some? == old(staging).Some?
      ensures OnlyRemoved(old(tree), tree) && (!discard ==> old(live) * lost <= live)
    {
      hide Tracked, Apart, Protocol, Trail, TrailOf, Told, Unmatched;
      if discard {
        CloseStaging();
      }
      CloseAuthority();
    }

    /** Enter RecoveryRequired; the record is best effort. */
    method RecordRecovery(actual: RunState)
      requires Core() && !HasEnded(state) && actual.RecoveryRequired?
      requires ClosedWhenOver(actual, staging, projectClosed)
      modifies this`ledger, this`state
      ensures Core() && state == actual && Unmatched(ledger) == old(Unmatched(ledger))
      ensures ledger == old(ledger) || ledger == old(ledger) + [RunEnded(actual)]
    {
      hide Tracked, Apart, Protocol, Trail, TrailOf, Told, Unmatched;
      EndKept(ledger, state, actual, true, nextOp, doubled);
      EndKept(ledger, state, actual, false, nextOp, doubled);
      state := actual;
      var recorded := Record(RunEnded(actual));
    }

    /** Turn an authority, identity or staging error into the matching terminal state. */
    method Fail(error: RunError)
      requires Core()
      modifies this`staging, this`live, this`projectOpen, this`projectClosed, this`ledger, this`state,
               this`generationValid, this`haltsLogged
      ensures Core() && Unmatched(ledger) == old(Unmatched(ledger)) && old(ledger) <= ledger
      ensures TerminalFor(error).None? || old(IsTerminal(state)) ==>
                && state == old(state) && ledger == old(ledger) && staging == old(staging) && live == old(live)
                && projectClosed == old(projectClosed) && generationValid == old(generationValid)
      ensures TerminalFor(error).Some? && !old(IsTerminal(state)) ==>
                && HasEnded(state) && EndOf(TerminalFor(error).value, state)
                && generationValid == (old(generationValid) && !state.RecoveryRequired? && !state.Failed?)
                && staging.Some? == old(staging).Some?
    {
      hide Tracked, Apart, Protocol, Trail, TrailOf, Told, Unmatched;
      var terminal := TerminalFor(error);
      if terminal.Some? && !IsTerminal(state) {
        if terminal.value == Revoked(EmergencyStop) {
          haltsLogged := haltsLogged + 1;
        }
        var recorded := EnterTerminal(terminal.value);
      }
    }

    /** `Fail` at a point where no operation is open: the run is over and settled. */
    method End(error: RunError)
      requires Core() && !IsTerminal(state) && Unmatched(ledger) == {} && TerminalFor(error).Some?
      modifies this`staging, this`live, this`projectOpen, this`projectClosed, this`ledger, this`state,
               this`generationValid, this`haltsLogged
      ensures Valid() && HasEnded(state) && old(ledger) <= ledger
      ensures ErrorEnds(error, old(state), state) && Follows(old(state), state)
    {
      hide Tracked, Apart, Protocol, Trail, TrailOf, Told, Unmatched, Contents, Fits;
      Fail(error);
    }

    // ---------------- The emergency stop ----------------

    /** Whether a stop ends this run: it is live, or holds a verified candidate not yet applied. */
    predicate StopEnds()
      reads this`state, this`applied
    {
      !IsTerminal(state) || (state.StructurallyVerified? && !applied)
    }

    /** Read both watches: a watch once halted stays halted. */
    method StopRefusal() returns (refused: bool)
      modifies this`halted
      ensures old(halted) ==> halted
      ensures old(halted) && StopEnds() ==> refused
    {
      var halts: bool := *;
      var inForce: bool := *;
      halted := halted || halts;
      refused := (StopEnds() && halted) || inForce;
    }

    method HaltIfStopped() returns (error: Option<RunError>)
      requires Valid()
      modifies this`staging, this`live, this`projectOpen, this`projectClosed, this`ledger, this`state,
               this`generationValid, this`haltsLogged, this`halted, this`verified
      ensures Valid() && Follows(old(state), state) && old(ledger) <= ledger
      ensures error.None? ==> state == old(state) && verified == old(verified)
      ensures old(halted) ==> halted && (old(StopEnds()) ==> error.Some?)
      ensures error.Some? ==> error.value == AuthorityRevoked(EmergencyStop)
      ensures error.Some? && old(StopEnds()) ==>
                EndOf(Revoked(EmergencyStop), state) && !verified && haltsLogged == old(haltsLogged) + 1
      ensures error.Some? && !old(StopEnds()) ==> state == old(state) && haltsLogged == old(haltsLogged)
    {
      hide Tracked, Apart, Protocol, Trail, TrailOf, Told, Unmatched, Contents, Fits;
      var refused := StopRefusal();
      if refused && StopEnds() {
        haltsLogged := haltsLogged + 1;
        verified := false;
        var recorded := EnterTerminal(Revoked(EmergencyStop));
      }
      error := if refused then Some(AuthorityRevoked(EmergencyStop)) else None;
    }

    // ---------------- Authority checks ----------------

    /** The run's grants are live: the staging grant, and the project read grant if it owns one. */
    predicate Authorised()
      reads this`staging, this`live
    {
      && staging.Some? && staging.value.grant.Some? && staging.value.grant.value in live
      && (projectGrant.Some? ==> projectGrant.value in live)
    }

    /** Resolve a grant that the registry still holds or does not, and confirm its root. */
    method Resolve(held: bool) returns (error: Option<RunError>)
      modifies this`halted
      ensures old(halted) ==> halted
      ensures error.Some? ==> TerminalFor(error.value).Some?
      ensures error.None? ==> held
      ensures old(halted) && StopEnds() ==> error == Some(AuthorityRevoked(EmergencyStop))
    {
      var refused := StopRefusal();
      if refused {
        return Some(AuthorityRevoked(EmergencyStop));
      }
      var answer: int := *;
      match answer {
        case 0 => return Some(Denied);
        case 1 => return Some(AuthorityRevoked(GrantExpired));
        case 2 => return Some(Moved);
        case _ => return if held then None else Some(AuthorityRevoked(GrantRevoked));
      }
    }

    /** The project grant: the run's own, or a caller's, of which the run knows nothing. */
    method RevalidateProject() returns (error: Option<RunError>)
      modifies this`halted
      ensures old(halted) ==> halted
      ensures error.Some? ==> TerminalFor(error.value).Some?
      ensures error.None? && projectGrant.Some? ==> projectGrant.value in live
      ensures old(halted) && StopEnds() ==> error == Some(AuthorityRevoked(EmergencyStop))
    {
      var held: bool := *;
      if projectGrant.Some? {
        held := projectGrant.value in live;
      }
      error := Resolve(held);
    }

    method RevalidateStaging() returns (error: Option<RunError>)
      modifies this`halted
      ensures old(halted) ==> halted
      ensures error.Some? ==> TerminalFor(error.value).Some?
      ensures error.None? ==> staging.Some? && staging.value.grant.Some? && staging.value.grant.value in live
      ensures old(halted) && StopEnds() ==> error.Some?
    {
      if staging.None? || staging.value.grant.None? {
        return Some(Denied);
      }
      error := Resolve(staging.value.grant.value in live);
    }

    /** The project grant, then the staging grant. */
    method RevalidateBoth() returns (error: Option<RunError>)
      modifies this`halted
      ensures old(halted) ==> halted
      ensures error.Some? ==> TerminalFor(error.value).Some?
      ensures error.None? ==> Authorised()
      ensures old(halted) && StopEnds() ==> error == Some(AuthorityRevoked(EmergencyStop))
    {
      error := RevalidateProject();
      if error.None? {
        error := RevalidateStaging();
      }
    }

    // ---------------- Prepared operations ----------------

    method Prepare(kind: OpKind) returns (op: nat, ok: bool)
      requires Core()
      modifies this`nextOp, this`ledger
      ensures Core() && op == old(nextOp) && nextOp == op + 1
      ensures !ok ==> ledger == old(ledger)
      ensures ok ==> ledger == old(ledger) + [OperationPrepared(op, kind)]
      ensures Unmatched(ledger) == old(Unmatched(ledger)) + if ok then {op} else {}
      ensures ok ==> Prepared(ledger, op, kind)
    {
      hide Tracked, Apart, Protocol, Trail, TrailOf, Told, Unmatched, Prepared;
      op := nextOp;
      PreparedKept(ledger, op, kind);
      ProtocolMonotone(ledger, nextOp, nextOp + 1);
      nextOp := nextOp + 1;
      ok := Record(OperationPrepared(op, kind));
    }

    method Conclude(op: nat, success: bool) returns (ok: bool)
      requires Core() && op in Unmatched(ledger)
      modifies this`ledger
      ensures Core()
      ensures ledger == if ok then old(ledger) + [OperationOutcome(op, success)] else old(ledger)
      ensures Unmatched(ledger) == old(Unmatched(ledger)) - if ok then {op} else {}
    {
      hide Tracked, Apart, Protocol, Trail, TrailOf, Told, Unmatched;
      OutcomeKept(ledger, op, success, nextOp);
      ok := Record(OperationOutcome(op, success));
    }

    /**
     The end of a prepared mutation: its outcome is recorded, or the run requires
     recovery; a failed mutation invalidates the staging generation and ends the run.
     */
    method Settle(op: nat, failure: Option<RunError>) returns (error: Option<RunError>)
      requires Core() && !IsTerminal(state) && Unmatched(ledger) == {op}
      requires failure.Some? ==> TerminalFor(failure.value).Some? && TerminalFor(failure.value).value.Failed?
      modifies this`staging, this`cleanup, this`live, this`tree, this`projectOpen, this`projectClosed, this`ledger,
               this`state, this`generationValid, this`haltsLogged
      ensures Core()
      ensures error.None? ==>
                && failure.None? && state == old(state) && staging == old(staging) && tree == old(tree)
                && ledger == old(ledger) + [OperationOutcome(op, true)] && Unmatched(ledger) == {}
                && generationValid == old(generationValid) && cleanup == old(cleanup)
      ensures error.Some? ==>
                ErrorEnds(error.value, old(state), state) && (state.Failed? || state.RecoveryRequired?)
      ensures old(ledger) <= ledger
    {
      hide Tracked, Apart, Protocol, Trail, TrailOf, Told, Unmatched, Prepared;
      error := failure;
      var concluded := Conclude(op, failure.None?);
      if !concluded {
        var recovery := ForceRecovery(OutcomeNotRecorded, true);
        return Some(recovery);
      }
      if failure.Some? {
        generationValid := false;
        Fail(failure.value);
      }
    }

    /** What every staging mutation demands: its prepared record, with no outcome yet. */
    ghost predicate Underway(op: nat, kind: OpKind)
      reads this`ledger
    {
      op in Unmatched(ledger) && Prepared(ledger, op, kind)
    }

    // ---------------- Created -> Granted ----------------

    /** Create the run directory, confirm the parent still names it, issue the staging grant. */
    method Allocate(ghost op: nat) returns (error: Option<RunError>)
      requires Core() && staging.None? && state.Created? && Underway(op, AllocateStaging)
      modifies this`staging, this`live, this`nextGrant, this`issued, this`tree
      ensures Core() && staging.Some? && tree == StagingTree({}, map[]) && old(issued) <= issued
      ensures error.None? ==> staging.value.grant.Some? && !staging.value.revoked && staging.value.grant.value in live
      ensures error.Some? ==> TerminalFor(error.value).Some? && TerminalFor(error.value).value.Failed?
      ensures error.Some? ==> staging.value.grant.None?
    {
      hide Tracked, Apart, Protocol, Trail, TrailOf, Told, Unmatched;
      NewLeaseKept(projectGrant, projectClosed, issued, live, nextGrant);
      var lease := Lease(false, false, None, false, false);
      staging, tree := Some(lease), StagingTree({}, map[]);
      var fault: int := *;
      if fault == 0 {
        return Some(IoError);
      }
      LeaseKept(lease, Some(lease.(created := true)), projectGrant, projectClosed, issued, live, nextGrant);
      lease := lease.(created := true);
      staging := Some(lease);
      if fault == 1 {
        return Some(IoError);
      }
      LeaseKept(lease, Some(lease.(open := true)), projectGrant, projectClosed, issued, live, nextGrant);
      lease := lease.(open := true);
      staging := Some(lease);
      if fault == 2 {
        return Some(Moved);
      }
      if fault == 3 {
        return Some(IoError);
      }
      IssueKept(lease, projectGrant, projectClosed, issued, live, nextGrant);
      ApartIssued(lost, issued, projectGrant, nextGrant);
      live, issued, staging := live + {nextGrant}, issued + {nextGrant}, Some(lease.(grant := Some(nextGrant)));
      nextGrant := nextGrant + 1;
      return None;
    }

    /** Resolve the project grant, allocate staging under a prepared record, and record the grant. */
    method Grant() returns (error: Option<RunError>)
      requires Valid()
      modifies this`staging, this`cleanup, this`live, this`tree, this`projectOpen, this`projectClosed, this`ledger,
               this`state, this`generationValid, this`haltsLogged, this`halted,
               this`nextOp, this`nextGrant, this`issued
      ensures Valid() && Follows(old(state), state) && Traced(old(Done()), Done())
      ensures !old(state).Created? ==> error == Some(InvalidState)
      ensures old(halted) ==> halted && error.Some? && nextOp == old(nextOp) && tree == old(tree)
      ensures error.None? && projectGrant.Some? ==> projectGrant.value in old(live)
      ensures error.Some? ==> ErrorEnds(error.value, old(state), state)
      ensures error == Some(InvalidState) || error == Some(LedgerRefused) ==> ledger == old(ledger)
      ensures error.None? ==>
                && state.Granted? && staging.Some? && staging.value.grant.Some? && staging.value.grant.value in live
                && ledger == old(ledger) + [OperationPrepared(old(nextOp), AllocateStaging),
                                            OperationOutcome(old(nextOp), true), RunGranted(staging.value.grant.value)]
    {
      hide Tracked, Apart, Protocol, Trail, TrailOf, Told, Unmatched, Contents, Prepared, Traced, Fits;
      if !state.Created? {
        TracedPlain(Done(), Done());
        return Some(InvalidState);
      }
      error := RevalidateProject();
      if error.Some? {
        End(error.value);
        TracedPlain(old(Done()), Done());
        return;
      }
      projectOpen := true;
      error := GrantOpened();
    }

    /** The project directory is open: allocate under a prepared record, and record the grant. */
    method GrantOpened() returns (error: Option<RunError>)
      requires Valid() && state.Created?
      modifies this`staging, this`cleanup, this`live, this`tree, this`projectOpen, this`projectClosed, this`ledger,
               this`state, this`generationValid, this`haltsLogged, this`halted,
               this`nextOp, this`nextGrant, this`issued
      ensures Valid() && Follows(old(state), state) && Traced(old(Done()), Done())
      ensures error.Some? ==> ErrorEnds(error.value, old(state), state)
      ensures error == Some(LedgerRefused) ==> ledger == old(ledger)
      ensures error != Some(InvalidState)
      ensures error.None? ==>
                && state.Granted? && staging.Some? && staging.value.grant.Some? && staging.value.grant.value in live
                && ledger == old(ledger) + [OperationPrepared(old(nextOp), AllocateStaging),
                                            OperationOutcome(old(nextOp), true), RunGranted(staging.value.grant.value)]
    {
      hide Tracked, Apart, Protocol, Trail, TrailOf, Told, Unmatched, Contents, Prepared, Traced, Fits;
      var op, prepared := Prepare(AllocateStaging);
      if !prepared {
        TracedPlain(old(Done()), Done());
        return Some(LedgerRefused);
      }
      error := AllocatePrepared(op);
      if error.None? {
        error := FinishGrant();
      }
      TracedPrepared(old(Done()), Done(), AllocateStaging);
    }

    /** The allocation is prepared: begin a lease, or fail. */
    method AllocatePrepared(op: nat) returns (error: Option<RunError>)
      requires Core() && state.Created? && staging.None?
      requires Unmatched(ledger) == {op} && Prepared(ledger, op, AllocateStaging)
      modifies this`staging, this`cleanup, this`live, this`tree, this`projectOpen, this`projectClosed, this`ledger,
               this`state, this`generationValid, this`haltsLogged, this`halted,
               this`nextGrant, this`issued
      ensures Core() && old(ledger) <= ledger && OnlyRemoved(old(tree), tree) && old(issued) <= issued
      ensures error.None? ==>
                && state.Created? && staging.Some? && staging.value.grant.Some? && staging.value.grant.value in live
                && ledger == old(ledger) + [OperationOutcome(op, true)] && Unmatched(ledger) == {}
                && generationValid == old(generationValid) && cleanup == old(cleanup)
      ensures error.Some? ==>
                ErrorEnds(error.value, old(state), state) && (state.Failed? || state.RecoveryRequired?)
    {
      hide Tracked, Apart, Protocol, Trail, TrailOf, Told, Unmatched, Prepared;
      var begun: bool := *;
      if begun {
        error := AllocateUnder(op);
      } else {
        var noted := Conclude(op, false);
        error := Some(IoError);
        Fail(IoError);
      }
    }

    /** The allocation of a prepared operation, and its outcome. */
    method AllocateUnder(op: nat) returns (error: Option<RunError>)
      requires Core() && state.Created? && staging.None?
      requires Unmatched(ledger) == {op} && Prepared(ledger, op, AllocateStaging)
      modifies this`staging, this`cleanup, this`live, this`tree, this`projectOpen, this`projectClosed, this`ledger,
               this`state, this`generationValid, this`haltsLogged, this`halted,
               this`nextGrant, this`issued
      ensures Core() && old(ledger) <= ledger && OnlyRemoved(old(tree), tree) && old(issued) <= issued
      ensures error.None? ==>
                && state.Created? && staging.Some? && staging.value.grant.Some? && staging.value.grant.value in live
                && ledger == old(ledger) + [OperationOutcome(op, true)] && Unmatched(ledger) == {}
                && generationValid == old(generationValid) && cleanup == old(cleanup)
      ensures error.Some? ==>
                ErrorEnds(error.value, old(state), state) && (state.Failed? || state.RecoveryRequired?)
    {
      hide Tracked, Apart, Protocol, Trail, TrailOf, Told, Unmatched, Prepared;
      error := Allocate(op);
      var concluded := Conclude(op, error.None?);
      if !concluded {
        CloseStaging();
        var recovery := ForceRecovery(OutcomeNotRecorded, true);
        return Some(recovery);
      }
      if error.Some? {
        CloseStaging();
        Fail(error.value);
      }
    }

    /** The staging grant was issued: re-check it and record the grant. */
    method FinishGrant() returns (error: Option<RunError>)
      requires Core() && state.Created? && generationValid && cleanup.NotStarted? && Unmatched(ledger) == {}
      requires staging.Some? && staging.value.grant.Some? && staging.value.grant.value in live
      requires snapshot == map[] && accepted == []
      modifies this`staging, this`cleanup, this`live, this`tree, this`projectOpen, this`projectClosed, this`ledger,
               this`state, this`generationValid, this`haltsLogged, this`halted
      ensures Valid() && Follows(old(state), state) && old(ledger) <= ledger && OnlyRemoved(old(tree), tree)
      ensures error.Some? ==> ErrorEnds(error.value, old(state), state) && HasEnded(state)
      ensures error.None? ==>
                && state.Granted? && staging == old(staging) && live == old(live)
                && ledger == old(ledger) + [RunGranted(staging.value.grant.value)]
    {
      hide Tracked, Apart, Protocol, Trail, TrailOf, Told, Unmatched, Contents, Prepared, OnlyRemoved, Fits;
      error := RevalidateStaging();
      if error.Some? {
        EndUngranted(error.value);
        return;
      }
      RemovedNothing(tree);
      var recorded := RecordGranted();
      if !recorded {
        var recovery := ForceRecovery(GrantedNotRecorded, true);
        error := Some(recovery);
      }
    }

    /** The new grant is already gone: end the run, then remove its directory. */
    method EndUngranted(error: RunError)
      requires Core() && state.Created? && Unmatched(ledger) == {} && TerminalFor(error).Some?
      modifies this`staging, this`cleanup, this`live, this`tree, this`projectOpen, this`projectClosed, this`ledger,
               this`state, this`generationValid, this`haltsLogged
      ensures Valid() && HasEnded(state) && old(ledger) <= ledger && OnlyRemoved(old(tree), tree)
      ensures ErrorEnds(error, old(state), state) && Follows(old(state), state)
    {
      hide Tracked, Apart, Protocol, Trail, TrailOf, Told, Unmatched, Contents, Fits, OnlyRemoved, ErrorEnds;
      End(error);
      CloseStaging();
    }

    /** The run is granted once its grant is recorded. */
    method RecordGranted() returns (ok: bool)
      requires Core() && state.Created? && staging.Some? && staging.value.grant.Some?
      modifies this`ledger, this`state
      ensures Core() && Unmatched(ledger) == old(Unmatched(ledger))
      ensures ok ==> state.Granted? && ledger == old(ledger) + [RunGranted(staging.value.grant.value)]
      ensures !ok ==> state.Created? && ledger == old(ledger)
    {
      hide Tracked, Apart, Protocol, Trail, TrailOf, Told, Unmatched;
      var granted := RunGranted(staging.value.grant.value);
      GrantedKept(ledger, staging.value.grant.value, nextOp, doubled);
      ok := Record(granted);
      if ok {
        state := Granted;
      }
    }

    // ---------------- Granted -> Staged ----------------

    /** Copy the frozen read scope of the project, as it is now, into staging. */
    method TakeSnapshot(project: seq<Child>, listable: bool, device: nat) returns (error: Option<RunError>)
      requires Valid() && UniqueNames(project) && ValidScope(scopes.read)
      modifies this`staging, this`cleanup, this`live, this`tree, this`projectOpen, this`projectClosed, this`ledger,
               this`state, this`generationValid, this`haltsLogged, this`halted,
               this`nextOp, this`base, this`snapshot, this`accepted, this`baseContents
      ensures Valid() && Follows(old(state), state) && Traced(old(Done()), Done())
      ensures !old(state).Granted? ==> error == Some(InvalidState) && ledger == old(ledger)
      ensures old(halted) ==> halted && error.Some? && nextOp == old(nextOp) && tree == old(tree)
      ensures error.None? ==> old(Authorised())
      ensures error.Some? ==> ErrorEnds(error.value, old(state), state) && !(old(state).Granted? && state.Staged?)
      ensures error == Some(LedgerRefused) ==> ledger == old(ledger) && tree == old(tree)
      ensures accepted == old(accepted) && (error.Some? ==> snapshot == old(snapshot))
      ensures error.None? ==>
                && state.Staged? && snapshot == ScopeFiles(project, scopes.read) && tree.files == snapshot
                && SnapshotOk(project, listable, scopes.read, profile, device)
                && ledger == old(ledger) + [OperationPrepared(old(nextOp), SnapshotScope),
                                            OperationOutcome(old(nextOp), true)]
    {
      hide Tracked, Apart, Protocol, Trail, TrailOf, Told, Unmatched, Contents, Prepared, ScopeFiles, SnapshotOk,
           UniqueNames, ValidScope, Traced, Fits, CopiedWithin;
      if !state.Granted? {
        TracedPlain(Done(), Done());
        return Some(InvalidState);
      }
      error := RevalidateBoth();
      if error.Some? {
        End(error.value);
        TracedPlain(old(Done()), Done());
        return;
      }
      error := SnapshotChecked(project, listable, device);
    }

    /** Authority was checked: prepare, copy, record. */
    method SnapshotChecked(project: seq<Child>, listable: bool, device: nat) returns (error: Option<RunError>)
      requires Valid() && state.Granted? && UniqueNames(project) && ValidScope(scopes.read)
      modifies this`staging, this`cleanup, this`live, this`tree, this`projectOpen, this`projectClosed, this`ledger,
               this`state, this`generationValid, this`haltsLogged, this`halted,
               this`nextOp, this`base, this`snapshot, this`accepted, this`baseContents
      ensures Valid() && Follows(old(state), state) && Traced(old(Done()), Done())
      ensures error.Some? ==> ErrorEnds(error.value, old(state), state) && !state.Staged?
      ensures error == Some(LedgerRefused) ==> ledger == old(ledger) && tree == old(tree)
      ensures accepted == old(accepted) && (error.Some? ==> snapshot == old(snapshot))
      ensures error.None? ==>
                && state.Staged? && snapshot == ScopeFiles(project, scopes.read) && tree.files == snapshot
                && SnapshotOk(project, listable, scopes.read, profile, device)
                && ledger == old(ledger) + [OperationPrepared(old(nextOp), SnapshotScope),
                                            OperationOutcome(old(nextOp), true)]
    {
      hide Tracked, Apart, Protocol, Trail, TrailOf, Told, Unmatched, Contents, Prepared, ScopeFiles, SnapshotOk,
           UniqueNames, ValidScope, Traced, Fits, CopiedWithin;
      var op, prepared := Prepare(SnapshotScope);
      if !prepared {
        TracedPlain(old(Done()), Done());
        return Some(LedgerRefused);
      }
      var manifest;
      error, manifest := CopyUnder(op, project, listable, device);
      if error.None? {
        error := FinishSnapshot(manifest);
      }
      TracedPrepared(old(Done()), Done(), SnapshotScope);
    }

    /** The copy itself. */
    method CopyInto(ghost op: nat, project: seq<Child>, listable: bool, device: nat)
      returns (failure: Option<RunError>, manifest: map<Path, ManifestEntry>)
      requires UniqueNames(project) && ValidScope(scopes.read) && Underway(op, SnapshotScope)
      modifies this`tree
      ensures failure.None? ==>
                && tree.files == ScopeFiles(project, scopes.read) && ManifestOf(manifest, tree.files)
                && SnapshotOk(project, listable, scopes.read, profile, device)
                && CopiedWithin(scopes, profile, tree.files) && NormalDirs(tree.dirs)
      ensures failure.Some? ==> TerminalFor(failure.value).Some? && TerminalFor(failure.value).value.Failed?
    {
      hide ScopeFiles, SnapshotOk, UniqueNames, ValidScope, IsRelPath, NormalDirs;
      var r, entries, copied, bytes, faulted := CopyReadScope(project, listable, device, scopes.read, profile);
      tree, manifest, failure := copied, entries, CopyError(r);
      if r.Copied? {
        forall path | path in tree.files ensures Covers(scopes.read, path) {
          CopiedExactlyTheCoveredFiles(project, scopes.read, tree.files, path);
        }
      }
    }

    /** The copy of a prepared operation, and its outcome. */
    method CopyUnder(op: nat, project: seq<Child>, listable: bool, device: nat)
      returns (error: Option<RunError>, manifest: map<Path, ManifestEntry>)
      requires Core() && state.Granted? && UniqueNames(project) && ValidScope(scopes.read)
      requires Unmatched(ledger) == {op} && Prepared(ledger, op, SnapshotScope)
      modifies this`staging, this`cleanup, this`live, this`tree, this`projectOpen, this`projectClosed, this`ledger,
               this`state, this`generationValid, this`haltsLogged, this`halted
      ensures Core() && old(ledger) <= ledger
      ensures error.None? ==>
                && state.Granted? && staging == old(staging) && generationValid == old(generationValid)
                && cleanup == old(cleanup)
                && ledger == old(ledger) + [OperationOutcome(op, true)] && Unmatched(ledger) == {}
                && tree.files == ScopeFiles(project, scopes.read) && ManifestOf(manifest, tree.files)
                && SnapshotOk(project, listable, scopes.read, profile, device)
                && CopiedWithin(scopes, profile, tree.files) && NormalDirs(tree.dirs)
      ensures error.Some? ==>
                ErrorEnds(error.value, old(state), state) && (state.Failed? || state.RecoveryRequired?)
    {
      hide Tracked, Apart, Protocol, Trail, TrailOf, Told, Unmatched, Prepared, ScopeFiles, SnapshotOk, UniqueNames,
           ValidScope, CopiedWithin, NormalDirs, ManifestOf;
      var failure;
      failure, manifest := CopyInto(op, project, listable, device);
      error := Settle(op, failure);
    }

    method FinishSnapshot(manifest: map<Path, ManifestEntry>) returns (error: Option<RunError>)
      requires Core() && state.Granted? && generationValid && cleanup.NotStarted? && Unmatched(ledger) == {}
      requires staging.Some? && staging.value.grant.Some? && ManifestOf(manifest, tree.files)
      requires CopiedWithin(scopes, profile, tree.files) && NormalDirs(tree.dirs) && accepted == []
      modifies this`staging, this`cleanup, this`live, this`tree, this`projectOpen, this`projectClosed, this`ledger,
               this`state, this`generationValid, this`haltsLogged, this`halted,
               this`base, this`snapshot, this`accepted, this`baseContents
      ensures Valid() && Follows(old(state), state) && old(ledger) <= ledger && accepted == old(accepted)
      ensures error.Some? ==> ErrorEnds(error.value, old(state), state) && HasEnded(state) && snapshot == old(snapshot)
      ensures error.None? ==> state.Staged? && snapshot == tree.files && tree == old(tree) && ledger == old(ledger)
    {
      hide Tracked, Apart, Protocol, Trail, TrailOf, Told, Unmatched, Contents, Fits, ManifestOf, ErrorEnds,
           TerminalFor, HasEnded, CopiedWithin, NormalDirs;
      error := RevalidateBoth();
      if error.Some? {
        End(error.value);
      } else {
        EnterStaged(manifest);
      }
    }

    method EnterStaged(manifest: map<Path, ManifestEntry>)
      requires Core() && state.Granted? && generationValid && cleanup.NotStarted? && Unmatched(ledger) == {}
      requires staging.Some? && staging.value.grant.Some? && ManifestOf(manifest, tree.files)
      requires CopiedWithin(scopes, profile, tree.files) && NormalDirs(tree.dirs)
      modifies this`projectOpen, this`base, this`snapshot, this`accepted, this`baseContents, this`state
      ensures Valid() && state.Staged? && snapshot == tree.files && accepted == []
    {
      hide Tracked, Apart, Protocol, Trail, TrailOf, Told, Unmatched, Contents, Fits, ManifestOf, CopiedWithin,
           NormalDirs;
      Advanced(state, Staged, Trail(ledger), doubled);
      KeepBase(manifest);
      projectOpen, state := false, Staged;
    }

    /** The base manifest is that of what was copied, and nothing is edited yet. */
    method KeepBase(manifest: map<Path, ManifestEntry>)
      requires ManifestOf(manifest, tree.files) && CopiedWithin(scopes, profile, tree.files) && NormalDirs(tree.dirs)
      modifies this`base, this`snapshot, this`accepted, this`baseContents
      ensures Contents(scopes, profile, base, snapshot, accepted, tree, baseContents)
      ensures snapshot == tree.files && accepted == []
    {
      hide Contents, ManifestOf, CopiedWithin, NormalDirs;
      SnapshotContents(scopes, profile, manifest, tree);
      base, snapshot, accepted, baseContents := Some(manifest), tree.files, [], map[];
    }

    // ---------------- Staged/Candidate -> Candidate ----------------

    /** Classify a staging entry; a read can fail, and an entry can have been redirected. */
    method Kind(path: Path) returns (kind: EntryKind, fault: bool)
      ensures !fault ==> kind == KindAt(tree, path) || kind.OtherEntry?
    {
      fault := *;
      kind := KindAt(tree, path);
      var redirected: bool := *;
      if redirected {
        kind := OtherEntry;
      }
    }

    /** Walk to an edit's target without creating anything. */
    method ProbeTarget(edit: CandidateEdit) returns (probe: Probe)
      requires edit.path != []
      ensures probe.Clear? && edit.Replace? ==> edit.path in tree.files
      ensures probe.Clear? && edit.Create? ==>
                exists k :: 0 < k <= |edit.path| && KindAt(tree, edit.path[..k]).MissingEntry?
      ensures probe.Refuse? ==> probe.why == if edit.Replace? then NotStaged else AlreadyExists
      ensures probe.Refuse? && edit.Create? ==> edit.path in tree.files
      ensures probe.Broken? ==> TerminalFor(probe.error).Some? && TerminalFor(probe.error).value.Failed?
    {
      for k := 1 to |edit.path| {
        var kind, fault := Kind(edit.path[..k]);
        if fault {
          return Broken(IoError);
        }
        match kind {
          case DirectoryEntry =>
          case MissingEntry =>
            return if edit.Create? then Clear else Refuse(NotStaged);
          case _ => return Broken(Redirect);
        }
      }
      assert edit.path[..|edit.path|] == edit.path;
      var kind, fault := Kind(edit.path);
      if fault {
        return Broken(IoError);
      }
      match (kind, edit) {
        case (RegularEntry, Replace(_, _)) => return Clear;
        case (MissingEntry, Create(_, _)) => return Clear;
        case (MissingEntry, Replace(_, _)) => return Refuse(NotStaged);
        case (RegularEntry, Create(_, _)) => return Refuse(AlreadyExists);
        case _ => return Broken(Redirect);
      }
    }

    /** Write the edit: a replacement needs a file, a creation needs none; missing parents are made. */
    method ApplyEdit(ghost op: nat, edit: CandidateEdit) returns (error: Option<RunError>)
      requires edit.path != [] && Underway(op, OpKind.ApplyEdit)
      modifies this`tree
      ensures error.None? ==>
                && tree.files == old(tree).files[edit.path := edit.content]
                && (edit.Replace? <==> edit.path in old(tree).files) && DirsMade(old(tree).dirs, tree.dirs, edit.path)
      ensures error.Some? ==> TerminalFor(error.value).Some? && TerminalFor(error.value).value.Failed?
    {
      for k := 1 to |edit.path|
        invariant tree.files == old(tree).files && DirsMade(old(tree).dirs, tree.dirs, edit.path)
      {
        var kind, fault := Kind(edit.path[..k]);
        if fault {
          return Some(IoError);
        }
        match (kind, edit) {
          case (DirectoryEntry, _) =>
          case (MissingEntry, Create(_, _)) =>
            tree := tree.(dirs := tree.dirs + {edit.path[..k]});
          case _ => return Some(Redirect);
        }
      }
      var written: bool := *;
      if !written || (edit.Create? && edit.path in tree.files) || (edit.Replace? && edit.path !in tree.files) {
        return Some(Redirect);
      }
      tree := tree.(files := tree.files[edit.path := edit.content]);
      var synced: bool := *;
      return if synced then None else Some(Redirect);
    }

    /** Before a base file is first replaced, keep its staged bytes, which must still be its base bytes. */
    method CaptureBase(edit: CandidateEdit) returns (error: Option<RunError>)
      requires base.Some? && Contents(scopes, profile, base, snapshot, accepted, tree, baseContents)
      modifies this`baseContents
      ensures Contents(scopes, profile, base, snapshot, accepted, tree, baseContents)
      ensures error.None? && edit.Replace? && edit.path in base.value ==> edit.path in baseContents
      ensures error.Some? ==> TerminalFor(error.value).Some? && TerminalFor(error.value).value.Failed?
      ensures forall path :: path in old(baseContents) ==>
                path in baseContents && baseContents[path] == old(baseContents)[path]
    {
      hide Contents, Fits;
      if edit.Create? || edit.path in baseContents || edit.path !in base.value {
        return None;
      }
      var readable: bool := *;
      if readable && edit.path in tree.files && EntryOf(tree.files[edit.path]) == base.value[edit.path] {
        CaptureKeepsContents(scopes, profile, base, snapshot, accepted, tree, baseContents, edit.path,
                tree.files[edit.path]);
        baseContents := baseContents[edit.path := tree.files[edit.path]];
        return None;
      }
      return Some(Redirect);
    }

    /** A rejected edit is a required security event: a run that cannot record it cannot go on. */
    method RejectEdit(rejection: EditRejection) returns (error: RunError)
      requires Valid() && (state.Staged? || state.Candidate?)
      modifies this`staging, this`cleanup, this`live, this`tree, this`projectOpen, this`projectClosed, this`ledger,
               this`state, this`generationValid
      ensures Valid() && Follows(old(state), state) && tree == old(tree) && old(ledger) <= ledger
      ensures error == EditRefused(rejection) ==> state == old(state) && ledger == old(ledger) + [EditRejected]
      ensures error != EditRefused(rejection) ==>
                error.NeedsRecovery? && ErrorEnds(error, old(state), state) && HasEnded(state)
    {
      hide Tracked, Apart, Protocol, Trail, TrailOf, Told, Unmatched, Contents, Fits;
      var recorded := RecordNote(EditRejected);
      if recorded {
        return EditRefused(rejection);
      }
      error := ForceRecovery(RejectionNotRecorded, false);
    }

    /**
     Apply one candidate edit, to staging only.  (The source also refuses an
     invalid generation here; `Valid` shows that none is left in these states.)
     */
    method Edit(edit: CandidateEdit) returns (error: Option<RunError>)
      requires Valid() && IsRelPath(edit.path)
      modifies this`staging, this`cleanup, this`live, this`tree, this`projectOpen, this`projectClosed, this`ledger,
               this`state, this`generationValid, this`haltsLogged, this`halted,
               this`nextOp, this`baseContents, this`created, this`accepted
      ensures Valid() && Follows(old(state), state) && Traced(old(Done()), Done())
      ensures !old(state).Staged? && !old(state).Candidate? ==> error == Some(InvalidState) && ledger == old(ledger)
      ensures old(halted) ==> halted && error.Some? && nextOp == old(nextOp) && tree == old(tree)
      ensures error.None? ==> old(Authorised())
      ensures error.Some? ==> ErrorEnds(error.value, old(state), state) && accepted == old(accepted)
      ensures error.Some? && !HasEnded(state) ==> tree.files == old(tree).files
      ensures error.None? ==>
                && state.Candidate? && PolicyRejection(scopes, profile, edit).None?
                && accepted == old(accepted) + [edit]
                && tree.files == old(tree).files[edit.path := edit.content]
                && (edit.Replace? <==> edit.path in old(tree).files)
                && ledger == old(ledger) + [OperationPrepared(old(nextOp), OpKind.ApplyEdit),
                                            OperationOutcome(old(nextOp), true)]
    {
      hide Tracked, Apart, Protocol, Trail, TrailOf, Told, Unmatched, Contents, Prepared, PolicyRejection, KindAt,
           IsRelPath, Traced, Fits, Allowed;
      if !state.Staged? && !state.Candidate? {
        TracedPlain(Done(), Done());
        return Some(InvalidState);
      }
      var rejection := PolicyRejection(scopes, profile, edit);
      if rejection.Some? {
        var refused := RejectEdit(rejection.value);
        TracedPlain(old(Done()), Done());
        return Some(refused);
      }
      error := RevalidateBoth();
      if error.Some? {
        End(error.value);
        TracedPlain(old(Done()), Done());
        return;
      }
      PathNotEmpty(scopes, profile, edit);
      error := EditChecked(edit);
    }

    /** Policy and authority were checked: probe the target, then edit it. */
    method EditChecked(edit: CandidateEdit) returns (error: Option<RunError>)
      requires Valid() && edit.path != [] && (state.Staged? || state.Candidate?) && Allowed(scopes, profile, edit)
      modifies this`staging, this`cleanup, this`live, this`tree, this`projectOpen, this`projectClosed, this`ledger,
               this`state, this`generationValid, this`haltsLogged, this`halted,
               this`nextOp, this`baseContents, this`created, this`accepted
      ensures Valid() && Follows(old(state), state) && Traced(old(Done()), Done())
      ensures error.Some? ==> ErrorEnds(error.value, old(state), state) && accepted == old(accepted)
      ensures error.Some? && !HasEnded(state) ==> tree.files == old(tree).files
      ensures error.None? ==>
                && state.Candidate?
                && accepted == old(accepted) + [edit]
                && tree.files == old(tree).files[edit.path := edit.content]
                && (edit.Replace? <==> edit.path in old(tree).files)
                && ledger == old(ledger) + [OperationPrepared(old(nextOp), OpKind.ApplyEdit),
                                            OperationOutcome(old(nextOp), true)]
    {
      hide Tracked, Apart, Protocol, Trail, TrailOf, Told, Unmatched, Contents, Prepared, KindAt, Traced, Fits, Allowed;
      var probe := ProbeTarget(edit);
      match probe {
        case Refuse(why) =>
          var refused := RejectEdit(why);
          TracedPlain(old(Done()), Done());
          return Some(refused);
        case Broken(broken) =>
          End(broken);
          TracedPlain(old(Done()), Done());
          return Some(broken);
        case Clear =>
          error := EditProbed(edit);
      }
    }

    /** The target was probed: capture its base bytes, then prepare, apply, record. */
    method EditProbed(edit: CandidateEdit) returns (error: Option<RunError>)
      requires Valid() && edit.path != [] && (state.Staged? || state.Candidate?) && Allowed(scopes, profile, edit)
      modifies this`staging, this`cleanup, this`live, this`tree, this`projectOpen, this`projectClosed, this`ledger,
               this`state, this`generationValid, this`haltsLogged, this`halted,
               this`nextOp, this`baseContents, this`created, this`accepted
      ensures Valid() && Follows(old(state), state) && Traced(old(Done()), Done())
      ensures error.Some? ==> ErrorEnds(error.value, old(state), state) && accepted == old(accepted)
      ensures error.Some? && !HasEnded(state) ==> tree.files == old(tree).files
      ensures error.None? ==>
                && state.Candidate?
                && accepted == old(accepted) + [edit]
                && tree.files == old(tree).files[edit.path := edit.content]
                && (edit.Replace? <==> edit.path in old(tree).files)
                && ledger == old(ledger) + [OperationPrepared(old(nextOp), OpKind.ApplyEdit),
                                            OperationOutcome(old(nextOp), true)]
    {
      hide Tracked, Apart, Protocol, Trail, TrailOf, Told, Unmatched, Contents, Prepared, Traced, Fits, Allowed;
      ContentsFacts(scopes, profile, base, snapshot, accepted, tree, baseContents);
      error := CaptureBase(edit);
      if error.Some? {
        End(error.value);
        TracedPlain(old(Done()), Done());
        return;
      }
      error := EditCaptured(edit);
    }

    /** The base bytes of the target are kept: prepare, apply, record. */
    method EditCaptured(edit: CandidateEdit) returns (error: Option<RunError>)
      requires Valid() && edit.path != [] && (state.Staged? || state.Candidate?) && Allowed(scopes, profile, edit)
      requires base.Some? && (edit.Replace? && edit.path in base.value ==> edit.path in baseContents)
      modifies this`staging, this`cleanup, this`live, this`tree, this`projectOpen, this`projectClosed, this`ledger,
               this`state, this`generationValid, this`haltsLogged, this`halted,
               this`nextOp, this`created, this`accepted
      ensures Valid() && Follows(old(state), state) && Traced(old(Done()), Done())
      ensures error.Some? ==> ErrorEnds(error.value, old(state), state) && accepted == old(accepted)
      ensures error.Some? && !HasEnded(state) ==> tree.files == old(tree).files
      ensures error.None? ==>
                && state.Candidate?
                && accepted == old(accepted) + [edit]
                && tree.files == old(tree).files[edit.path := edit.content]
                && (edit.Replace? <==> edit.path in old(tree).files)
                && ledger == old(ledger) + [OperationPrepared(old(nextOp), OpKind.ApplyEdit),
                                            OperationOutcome(old(nextOp), true)]
    {
      hide Tracked, Apart, Protocol, Trail, TrailOf, Told, Unmatched, Contents, Prepared, Traced, Fits, Allowed;
      hide ErrorEnds, Follows, OnlyRemoved;
      RemovedNothing(tree);
      RefusedKeeps(state);
      var op, prepared := Prepare(OpKind.ApplyEdit);
      if !prepared {
        TracedPlain(old(Done()), Done());
        return Some(LedgerRefused);
      }
      error := EditPrepared(op, edit);
      TracedPrepared(old(Done()), Done(), OpKind.ApplyEdit);
    }

    /** The edit is prepared: apply it, record its outcome, and re-check authority. */
    method EditPrepared(op: nat, edit: CandidateEdit) returns (error: Option<RunError>)
      requires Core() && LeaseMatches() && edit.path != [] && (state.Staged? || state.Candidate?)
      requires generationValid && cleanup.NotStarted? && Unmatched(ledger) == {op}
               && Prepared(ledger, op, OpKind.ApplyEdit)
      requires Contents(scopes, profile, base, snapshot, accepted, tree, baseContents) && Allowed(scopes, profile, edit)
      requires base.Some? && (edit.Replace? && edit.path in base.value ==> edit.path in baseContents)
      modifies this`staging, this`cleanup, this`live, this`tree, this`projectOpen, this`projectClosed, this`ledger,
               this`state, this`generationValid, this`haltsLogged, this`halted,
               this`created, this`accepted
      ensures Valid() && Follows(old(state), state) && old(ledger) <= ledger
      ensures error.Some? ==> ErrorEnds(error.value, old(state), state) && HasEnded(state) && accepted == old(accepted)
      ensures error.None? ==>
                && state.Candidate? && accepted == old(accepted) + [edit]
                && tree.files == old(tree).files[edit.path := edit.content]
                && (edit.Replace? <==> edit.path in old(tree).files)
                && ledger == old(ledger) + [OperationOutcome(op, true)]
    {
      hide Tracked, Apart, Protocol, Trail, TrailOf, Told, Unmatched, Contents, Prepared, Fits, Allowed, DirsMade;
      ContentsFacts(scopes, profile, base, snapshot, accepted, tree, baseContents);
      error := ApplyUnder(op, edit);
      if error.None? {
        error := FinishEdit(edit, old(tree));
      }
    }

    /** The edit of a prepared operation, and its outcome. */
    method ApplyUnder(op: nat, edit: CandidateEdit) returns (error: Option<RunError>)
      requires Core() && !IsTerminal(state) && edit.path != []
      requires Unmatched(ledger) == {op} && Prepared(ledger, op, OpKind.ApplyEdit)
      modifies this`staging, this`cleanup, this`live, this`tree, this`projectOpen, this`projectClosed, this`ledger,
               this`state, this`generationValid, this`haltsLogged
      ensures Core() && old(ledger) <= ledger
      ensures error.None? ==>
                && state == old(state) && staging == old(staging) && generationValid == old(generationValid)
                && cleanup == old(cleanup)
                && ledger == old(ledger) + [OperationOutcome(op, true)] && Unmatched(ledger) == {}
                && tree.files == old(tree).files[edit.path := edit.content]
                && (edit.Replace? <==> edit.path in old(tree).files) && DirsMade(old(tree).dirs, tree.dirs, edit.path)
      ensures error.Some? ==>
                ErrorEnds(error.value, old(state), state) && (state.Failed? || state.RecoveryRequired?)
    {
      hide Tracked, Apart, Protocol, Trail, TrailOf, Told, Unmatched, Prepared, DirsMade;
      var failure := ApplyEdit(op, edit);
      error := Settle(op, failure);
    }

    /** The edit's outcome is recorded: re-check the staging grant. */
    method FinishEdit(edit: CandidateEdit, ghost before: StagingTree) returns (error: Option<RunError>)
      requires Core() && (state.Staged? || state.Candidate?) && generationValid && cleanup.NotStarted?
      requires Unmatched(ledger) == {} && staging.Some? && staging.value.grant.Some?
      requires Contents(scopes, profile, base, snapshot, accepted, before, baseContents) && Allowed(scopes, profile, edit)
      requires base.Some? && (edit.path in base.value ==> edit.path in baseContents)
      requires tree.files == before.files[edit.path := edit.content] && (edit.Replace? <==> edit.path in before.files)
      requires DirsMade(before.dirs, tree.dirs, edit.path)
      modifies this`staging, this`live, this`projectOpen, this`projectClosed, this`ledger, this`state,
               this`generationValid, this`haltsLogged, this`halted,
               this`created, this`accepted
      ensures Valid() && Follows(old(state), state) && old(ledger) <= ledger
      ensures error.Some? ==> ErrorEnds(error.value, old(state), state) && HasEnded(state) && accepted == old(accepted)
      ensures error.None? ==> state.Candidate? && accepted == old(accepted) + [edit] && ledger == old(ledger)
    {
      hide Tracked, Apart, Protocol, Trail, TrailOf, Told, Unmatched, Contents, Allowed, DirsMade, Fits;
      error := RevalidateStaging();
      if error.Some? {
        End(error.value);
      } else {
        EnterCandidate(edit, before);
      }
    }

    method EnterCandidate(edit: CandidateEdit, ghost before: StagingTree)
      requires Core() && (state.Staged? || state.Candidate?) && generationValid && cleanup.NotStarted?
      requires Unmatched(ledger) == {} && staging.Some? && staging.value.grant.Some?
      requires Contents(scopes, profile, base, snapshot, accepted, before, baseContents) && Allowed(scopes, profile, edit)
      requires base.Some? && (edit.path in base.value ==> edit.path in baseContents)
      requires tree.files == before.files[edit.path := edit.content] && (edit.Replace? <==> edit.path in before.files)
      requires DirsMade(before.dirs, tree.dirs, edit.path)
      modifies this`created, this`accepted, this`state
      ensures Valid() && state.Candidate? && accepted == old(accepted) + [edit]
      ensures created == old(created) + if edit.Create? then {edit.path} else {}
    {
      hide Tracked, Apart, Protocol, Trail, TrailOf, Told, Unmatched, Contents, Allowed, DirsMade, Fits;
      EditKeepsContents(scopes, profile, base, snapshot, accepted, before, tree, baseContents, edit);
      Advanced(state, Candidate, Trail(ledger), doubled);
      if edit.Create? {
        created := created + {edit.path};
      }
      accepted := accepted + [edit];
      state := Candidate;
    }

    // ---------------- Candidate -> StructurallyVerified ----------------

    /**
     Verify the candidate: authority, the ledger, then the structural scan, whose
     result is recorded; a pass revokes the staging grant and closes project read
     first.  If every entry answered the scan (`faulted` otherwise), the candidate
     passes exactly when its files are within the caps on count and total size.
     */
    method VerifyStructural() returns (error: Option<RunError>, passed: bool, ghost faulted: bool)
      requires Valid() && scopes.Valid()
      modifies this`staging, this`live, this`projectOpen, this`projectClosed, this`ledger, this`state,
               this`generationValid, this`verified, this`cleanup, this`tree, this`haltsLogged, this`halted
      ensures Valid() && Follows(old(state), state) && old(ledger) <= ledger && OnlyRemoved(old(tree), tree)
      ensures !old(state).Candidate? ==> error == Some(InvalidState) && ledger == old(ledger)
      ensures old(halted) ==> halted && error.Some? && tree == old(tree)
      ensures error.None? ==> old(Authorised()) && (passed <==> !faulted && Fits(old(tree).files, profile))
      ensures error.Some? ==> ErrorEnds(error.value, old(state), state)
      ensures error != Some(NeedsRecovery(UnmatchedPrepared))
      ensures error.None? && passed ==>
                && state.StructurallyVerified? && verified && StagingClosed(staging) && projectClosed
                && tree == old(tree) && ledger == old(ledger) + [StructuralVerification(true)]
      ensures error.None? && !passed ==> EndOf(Failed(StructuralRejected), state) && HasEnded(state)
    {
      hide Tracked, Apart, Protocol, Trail, TrailOf, Told, Unmatched, Contents, Fits, RunScopes.Valid;
      passed, faulted := false, false;
      if !state.Candidate? {
        return Some(InvalidState), false, false;
      }
      error := RevalidateBoth();
      if error.Some? {
        End(error.value);
        return;
      }
      error := AnalyzeLedger();
      if error.Some? {
        return;
      }
      error, passed, faulted := ScanCandidate();
    }

    /** Scan, record the result, and enter the state it leads to. */
    method ScanCandidate() returns (error: Option<RunError>, passed: bool, ghost faulted: bool)
      requires Valid() && state.Candidate? && scopes.Valid()
      modifies this`staging, this`live, this`projectOpen, this`projectClosed, this`ledger, this`state,
               this`generationValid, this`verified, this`cleanup, this`tree
      ensures Valid() && Follows(old(state), state) && old(ledger) <= ledger && OnlyRemoved(old(tree), tree)
      ensures error.Some? ==> ErrorEnds(error.value, old(state), state) && error != Some(NeedsRecovery(UnmatchedPrepared))
      ensures error.None? ==> (passed <==> !faulted && Fits(old(tree).files, profile))
      ensures error.None? && passed ==>
                && state.StructurallyVerified? && verified && StagingClosed(staging) && projectClosed
                && tree == old(tree) && ledger == old(ledger) + [StructuralVerification(true)]
      ensures error.None? && !passed ==> EndOf(Failed(StructuralRejected), state) && HasEnded(state)
    {
      hide Tracked, Apart, Protocol, Trail, TrailOf, Told, Unmatched, Contents, Fits, RunScopes.Valid;
      passed, faulted := Scanned();
      error := None;
      var recorded := RecordNote(StructuralVerification(passed));
      if !recorded {
        return Some(LedgerRefused), false, faulted;
      }
      if passed {
        error := CloseVerified();
      } else {
        EndRun(Failed(StructuralRejected));
      }
    }

    /** Whether the scan of the candidate finds nothing. */
    method Scanned() returns (passed: bool, ghost faulted: bool)
      requires Valid() && state.Candidate? && scopes.Valid()
      ensures passed ==> Fits(tree.files, profile)
      ensures passed <==> !faulted && Fits(tree.files, profile)
    {
      hide Tracked, Apart, Protocol, Trail, TrailOf, Told, Unmatched, Contents, Fits, RunScopes.Valid,
           Structural.Within;
      ContentsFacts(scopes, profile, base, snapshot, accepted, tree, baseContents);
      HonestCandidate(scopes, profile, base.value, snapshot, accepted, tree, baseContents);
      var violations;
      violations, faulted := Structural.Scan(scopes, profile, base.value, tree);
      passed := violations == [];
    }

    /**
     Verification needs a ledger that verifies and has no open operation.  The
     run's own ledger never has one here, so the source's refusal for an unmatched
     operation cannot happen.
     */
    method AnalyzeLedger() returns (error: Option<RunError>)
      requires Valid() && !IsTerminal(state)
      modifies this`staging, this`live, this`projectOpen, this`projectClosed, this`ledger, this`state,
               this`generationValid
      ensures Valid() && Follows(old(state), state) && old(ledger) <= ledger
      ensures error.Some? ==> ErrorEnds(error.value, old(state), state)
      ensures error.None? ==> state == old(state) && ledger == old(ledger) && staging == old(staging) && live == old(live)
      ensures error != Some(NeedsRecovery(UnmatchedPrepared))
    {
      hide Tracked, Apart, Protocol, Trail, TrailOf, Told, Unmatched, Contents, Fits;
      var verified: int := *;
      if verified == 0 {
        EndRun(RecoveryRequired(LedgerIntegrity));
        return Some(NeedsRecovery(LedgerIntegrity));
      }
      if verified == 1 {
        return Some(LedgerRefused);
      }
      var open := OpenOperations(ledger);
      assert open == {};
      return None;
    }

    /** `EnterTerminal` at a point where no operation is open. */
    method EndRun(requested: RunState)
      requires Core() && !IsTerminal(state) && Unmatched(ledger) == {} && HasEnded(requested)
      modifies this`staging, this`live, this`projectOpen, this`projectClosed, this`ledger, this`state,
               this`generationValid
      ensures Valid() && HasEnded(state) && EndOf(requested, state) && Follows(old(state), state)
      ensures old(ledger) <= ledger
    {
      hide Tracked, Apart, Protocol, Trail, TrailOf, Told, Unmatched, Contents, Fits;
      var recorded := EnterTerminal(requested);
    }

    /** The verified candidate keeps its bytes and no authority. */
    method CloseVerified() returns (error: Option<RunError>)
      requires Valid() && state.Candidate? && Fits(tree.files, profile)
      modifies this`staging, this`live, this`projectOpen, this`projectClosed, this`ledger, this`state,
               this`generationValid, this`verified, this`cleanup, this`tree
      ensures Valid() && Follows(old(state), state) && tree == old(tree) && old(ledger) <= ledger
      ensures error != Some(NeedsRecovery(UnmatchedPrepared))
      ensures error.None? ==>
                state.StructurallyVerified? && verified && StagingClosed(staging) && projectClosed
                    && ledger == old(ledger)
      ensures error.Some? ==> ErrorEnds(error.value, old(state), state) && HasEnded(state)
    {
      hide Tracked, Apart, Protocol, Trail, TrailOf, Told, Unmatched, Contents, Fits;
      var stuck := RevokeBeforeVerified();
      if stuck.Some? {
        var recovery := ForceRecovery(stuck.value, false);
        return Some(recovery);
      }
      Advanced(state, StructurallyVerified, Trail(ledger), doubled);
      verified := true;
      state := StructurallyVerified;
      return None;
    }

    method RevokeBeforeVerified() returns (stuck: Option<RecoveryReason>)
      requires Core() && !IsTerminal(state) && staging.Some?
      modifies this`staging, this`live, this`projectOpen, this`projectClosed
      ensures Core() && staging.Some?
      ensures staging.value == old(staging).value.(revoked := staging.value.revoked)
      ensures stuck.None? <==> StagingClosed(staging) && projectClosed
      ensures stuck.Some? ==> RevocationFailed(RecoveryRequired(stuck.value))
    {
      hide Tracked, Apart, Protocol, Trail, TrailOf, Told, Unmatched;
      var lease := RevokeGrant(staging.value);
      staging := Some(lease);
      if !LeaseClosed(lease) {
        return Some(StagingRevocationFailed);
      }
      var closed := CloseProjectRead();
      return if closed then None else Some(ProjectRevocationFailed);
    }

    // ---------------- Review, reads, worker, cleanup ----------------

    /** Compute the owner's review; a candidate found changed is withdrawn for good. */
    method Review() returns (error: Option<RunError>)
      requires Valid()
      modifies this`verified, this`generationValid, this`ledger
      ensures Valid() && old(ledger) <= ledger
      ensures error.None? ==>
                state.StructurallyVerified? && verified && generationValid && ledger == old(ledger) + [ReviewComputed]
      ensures error == Some(CandidateChanged) && old(verified) && old(generationValid) ==> !verified && !generationValid
      ensures !state.StructurallyVerified? ==> error == Some(InvalidState) && ledger == old(ledger)
    {
      hide Tracked, Apart, Protocol, Trail, TrailOf, Told, Unmatched, Contents, Fits;
      if !state.StructurallyVerified? {
        return Some(InvalidState);
      }
      if !verified {
        return Some(CandidateUnavailable);
      }
      if !generationValid {
        return Some(CandidateChanged);
      }
      var intact: bool := *;
      if !intact {
        verified, generationValid := false, false;
        var noted := RecordNote(CandidateWithdrawn);
        return Some(CandidateChanged);
      }
      var recorded := RecordNote(ReviewComputed);
      return if recorded then None else Some(LedgerRefused);
    }

    method PinModel() returns (error: Option<RunError>)
      requires Valid()
      modifies this`modelPinned, this`ledger
      ensures Valid() && (old(modelPinned) ==> modelPinned)
      ensures error.None? ==> state.Staged? && !old(modelPinned) && modelPinned && ledger == old(ledger) + [ModelPinned]
      ensures error.Some? ==> modelPinned == old(modelPinned) && ledger == old(ledger)
    {
      hide Tracked, Apart, Protocol, Trail, TrailOf, Told, Unmatched, Contents, Fits;
      if !state.Staged? || modelPinned {
        return Some(InvalidState);
      }
      var recorded := RecordNote(ModelPinned);
      if !recorded {
        return Some(LedgerRefused);
      }
      modelPinned := true;
      return None;
    }

    /** Read one staged file of the read scope; the read is recorded before its content is returned. */
    method ReadStaged(path: Path, maxBytes: nat) returns (error: Option<RunError>, content: Bytes)
      requires Valid() && path != []
      modifies this`staging, this`live, this`projectOpen, this`projectClosed, this`ledger, this`state,
               this`generationValid, this`haltsLogged, this`halted
      ensures Valid() && Follows(old(state), state) && old(ledger) <= ledger
      ensures error.None? ==>
                && state == old(state) && Covers(scopes.read, path) && path in tree.files && content == tree.files[path]
                && |content| <= maxBytes && |content| <= profile.maxFileBytes && ledger == old(ledger) + [WorkerRead]
      ensures error.Some? ==> content == [] && ErrorEnds(error.value, old(state), state)
      ensures old(halted) ==> halted && error.Some?
      ensures error.None? ==> old(Authorised())
    {
      hide Tracked, Apart, Protocol, Trail, TrailOf, Told, Unmatched, Contents, Fits, Covers;
      content := [];
      if !state.Staged? && !state.Candidate? {
        return Some(InvalidState), [];
      }
      if !Covers(scopes.read, path) {
        return Some(EditRefused(OutsideReadScope)), [];
      }
      error := RevalidateBoth();
      if error.Some? {
        End(error.value);
        return;
      }
      error, content := ReadProbed(path, maxBytes);
    }

    method ReadProbed(path: Path, maxBytes: nat) returns (error: Option<RunError>, content: Bytes)
      requires Valid() && !IsTerminal(state) && path != []
      modifies this`staging, this`live, this`projectOpen, this`projectClosed, this`ledger, this`state,
               this`generationValid, this`haltsLogged
      ensures Valid() && Follows(old(state), state) && old(ledger) <= ledger
      ensures error.None? ==>
                && state == old(state) && path in tree.files && content == tree.files[path]
                && |content| <= maxBytes && |content| <= profile.maxFileBytes && ledger == old(ledger) + [WorkerRead]
      ensures error.Some? ==> content == [] && ErrorEnds(error.value, old(state), state)
    {
      hide Tracked, Apart, Protocol, Trail, TrailOf, Told, Unmatched, Contents, Fits;
      var probe := ProbeTarget(Replace(path, []));
      match probe {
        case Refuse(why) => return Some(EditRefused(why)), [];
        case Broken(broken) =>
          End(broken);
          return Some(broken), [];
        case Clear =>
      }
      if |tree.files[path]| > maxBytes || |tree.files[path]| > profile.maxFileBytes {
        return Some(EditRefused(TooLarge)), [];
      }
      var fault: bool := *;
      if fault {
        End(IoError);
        return Some(IoError), [];
      }
      var recorded := RecordNote(WorkerRead);
      if !recorded {
        return Some(LedgerRefused), [];
      }
      return None, tree.files[path];
    }

    /** End a live run for a worker-level failure. */
    method FailWorker(reason: FailureReason)
      requires Valid()
      modifies this`staging, this`live, this`projectOpen, this`projectClosed, this`ledger, this`state,
               this`generationValid
      ensures Valid() && Follows(old(state), state) && old(ledger) <= ledger
      ensures if old(IsTerminal(state)) then state == old(state) && ledger == old(ledger)
              else EndOf(Failed(reason), state)
    {
      hide Tracked, Apart, Protocol, Trail, TrailOf, Told, Unmatched, Contents, Fits;
      if !IsTerminal(state) {
        EndRun(Failed(reason));
      }
    }

    /** Cancel a live run; success only if it actually ended cancelled. */
    method Cancel() returns (error: Option<RunError>)
      requires Valid()
      modifies this`staging, this`live, this`projectOpen, this`projectClosed, this`ledger, this`state,
               this`generationValid
      ensures Valid() && Follows(old(state), state) && old(ledger) <= ledger
      ensures old(IsTerminal(state)) ==> error == Some(InvalidState) && state == old(state) && ledger == old(ledger)
      ensures !old(IsTerminal(state)) ==> EndOf(Cancelled, state) && (error.None? <==> state == Cancelled)
      ensures !old(IsTerminal(state)) && error.Some? ==>
                state.RecoveryRequired? && error.value == NeedsRecovery(state.recovery)
    {
      hide Tracked, Apart, Protocol, Trail, TrailOf, Told, Unmatched, Contents, Fits;
      if IsTerminal(state) {
        return Some(InvalidState);
      }
      EndRun(Cancelled);
      return if state.RecoveryRequired? then Some(NeedsRecovery(state.recovery)) else None;
    }

    /** Revoke a live run; success only if it actually ended revoked. */
    method Revoke() returns (error: Option<RunError>)
      requires Valid()
      modifies this`staging, this`live, this`projectOpen, this`projectClosed, this`ledger, this`state,
               this`generationValid
      ensures Valid() && Follows(old(state), state) && old(ledger) <= ledger
      ensures old(IsTerminal(state)) ==> error == Some(InvalidState) && state == old(state) && ledger == old(ledger)
      ensures !old(IsTerminal(state)) ==> EndOf(Revoked(Explicit), state) && (error.None? <==> state == Revoked(Explicit))
      ensures !old(IsTerminal(state)) && error.Some? ==>
                state.RecoveryRequired? && error.value == NeedsRecovery(state.recovery)
    {
      hide Tracked, Apart, Protocol, Trail, TrailOf, Told, Unmatched, Contents, Fits;
      if IsTerminal(state) {
        return Some(InvalidState);
      }
      EndRun(Revoked(Explicit));
      return if state.RecoveryRequired? then Some(NeedsRecovery(state.recovery)) else None;
    }

    /**
     The worker body panicked, and `interruption` says what it was doing.  A live
     run, or a verified candidate not applied, requires recovery; its authority is
     closed first.
     */
    method WorkerPanics(interruption: Interruption)
      requires Valid()
      modifies this`staging, this`cleanup, this`live, this`tree, this`projectOpen, this`projectClosed, this`ledger,
               this`state, this`generationValid, this`verified, this`nextOp, this`nextGrant, this`issued, this`lost,
               this`doubled
      ensures Valid() && Follows(old(state), state) && Traced(old(Done()), Done())
      ensures old(StopEnds()) ==> state == RecoveryRequired(WorkerPanicked) || RevocationFailed(state)
      ensures old(StopEnds()) ==> !verified && !generationValid
      ensures !old(StopEnds()) ==> state == old(state) && ledger == old(ledger)
      ensures doubled == (old(doubled) || (old(StopEnds()) && Ends(interruption)))
      ensures old(StopEnds()) && Ends(interruption) && old(staging).None? && old(projectClosed) ==>
                ledger == old(ledger) + [RunEnded(interruption.requested)] +
                          if interruption.again then [RunEnded(state)] else []
      ensures old(StopEnds()) && old(staging).None? && old(projectClosed) && !interruption.AfterAllocation? ==>
                state == RecoveryRequired(WorkerPanicked)
      ensures halted ==> nextOp == old(nextOp) && tree == old(tree)
      ensures if old(state).Created? && !halted && interruption == DuringAllocation(true, false)
              then lost == old(lost) + {old(nextGrant)} && old(nextGrant) in live && old(nextGrant) !in old(live)
              else lost == old(lost)
    {
      hide Tracked, Apart, Protocol, Trail, TrailOf, Told, Unmatched, Contents, Traced, Fits, OnlyRemoved;
      if StopEnds() && Ends(interruption) {
        PanicInEnd(interruption.requested, interruption.again);
      } else if StopEnds() {
        PanicLive(interruption);
      } else {
        RemovedNothing(tree);
        TracedPlain(Done(), Done());
        CloseAuthority();
      }
    }

    method PanicInEnd(requested: RunState, again: bool)
      requires Valid() && StopEnds() && HasEnded(requested)
      modifies this`staging, this`live, this`projectOpen, this`projectClosed, this`ledger, this`state,
               this`generationValid, this`verified, this`doubled
      ensures Valid() && Follows(old(state), state) && Traced(old(Done()), Done())
      ensures state == RecoveryRequired(WorkerPanicked) || RevocationFailed(state)
      ensures !verified && !generationValid && doubled
      ensures old(staging).None? && old(projectClosed) ==>
                && state == RecoveryRequired(WorkerPanicked)
                && ledger == old(ledger) + [RunEnded(requested)] + if again then [RunEnded(state)] else []
    {
      hide Tracked, Apart, Protocol, Trail, TrailOf, Told, Unmatched, Contents, Traced, Fits, OnlyRemoved;
      RemovedNothing(tree);
      EndTwice(requested, again);
      TracedPlain(old(Done()), Done());
    }

    method PanicLive(interruption: Interruption)
      requires Valid() && StopEnds() && !Ends(interruption)
      modifies this`staging, this`cleanup, this`live, this`tree, this`projectOpen, this`projectClosed, this`ledger,
               this`state, this`generationValid, this`verified, this`nextOp, this`nextGrant, this`issued, this`lost
      ensures Valid() && Follows(old(state), state) && Traced(old(Done()), Done())
      ensures state == RecoveryRequired(WorkerPanicked) || RevocationFailed(state)
      ensures !verified && !generationValid
      ensures old(staging).None? && old(projectClosed) && !interruption.AfterAllocation? ==>
                state == RecoveryRequired(WorkerPanicked)
      ensures halted ==> nextOp == old(nextOp) && tree == old(tree)
      ensures if old(state).Created? && !halted && interruption == DuringAllocation(true, false)
              then lost == old(lost) + {old(nextGrant)} && old(nextGrant) in live && old(nextGrant) !in old(live)
              else lost == old(lost)
    {
      hide Tracked, Apart, Protocol, Trail, TrailOf, Told, Unmatched, Contents, Traced, Fits, OnlyRemoved;
      RemovedNothing(tree);
      TracedPlain(Done(), Done());
      GrantsAreKnown(staging, projectGrant, projectClosed, issued, lost, live, nextGrant);
      if !IsTerminal(state) && !halted {
        Interrupt(interruption);
      }
      RecoverPanic(old(Done()));
    }

    /** Whatever was interrupted, close the authority and require recovery. */
    method RecoverPanic(ghost before: Effects)
      requires Core() && !HasEnded(state) && Traced(before, Done())
      modifies this`staging, this`cleanup, this`live, this`tree, this`projectOpen, this`projectClosed, this`ledger,
               this`state, this`generationValid, this`verified
      ensures Core() && tree == old(tree) && Traced(before, Done()) && !verified && !generationValid
      ensures state == RecoveryRequired(WorkerPanicked) || RevocationFailed(state)
      ensures old(StagingClosed(staging)) && old(projectClosed) ==> state == RecoveryRequired(WorkerPanicked)
      ensures old(live) * lost <= live
    {
      hide Tracked, Apart, Protocol, Trail, TrailOf, Told, Unmatched, Contents, Traced, Fits;
      verified := false;
      var error := ForceRecovery(WorkerPanicked, false);
      TracedOn(before, old(Done()), Done());
    }

    /** An operation that got past its checks and no further than `interruption` says. */
    method Interrupt(interruption: Interruption)
      requires Core() && LeaseMatches() && !IsTerminal(state)
      modifies this`staging, this`live, this`tree, this`ledger, this`nextOp, this`nextGrant, this`issued, this`lost,
               this`state
      ensures !HasEnded(state)
      ensures Core() && Traced(old(Done()), Done()) && (!interruption.AfterAllocation? ==> staging == old(staging))
      ensures if old(state).Created? && interruption == DuringAllocation(true, false)
              then lost == old(lost) + {old(nextGrant)} && live == old(live) + {old(nextGrant)}
              else lost == old(lost)
    {
      hide Tracked, Apart, Protocol, Trail, TrailOf, Told, Unmatched, Prepared, Traced;
      TracedPlain(Done(), Done());
      match interruption {
        case BetweenOperations =>
        case Preparing =>
          ProtocolMonotone(ledger, nextOp, nextOp + 1);
          nextOp := nextOp + 1;
          TracedPlain(old(Done()), Done());
        case DuringMutation(acted, concluded) =>
          if !state.Created? {
            InterruptMutation(if state.Granted? then SnapshotScope else OpKind.ApplyEdit, acted, concluded);
          }
        case DuringAllocation(hasGrant, revoked) =>
          if state.Created? {
            InterruptAllocation(hasGrant, revoked);
          }
        case AfterAllocation(granted) =>
          if state.Created? {
            InterruptInstalled(granted);
          }
        case DuringEnd(_, _) =>
      }
    }

    /** The prepared record is written; what follows is interrupted. */
    method Begin(kind: OpKind) returns (ghost op: nat)
      requires Core()
      modifies this`nextOp, this`ledger
      ensures Core() && op == old(nextOp) && nextOp == op + 1 && ledger == old(ledger) + [OperationPrepared(op, kind)]
      ensures Underway(op, kind)
    {
      hide Tracked, Apart, Protocol, Trail, TrailOf, Told, Unmatched, Prepared;
      op := nextOp;
      PreparedKept(ledger, op, kind);
      ledger, nextOp := ledger + [OperationPrepared(nextOp, kind)], nextOp + 1;
    }

    /** A copy or an edit, perhaps half done, perhaps with its outcome recorded. */
    method InterruptMutation(kind: OpKind, acted: bool, concluded: bool)
      requires Core() && !kind.AllocateStaging?
      modifies this`tree, this`ledger, this`nextOp
      ensures Core() && Traced(old(Done()), Done())
    {
      hide Tracked, Apart, Protocol, Trail, TrailOf, Told, Unmatched, Prepared, Traced;
      var op := Begin(kind);
      if acted {
        tree := *;
      }
      if concluded {
        OutcomeKept(ledger, op, true, nextOp);
        ledger := ledger + [OperationOutcome(nextOp - 1, true)];
      }
      TracedPrepared(old(Done()), Done(), kind);
    }

    /**
     The allocation is interrupted while its lease is not yet the run's.  Dropping
     the lease revokes its grant, if one was issued; that can fail, and nothing
     retries it.
     */
    method InterruptAllocation(hasGrant: bool, revoked: bool)
      requires Core() && state.Created?
      modifies this`live, this`ledger, this`nextOp, this`nextGrant, this`issued, this`lost
      ensures Core() && Traced(old(Done()), Done())
      ensures if hasGrant && !revoked
              then lost == old(lost) + {old(nextGrant)} && live == old(live) + {old(nextGrant)}
              else lost == old(lost)
    {
      hide Tracked, Apart, Protocol, Trail, TrailOf, Told, Unmatched, Prepared, Traced;
      var op := Begin(AllocateStaging);
      if hasGrant {
        LostKept(staging, projectGrant, projectClosed, issued, lost, live, nextGrant, revoked);
        if revoked {
          issued := issued + {nextGrant};
        } else {
          live, lost := live + {nextGrant}, lost + {nextGrant};
        }
        nextGrant := nextGrant + 1;
      }
      TracedPrepared(old(Done()), Done(), AllocateStaging);
    }

    /**
     The lease is the run's and its outcome recorded.  If the grant is recorded as
     well, the state follows at once: nothing reads it in between.
     */
    method InterruptInstalled(granted: bool)
      requires Core() && state.Created? && staging.None?
      modifies this`staging, this`live, this`ledger, this`nextOp, this`nextGrant, this`issued, this`state
      ensures Core() && Traced(old(Done()), Done()) && !HasEnded(state)
    {
      hide Tracked, Apart, Protocol, Trail, TrailOf, Told, Unmatched, Prepared, Traced;
      var op := Begin(AllocateStaging);
      InstalledKept(projectGrant, projectClosed, issued, lost, live, nextGrant);
      OutcomeKept(ledger, op, true, nextOp);
      ledger := ledger + [OperationOutcome(nextOp - 1, true)];
      live, issued := live + {nextGrant}, issued + {nextGrant};
      staging, nextGrant := Some(Lease(true, true, Some(nextGrant), false, false)), nextGrant + 1;
      if granted {
        GrantedKept(ledger, nextGrant - 1, nextOp, doubled);
        ledger, state := ledger + [RunGranted(nextGrant - 1)], Granted;
      }
      TracedPrepared(old(Done()), Done(), AllocateStaging);
    }

    /**
     A panic while an end was being recorded, after its event became durable and
     before the state was set: the run is still live to the recovery, which closes
     its authority again and records an end of its own (`again`, if that succeeds).
     */
    method EndTwice(requested: RunState, again: bool)
      requires Core() && !HasEnded(state) && HasEnded(requested)
      modifies this`staging, this`live, this`projectOpen, this`projectClosed, this`ledger, this`state,
               this`generationValid, this`verified, this`doubled
      ensures Core() && doubled && !verified && !generationValid && Unmatched(ledger) == old(Unmatched(ledger))
      ensures state == RecoveryRequired(WorkerPanicked) || RevocationFailed(state)
      ensures old(ledger) < ledger
      ensures old(StagingClosed(staging)) && old(projectClosed) ==>
                && state == RecoveryRequired(WorkerPanicked)
                && ledger == old(ledger) + [RunEnded(requested)] + if again then [RunEnded(state)] else []
    {
      hide Tracked, Apart, Protocol, Trail, TrailOf, Told, Unmatched;
      CloseAuthority();
      var first := ActualEnd(requested, StagingClosed(staging), projectClosed);
      CloseAuthority();
      var actual := ActualEnd(RecoveryRequired(WorkerPanicked), StagingClosed(staging), projectClosed);
      verified, generationValid := false, false;
      RecordTwice(first, actual, again);
    }

    method RecordTwice(first: RunState, actual: RunState, again: bool)
      requires Core() && !HasEnded(state) && actual.RecoveryRequired?
      requires ClosedWhenOver(actual, staging, projectClosed)
      modifies this`ledger, this`state, this`doubled
      ensures Core() && state == actual && doubled && Unmatched(ledger) == old(Unmatched(ledger))
      ensures ledger == old(ledger) + [RunEnded(first)] + if again then [RunEnded(actual)] else []
    {
      hide Tracked, Apart, Protocol, Trail, TrailOf, Told, Unmatched, ClosedWhenOver, HasEnded;
      TwoEndsKept(ledger, state, first, actual, again, nextOp, doubled);
      ledger := ledger + [RunEnded(first)] + if again then [RunEnded(actual)] else [];
      state, doubled := actual, true;
    }

    /** Remove staging once the run is over, and retry closing what the end could not. */
    method DiscardStaging() returns (error: Option<RunError>)
      requires Valid()
      modifies this`generationValid, this`verified, this`projectOpen, this`projectClosed, this`live, this`staging,
               this`cleanup, this`tree, this`ledger
      ensures Valid() && old(ledger) <= ledger && OnlyRemoved(old(tree), tree)
      ensures error.Some? <==> !IsTerminal(state)
      ensures error.Some? ==> ledger == old(ledger) && staging == old(staging) && cleanup == old(cleanup)
      ensures error.None? ==> !verified && !generationValid
      ensures error.None? && old(staging).Some? ==> cleanup == if staging.None? then Discarded else DiscardFailed
      ensures old(StagingClosed(staging)) ==> StagingClosed(staging)
      ensures old(projectClosed) ==> projectClosed
    {
      hide Tracked, Apart, Protocol, Trail, TrailOf, Told, Unmatched, Contents, Fits;
      if !IsTerminal(state) {
        return Some(InvalidState);
      }
      generationValid, verified := false, false;
      ReleaseAll();
      var noted := RecordNote(StagingDiscarded);
      return None;
    }

    method ReleaseAll()
      requires Core()
      modifies this`projectOpen, this`projectClosed, this`live, this`staging, this`cleanup, this`tree
      ensures Core()
      ensures old(StagingClosed(staging)) ==> StagingClosed(staging)
      ensures old(projectClosed) ==> projectClosed
      ensures old(staging).None? ==> staging.None? && cleanup == old(cleanup) && tree == old(tree)
      ensures old(staging).Some? ==> cleanup == if staging.None? then Discarded else DiscardFailed
      ensures OnlyRemoved(old(tree), tree)
    {
      hide Tracked, Apart, Protocol, Trail, TrailOf, Told, Unmatched;
      var closed := CloseProjectRead();
      CloseStaging();
    }

    /** Somebody else revokes a grant in the registry. */
    method RevokedOutside(grant: nat)
      requires Valid()
      modifies this`live
      ensures Valid() && live == old(live) - {grant}
    {
      hide Protocol, Trail, TrailOf, Told, Unmatched, Contents, Fits;
      live := live - {grant};
    }

    /** The apply submodule took the verified candidate over; a stop no longer withdraws it. */
    method MarkApplied()
      requires Valid() && state.StructurallyVerified?
      modifies this`applied
      ensures Valid() && applied
    {
      applied := true;
    }
  }

  lemma RefusedKeeps(state: RunState)
    ensures ErrorEnds(LedgerRefused, state, state) && Follows(state, state)
  {
  }

  lemma FreshIsValid(run: CodingRun)
    requires run.state == Created && run.cleanup == NotStarted && run.staging == None && run.generationValid
    requires run.ledger == [RunCreated] && run.nextOp == 0 && !run.doubled
    requires run.projectClosed == run.projectGrant.None? && run.issued == {} && run.lost == {}
    requires run.live == FirstLive(run.projectGrant) && run.nextGrant == FirstGrant(run.projectGrant)
    requires run.snapshot == map[] && run.accepted == []
    ensures run.Valid()
  {
    hide Trail, TrailOf, Told, Protocol, Unmatched, Tracked, Apart, Contents, Fits, FirstLive, FirstGrant;
    JustCreated();
    NothingIssued(run.projectGrant);
  }

  lemma PathNotEmpty(scopes: RunScopes, profile: Profile, edit: CandidateEdit)
    requires IsRelPath(edit.path) && PolicyRejection(scopes, profile, edit).None?
    ensures edit.path != [] && Allowed(scopes, profile, edit)
  {
  }

  /** The working states and the verified candidate have the same trail. */
  lemma Advanced(state: RunState, next: RunState, trail: seq<Event>, doubled: bool)
    requires Told(state, trail, doubled)
    requires state.Granted? || state.Staged? || state.Candidate?
    requires next.Staged? || next.Candidate? || next.StructurallyVerified?
    ensures Told(next, trail, doubled)
  {
  }

  lemma ProjectFacts(staging: Option<Lease>, projectGrant: Option<nat>, projectClosed: bool,
                     issued: set<nat>, live: set<nat>, nextGrant: nat)
    requires Tracked(staging, projectGrant, projectClosed, issued, live, nextGrant)
    ensures projectClosed || projectGrant.Some?
  {
  }

  // ------------------------------------------------------------------
  // Whole runs
  // ------------------------------------------------------------------

  datatype Call =
    | GrantCall
    | SnapshotCall(project: seq<Child>, listable: bool, device: nat)
    | EditCall(edit: CandidateEdit)
    | VerifyCall
    | ReviewCall
    | PinCall
    | ReadCall(path: Path, maxBytes: nat)
    | WorkerFailureCall(reason: FailureReason)
    | CancelCall
    | RevokeCall
    | PanicCall(interruption: Interruption)
    | DiscardCall
    | StopCheckCall
    | OutsideRevocation(grant: nat)
    | ApplyCall

  /** What the callers guarantee: a listing without repeated names, a well-formed relative path. */
  ghost predicate WellFormed(call: Call) {
    match call
    case SnapshotCall(project, _, _) => UniqueNames(project)
    case EditCall(edit) => IsRelPath(edit.path)
    case ReadCall(path, _) => IsRelPath(path)
    case _ => true
  }

  /** A run between two calls. */
  datatype View = View(state: RunState, cleanup: CleanupStatus, generationValid: bool, nextOp: nat, halted: bool,
                       ledger: seq<Event>, tree: StagingTree, issued: set<nat>, lost: set<nat>, live: set<nat>,
                       base: Option<map<Path, ManifestEntry>>, snapshot: map<Path, Bytes>, accepted: seq<CandidateEdit>,
                       baseContents: map<Path, Bytes>, applied: bool, doubled: bool)
  {
    function Done(): Effects {
      Effects(ledger, nextOp, tree, issued + lost)
    }
  }

  /** The transitive closure of `Follows`. */
  predicate Later(before: RunState, after: RunState) {
    || before == after
    || (!IsTerminal(before) && Rank(before) < Rank(after))
    || Follows(before, after)
  }

  function Rank(state: RunState): nat {
    match state
    case Created => 0
    case Granted => 1
    case Staged => 2
    case Candidate => 3
    case StructurallyVerified => 4
    case _ => 5
  }

  lemma LaterStep(before: RunState, between: RunState, after: RunState)
    requires Later(before, between) && Follows(between, after)
    ensures Later(before, after)
  {
  }

  /** What every state of a run keeps. */
  ghost predicate Sound(view: View, projectGrant: Option<nat>, scopes: RunScopes, profile: Profile) {
    && Told(view.state, Trail(view.ledger), view.doubled)
    && Protocol(view.ledger, view.nextOp)
    && (Unmatched(view.ledger) != {} ==> view.state.Failed? || view.state.RecoveryRequired?)
    && (!IsTerminal(view.state) ==> view.generationValid)
    && (IsTerminal(view.state) && !RevocationFailed(view.state) ==>
          && (view.issued + view.lost) * view.live == view.lost * view.live
          && (projectGrant.Some? ==> projectGrant.value !in view.live))
    && (Staging(view.state, view.cleanup) ==>
          Contents(scopes, profile, view.base, view.snapshot, view.accepted, view.tree, view.baseContents))
    && (view.state.StructurallyVerified? && view.cleanup.NotStarted? ==> Fits(view.tree.files, profile))
  }

  /**
   How one call and its result explain a step of a run.  The snapshot is what the
   snapshot call copied, an accepted edit is the edit call's, a grant is lost only
   to a panic that interrupts an allocation, and only one that interrupts the
   recording of an end can make the run record two.
   */
  ghost predicate Explained(call: Call, error: Option<RunError>, before: View, after: View, scopes: RunScopes)
    requires ValidScope(scopes.read)
  {
    && Follows(before.state, after.state) && Traced(before.Done(), after.Done())
    && (before.halted ==> after.halted && after.nextOp == before.nextOp)
    && after.accepted == (if call.EditCall? && error.None? then before.accepted + [call.edit] else before.accepted)
    && after.snapshot ==
       (if call.SnapshotCall? && error.None? then ScopeFiles(call.project, scopes.read) else before.snapshot)
    && Advances(call, error, before.state, after.state)
    && Loses(call, before, after)
    && after.doubled == (before.doubled || Doubles(call, before))
  }

  /** Each state on the way is entered by its own call, and only if that succeeds. */
  predicate Advances(call: Call, error: Option<RunError>, before: RunState, after: RunState) {
    && (before.Created? && after.Granted? <==> call.GrantCall? && error.None?)
    && (before.Granted? && after.Staged? <==> call.SnapshotCall? && error.None?)
    && (before.Staged? && after.Candidate? ==> call.EditCall? && error.None?)
    && (before.Candidate? && after.StructurallyVerified? ==> call.VerifyCall? && error.None?)
  }

  /** A panic while the end of a live run, or of a verified candidate not applied, was being recorded. */
  predicate Doubles(call: Call, before: View) {
    && call.PanicCall? && Ends(call.interruption)
    && (!IsTerminal(before.state) || (before.state.StructurallyVerified? && !before.applied))
  }

  ghost predicate Loses(call: Call, before: View, after: View) {
    if call == PanicCall(DuringAllocation(true, false)) && before.state.Created? && !before.halted
    then HasEnded(after.state) && exists g :: IsLost(g, before, after)
    else after.lost == before.lost
  }

  ghost predicate IsLost(grant: nat, before: View, after: View) {
    after.lost == before.lost + {grant} && grant in after.live && grant !in before.live
  }

  /** One way: states advance, histories grow, and after an observed stop no operation is started. */
  ghost predicate Ordered(before: View, after: View) {
    && Later(before.state, after.state)
    && (before.halted ==> after.halted && after.nextOp == before.nextOp)
    && before.ledger <= after.ledger && before.accepted <= after.accepted && before.lost <= after.lost
    && (!before.state.Created? && !before.state.Granted? ==> after.snapshot == before.snapshot)
  }

  lemma OrderedStep(call: Call, error: Option<RunError>, first: View, before: View, after: View, scopes: RunScopes)
    requires ValidScope(scopes.read) && Ordered(first, before) && Explained(call, error, before, after, scopes)
    ensures Ordered(first, after)
  {
    hide ScopeFiles, PreparedSince, OnlyRemoved;
    LaterStep(first.state, before.state, after.state);
  }

  method Observe(run: CodingRun) returns (view: View)
    requires run.Valid()
    ensures view == run.Now()
    ensures Sound(view, run.projectGrant, run.scopes, run.profile)
  {
    hide Trail, TrailOf, Told, Protocol, Unmatched, Contents, Tracked, Fits, Apart;
    view := View(run.state, run.cleanup, run.generationValid, run.nextOp, run.halted, run.ledger, run.tree, run.issued,
                 run.lost, run.live, run.base, run.snapshot, run.accepted, run.baseContents, run.applied, run.doubled);
    if IsTerminal(run.state) && !RevocationFailed(run.state) {
      ClosedIsNotLive(run.staging, run.projectGrant, run.projectClosed, run.issued, run.lost, run.live, run.nextGrant);
    }
  }

  /** One call of a run. */
  method Step(run: CodingRun, call: Call) returns (error: Option<RunError>)
    requires run.Valid() && WellFormed(call) && run.scopes.Valid() && ValidScope(run.scopes.read)
    modifies run
    ensures run.Valid() && Explained(call, error, old(run.Now()), run.Now(), run.scopes)
  {
    hide CodingRun.Valid, Explained, RunScopes.Valid, ValidScope, UniqueNames, IsRelPath;
    error := None;
    match call {
      case GrantCall => error := GrantStep(run);
      case SnapshotCall(project, listable, device) => error := SnapshotStep(run, project, listable, device);
      case EditCall(edit) => error := EditStep(run, edit);
      case PanicCall(interruption) => PanicStep(run, interruption);
      case _ => error := QuietCall(run, call);
    }
  }

  method GrantStep(run: CodingRun) returns (error: Option<RunError>)
    requires run.Valid() && ValidScope(run.scopes.read)
    modifies run
    ensures run.Valid() && Explained(GrantCall, error, old(run.Now()), run.Now(), run.scopes)
  {
    hide CodingRun.Valid, Trail, TrailOf, Told, Protocol, Unmatched, IsRelPath, ScopeFiles, Traced,
         RunScopes.Valid, SnapshotOk, PolicyRejection, ValidScope, UniqueNames;
    error := run.Grant();
  }

  method SnapshotStep(run: CodingRun, project: seq<Child>, listable: bool, device: nat) returns (error: Option<RunError>)
    requires run.Valid() && ValidScope(run.scopes.read) && UniqueNames(project)
    modifies run
    ensures run.Valid() && Explained(SnapshotCall(project, listable, device), error, old(run.Now()), run.Now(),
                run.scopes)
  {
    hide CodingRun.Valid, Trail, TrailOf, Told, Protocol, Unmatched, IsRelPath, ScopeFiles, Traced,
         RunScopes.Valid, SnapshotOk, PolicyRejection, ValidScope, UniqueNames;
    error := run.TakeSnapshot(project, listable, device);
  }

  method EditStep(run: CodingRun, edit: CandidateEdit) returns (error: Option<RunError>)
    requires run.Valid() && ValidScope(run.scopes.read) && IsRelPath(edit.path)
    modifies run
    ensures run.Valid() && Explained(EditCall(edit), error, old(run.Now()), run.Now(), run.scopes)
  {
    hide CodingRun.Valid, Trail, TrailOf, Told, Protocol, Unmatched, IsRelPath, ScopeFiles, Traced,
         RunScopes.Valid, SnapshotOk, PolicyRejection, ValidScope, UniqueNames;
    error := run.Edit(edit);
  }

  method PanicStep(run: CodingRun, interruption: Interruption)
    requires run.Valid() && ValidScope(run.scopes.read)
    modifies run
    ensures run.Valid() && Explained(PanicCall(interruption), None, old(run.Now()), run.Now(), run.scopes)
  {
    hide CodingRun.Valid, Trail, TrailOf, Told, Protocol, Unmatched, IsRelPath, ScopeFiles, Traced,
         RunScopes.Valid, SnapshotOk, PolicyRejection, ValidScope, UniqueNames;
    ghost var grant := run.nextGrant;
    run.WorkerPanics(interruption);
    assert IsLost(grant, old(run.Now()), run.Now()) || run.lost == old(run.lost);
  }

  method QuietCall(run: CodingRun, call: Call) returns (error: Option<RunError>)
    requires run.Valid() && ValidScope(run.scopes.read) && WellFormed(call) && run.scopes.Valid() && Quiet(call)
    modifies run
    ensures run.Valid() && Explained(call, error, old(run.Now()), run.Now(), run.scopes)
  {
    hide CodingRun.Valid, Trail, TrailOf, Told, Protocol, Unmatched, ScopeFiles, Traced, RunScopes.Valid, SnapshotOk,
         PolicyRejection, ValidScope, UniqueNames, OnlyRemoved, WellFormed;
    error := QuietStep(run, call);
    TracedPlain(old(run.Done()), run.Done());
  }

  /** The calls that start no operation. */
  predicate Quiet(call: Call) {
    !call.GrantCall? && !call.SnapshotCall? && !call.EditCall? && !call.PanicCall?
  }

  method QuietStep(run: CodingRun, call: Call) returns (error: Option<RunError>)
    requires run.Valid() && WellFormed(call) && run.scopes.Valid() && Quiet(call)
    modifies run`staging, run`cleanup, run`live, run`tree, run`projectOpen, run`projectClosed, run`ledger,
             run`state, run`generationValid, run`haltsLogged, run`halted, run`verified, run`modelPinned, run`applied
    ensures run.Valid() && Follows(old(run.state), run.state) && (old(run.halted) ==> run.halted)
    ensures old(run.ledger) <= run.ledger && OnlyRemoved(old(run.tree), run.tree)
    ensures run.state == old(run.state) || HasEnded(run.state) ||
            (run.state.StructurallyVerified? && call.VerifyCall? && error.None?)
  {
    hide CodingRun.Valid, Trail, TrailOf, Told, Protocol, Unmatched, JoinedLength, ValidateComponent,
         RunScopes.Valid, Fits, Covers;
    error := None;
    match call {
      case VerifyCall =>
        var passed;
        ghost var faulted;
        error, passed, faulted := run.VerifyStructural();
      case ReviewCall => error := run.Review();
      case PinCall => error := run.PinModel();
      case ReadCall(path, maxBytes) =>
        var content;
        error, content := run.ReadStaged(path, maxBytes);
      case WorkerFailureCall(reason) => run.FailWorker(reason);
      case CancelCall => error := run.Cancel();
      case RevokeCall => error := run.Revoke();
      case DiscardCall => error := run.DiscardStaging();
      case StopCheckCall => error := run.HaltIfStopped();
      case OutsideRevocation(grant) => run.RevokedOutside(grant);
      case ApplyCall =>
        if run.state.StructurallyVerified? {
          run.MarkApplied();
        }
    }
  }

  lemma ReadIsValid(scopes: RunScopes)
    requires scopes.Valid()
    ensures ValidScope(scopes.read)
  {
  }

  /** No call before the `i`th is a panic inside the recording of an end. */
  ghost predicate NoneDoubled(calls: seq<Call>, i: nat)
    requires i <= |calls|
  {
    forall k :: 0 <= k < i ==> !(calls[k].PanicCall? && Ends(calls[k].interruption))
  }

  /** No call before the `i`th is a panic that can lose a grant. */
  ghost predicate NoneLost(calls: seq<Call>, i: nat)
    requires i <= |calls|
  {
    forall k :: 0 <= k < i ==> calls[k] != PanicCall(DuringAllocation(true, false))
  }

  /**
   Any run: whatever is called in whatever order, and whatever fails outside,
   every state is sound, the states are ordered, and each step is explained by its
   call; without a panic inside an allocation no grant is ever lost, and without
   one inside the recording of an end at most one end is recorded, the run's own.
   */
  method AnyRun(scopes: RunScopes, profile: Profile, owned: Option<nat>, calls: seq<Call>)
    returns (views: seq<View>, results: seq<Option<RunError>>)
    requires scopes.Valid()
    requires forall i :: 0 <= i < |calls| ==> WellFormed(calls[i])
    ensures |views| == |calls| + 1 && |results| == |calls|
    ensures views[0].state == Created && views[0].ledger == [RunCreated] && views[0].lost == {} && !views[0].doubled
    ensures forall i :: 0 <= i < |views| ==> Sound(views[i], owned, scopes, profile)
    ensures forall i :: 0 <= i < |calls| ==> Explained(calls[i], results[i], views[i], views[i + 1], scopes)
    ensures forall i, j :: 0 <= i <= j < |views| ==> Ordered(views[i], views[j])
    ensures forall i :: 0 <= i <= |calls| && NoneLost(calls, i) ==> views[i].lost == {}
    ensures forall i :: 0 <= i <= |calls| && NoneDoubled(calls, i) ==> TrailOf(views[i].state, Trail(views[i].ledger))
  {
    hide Sound, Explained, Ordered, WellFormed, CodingRun.Valid, RunScopes.Valid, ValidScope, Undisturbed, NoneLost,
         NoneDoubled, Trail, TrailOf;
    ReadIsValid(scopes);
    var run := new CodingRun(scopes, profile, owned);
    var view := Observe(run);
    views, results := [view], [];
    OrderedSelf(view);
    UndisturbedFirst(calls, view);
    for n := 0 to |calls|
      invariant fresh(run) && run.Valid() && run.scopes == scopes && run.profile == profile && run.projectGrant == owned
      invariant |views| == n + 1 && |results| == n && views[n] == run.Now()
      invariant views[0].state == Created && views[0].ledger == [RunCreated] && views[0].lost == {} && !views[0].doubled
      invariant forall i :: 0 <= i < |views| ==> Sound(views[i], owned, scopes, profile)
      invariant forall i :: 0 <= i < n ==> Explained(calls[i], results[i], views[i], views[i + 1], scopes)
      invariant forall i, j :: 0 <= i <= j < |views| ==> Ordered(views[i], views[j])
      invariant forall i :: 0 <= i <= n ==> Undisturbed(calls, i, views[i])
    {
      var error := Step(run, calls[n]);
      view := Observe(run);
      forall i | 0 <= i <= n ensures Ordered(views[i], view) {
        OrderedStep(calls[n], error, views[i], views[n], view, scopes);
      }
      OrderedSelf(view);
      UndisturbedStep(calls, n, error, views[n], view, scopes);
      views, results := views + [view], results + [error];
    }
    forall i | 0 <= i <= |calls|
      ensures NoneLost(calls, i) ==> views[i].lost == {}
      ensures NoneDoubled(calls, i) ==> TrailOf(views[i].state, Trail(views[i].ledger))
    {
      UndisturbedMeans(calls, i, views[i], owned, scopes, profile);
    }
  }

  lemma OrderedSelf(view: View)
    ensures Ordered(view, view)
  {
  }

  ghost predicate Undisturbed(calls: seq<Call>, i: nat, view: View)
    requires i <= |calls|
  {
    (NoneLost(calls, i) ==> view.lost == {}) && (NoneDoubled(calls, i) ==> !view.doubled)
  }

  lemma UndisturbedFirst(calls: seq<Call>, view: View)
    requires view.lost == {} && !view.doubled
    ensures Undisturbed(calls, 0, view)
  {
  }

  lemma UndisturbedStep(calls: seq<Call>, n: nat, error: Option<RunError>, before: View, after: View, scopes: RunScopes)
    requires ValidScope(scopes.read) && n < |calls| && Explained(calls[n], error, before, after, scopes)
    requires Undisturbed(calls, n, before)
    ensures Undisturbed(calls, n + 1, after)
  {
    hide ScopeFiles, Traced, Ends, Advances;
    if NoneLost(calls, n + 1) {
      assert NoneLost(calls, n) && calls[n] != PanicCall(DuringAllocation(true, false));
    }
    if NoneDoubled(calls, n + 1) {
      assert NoneDoubled(calls, n) && !Doubles(calls[n], before);
    }
  }

  lemma UndisturbedMeans(calls: seq<Call>, i: nat, view: View, projectGrant: Option<nat>, scopes: RunScopes,
                         profile: Profile)
    requires i <= |calls| && Undisturbed(calls, i, view) && Sound(view, projectGrant, scopes, profile)
    ensures NoneLost(calls, i) ==> view.lost == {}
    ensures NoneDoubled(calls, i) ==> TrailOf(view.state, Trail(view.ledger))
  {
    hide NoneLost, NoneDoubled, Trail, TrailOf, EndsWith;
  }

  /**
   The other case left: a panic while a cancellation is being recorded.  The run
   records two ends, and requires recovery although the first says it was cancelled.
   */
  method RecordsTwoEnds(scopes: RunScopes, profile: Profile) returns (view: View)
    requires scopes.Valid()
    ensures view.state == RecoveryRequired(WorkerPanicked)
    ensures view.ledger == [RunCreated, RunEnded(Cancelled), RunEnded(view.state)]
    ensures Sound(view, None, scopes, profile)
  {
    hide Sound, CodingRun.Valid;
    var run := new CodingRun(scopes, profile, None);
    run.WorkerPanics(DuringEnd(Cancelled, true));
    view := Observe(run);
  }

  /**
   The case left: a panic while the allocation's outcome is being recorded, when
   the dropped lease cannot revoke its grant.  The run requires recovery because
   its worker panicked, not because a revocation failed, and the grant is live.
   */
  method LosesAGrant(scopes: RunScopes, profile: Profile) returns (view: View)
    requires scopes.Valid()
    ensures view.state == RecoveryRequired(WorkerPanicked) && !RevocationFailed(view.state)
    ensures view.lost * view.live != {} && Sound(view, None, scopes, profile)
  {
    hide Sound, CodingRun.Valid;
    var run := new CodingRun(scopes, profile, None);
    run.WorkerPanics(DuringAllocation(true, false));
    view := Observe(run);
  }
}
