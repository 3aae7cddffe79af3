/**
 The consent queue and runtime (kernel/src/consent.rs).  `ApprovalQueue` and
 `ConsentRuntime` have the source's fields and methods; the audit trail and the
 queue file may fail at every call, and the clock and the audit length may be
 anything.  Digests are ideal: a fingerprint is the tuple it hashes, and a
 request id is that tuple with the audit sequence number.

 `trace` is a history of the queue for the specification: one step for every
 record opened, decision recorded and record used up.
 */
module Consent {
  import opened Common

  type Result<+T> = Common.Result<T, ConsentError>

  datatype HitlTier = Tier0 | Tier1 | Tier2 | Tier3

  datatype Operation =
    | ToolCall | TerminalCommand | SocialPostPublish | SelfMutationApply | MultiAgentOrchestrate | DistributedEnable
    | TimeMachineUndo | SelfEvolution | AgentLifecycleManage | GovernancePolicyModify | EcosystemFuelAllocate
    | SovereignPromotion | TranscendentCreation | A2aDelegation | McpExternalToolCall | IntegrationSend

  /** The operations that always need Tier3, before any policy is asked. */
  predicate Critical(operation: Operation) {
    || operation.SovereignPromotion? || operation.TranscendentCreation? || operation.GovernancePolicyModify?
    || operation.SelfMutationApply? || operation.AgentLifecycleManage?
  }

  function Required(tier: HitlTier, autoTier1: bool): nat {
    match tier
    case Tier0 => 0
    case Tier1 => if autoTier1 then 0 else 1
    case Tier2 => 1
    case Tier3 => 2
  }

  datatype Fingerprint = Fingerprint(operation: Operation, agent: nat, payload: string, requester: string, tier: HitlTier)

  datatype Request = Request(createdSeq: nat, fingerprint: Fingerprint)

  datatype Verdict = Approve | Deny

  datatype Decision = Decision(approver: string, verdict: Verdict, decisionSeq: nat)

  datatype Record = Record(request: Request, approvals: set<string>, denials: set<string>, decisions: seq<Decision>,
                           executed: bool, fingerprint: Fingerprint, createdAt: nat)

  datatype ConsentError =
    | ApprovalRequired(request: Request)
    | RequestDenied(request: Request)
    | RequestNotFound | DuplicateApprover | ApproverNotAllowed | SelfApprovalRejected | NoApproversConfigured
    | QueueStorage | PolicyDenied | AuditFailed

  datatype ApprovalState = Pending | Approved | Denied

  predicate TimedOut(record: Record, timeout: nat, now: nat) {
    !record.executed && timeout > 0 && record.createdAt > 0 && now > record.createdAt + timeout
  }

  function StateOf(record: Record, autoTier1: bool, timeout: nat, now: nat): ApprovalState {
    var required := Required(record.request.fingerprint.tier, autoTier1);
    if record.denials != {} || TimedOut(record, timeout, now) then Denied
    else if required == 0 || |record.approvals| >= required then Approved
    else Pending
  }

  type Records = map<Request, Record>
  type Index = map<Fingerprint, Request>

  /** The index is exactly the unexecuted records. */
  ghost predicate IndexExact(records: Records, index: Index) {
    && (forall id :: id in records ==> records[id].request == id && records[id].fingerprint == id.fingerprint)
    && (forall id :: id in records && !records[id].executed ==> id.fingerprint in index && index[id.fingerprint] == id)
    && (forall fp :: fp in index ==>
          index[fp] in records && !records[index[fp]].executed && index[fp].fingerprint == fp)
  }

  /** So there is at most one unexecuted record of a fingerprint. */
  lemma OneOpenRecord(records: Records, index: Index, id: Request, other: Request)
    requires IndexExact(records, index) && id in records && other in records
    requires !records[id].executed && !records[other].executed && id.fingerprint == other.fingerprint
    ensures id == other
  {
    assert index[id.fingerprint] == id;
  }

  /** The requests whose records are used up. */
  function Spent(records: Records): set<Request> {
    set id | id in records && records[id].executed
  }

  lemma IndexedAreOpen(records: Records, index: Index)
    requires IndexExact(records, index)
    ensures forall fp :: fp in index ==>
              index[fp] in records && !records[index[fp]].executed && index[fp].fingerprint == fp
  {
  }

  // ------------------------------------------------------------------
  // History
  // ------------------------------------------------------------------

  /** `serial` numbers the records in the order they were opened, whatever their ids. */
  datatype Step =
    | Opened(serial: nat, fingerprint: Fingerprint)
    | Decided(serial: nat, fingerprint: Fingerprint, approver: string, verdict: Verdict, allowed: seq<string>, open: bool)
    | Used(serial: nat, fingerprint: Fingerprint, approvers: set<string>)

  /** `approver`, allowed and not the requester, approved the record `serial` within `trace`. */
  ghost predicate HasApproved(trace: seq<Step>, serial: nat, fp: Fingerprint, approver: string) {
    exists i :: 0 <= i < |trace| && ApprovalBy(trace[i], serial, fp, approver)
  }

  predicate ApprovalBy(step: Step, serial: nat, fp: Fingerprint, approver: string) {
    && step.Decided? && step.serial == serial && step.fingerprint == fp && step.verdict.Approve?
    && step.approver == approver && approver in step.allowed && approver != fp.requester
  }

  predicate DenialOf(step: Step, fp: Fingerprint) {
    step.Decided? && step.verdict.Deny? && step.open && step.fingerprint == fp
  }

  /** The laws of every run: single use, backed by approvals, and denial is final. */
  ghost predicate Lawful(trace: seq<Step>) {
    && (forall i, j :: 0 <= i < j < |trace| && trace[i].Used? && trace[j].Used? ==> trace[i].serial != trace[j].serial)
    && (forall k :: 0 <= k < |trace| && trace[k].Used? ==> Backed(trace[..k], trace[k]))
    && (forall i, k :: 0 <= i < k < |trace| && trace[k].Used? ==> !DenialOf(trace[i], trace[k].fingerprint))
  }

  ghost predicate Backed(before: seq<Step>, use: Step)
    requires use.Used?
  {
    && (forall approver :: approver in use.approvers ==>
          HasApproved(before, use.serial, use.fingerprint, approver))
    && (use.fingerprint.tier == Tier2 ==> |use.approvers| >= 1)
    && (use.fingerprint.tier == Tier3 ==> |use.approvers| >= 2)
  }

  /** How the records relate to what happened. */
  ghost predicate Linked(trace: seq<Step>, records: Records, index: Index, serials: map<Request, nat>, nextSerial: nat) {
    && Numbered(trace, records, serials, nextSerial)
    && ApprovalsMade(trace, records, serials)
    && UsedAreExecuted(trace, records, serials)
    && DenialsStand(trace, records, index)
  }

  ghost predicate Numbered(trace: seq<Step>, records: Records, serials: map<Request, nat>, nextSerial: nat) {
    && serials.Keys == records.Keys
    && (forall id :: id in serials ==> serials[id] < nextSerial)
    && (forall id, other :: id in serials && other in serials && serials[id] == serials[other] ==> id == other)
    && (forall i :: 0 <= i < |trace| ==> trace[i].serial < nextSerial)
  }

  ghost predicate ApprovalsMade(trace: seq<Step>, records: Records, serials: map<Request, nat>) {
    forall id, approver :: id in records && id in serials && approver in records[id].approvals ==>
      HasApproved(trace, serials[id], id.fingerprint, approver)
  }

  ghost predicate UsedAreExecuted(trace: seq<Step>, records: Records, serials: map<Request, nat>) {
    forall i, id ::
      0 <= i < |trace| && trace[i].Used? && id in records && id in serials && serials[id] == trace[i].serial ==>
      records[id].executed
  }

  ghost predicate DenialsStand(trace: seq<Step>, records: Records, index: Index) {
    forall i, fp :: 0 <= i < |trace| && DenialOf(trace[i], fp) ==>
      fp in index && index[fp] in records && records[index[fp]].denials != {}
  }

  lemma StillApproved(trace: seq<Step>, step: Step, serial: nat, fp: Fingerprint, approver: string)
    requires HasApproved(trace, serial, fp, approver)
    ensures HasApproved(trace + [step], serial, fp, approver)
  {
    var i :| 0 <= i < |trace| && ApprovalBy(trace[i], serial, fp, approver);
    assert (trace + [step])[i] == trace[i];
  }

  /** A step that uses nothing up keeps the laws. */
  lemma LawfulOther(trace: seq<Step>, step: Step)
    requires Lawful(trace) && !step.Used?
    ensures Lawful(trace + [step])
  {
    hide Backed, DenialOf;
    var after := trace + [step];
    assert after[..|trace|] == trace;
    assert forall k :: 0 <= k < |trace| ==> after[..k] == trace[..k];
  }

  lemma LawfulUse(trace: seq<Step>, use: Step)
    requires Lawful(trace) && use.Used? && Backed(trace, use)
    requires forall i :: 0 <= i < |trace| ==> !(trace[i].Used? && trace[i].serial == use.serial)
    requires forall i :: 0 <= i < |trace| ==> !DenialOf(trace[i], use.fingerprint)
    ensures Lawful(trace + [use])
  {
    hide Backed, DenialOf;
    var after := trace + [use];
    assert after[..|trace|] == trace;
    assert forall k :: 0 <= k < |trace| ==> after[..k] == trace[..k];
  }

  lemma ApprovalsStillMade(trace: seq<Step>, step: Step, records: Records, serials: map<Request, nat>)
    requires ApprovalsMade(trace, records, serials)
    ensures ApprovalsMade(trace + [step], records, serials)
  {
    hide HasApproved;
    forall id, approver | id in records && id in serials && approver in records[id].approvals
      ensures HasApproved(trace + [step], serials[id], id.fingerprint, approver)
    {
      StillApproved(trace, step, serials[id], id.fingerprint, approver);
    }
  }

  /** Opening a record: a taken id can only be that of an executed record, which it replaces. */
  lemma OpenKept(trace: seq<Step>, records: Records, index: Index, serials: map<Request, nat>, nextSerial: nat,
                 id: Request, record: Record)
    requires Linked(trace, records, index, serials, nextSerial) && IndexExact(records, index)
    requires id.fingerprint !in index
    requires record == Record(id, {}, {}, [], false, id.fingerprint, record.createdAt)
    ensures IndexExact(records[id := record], index[id.fingerprint := id])
    ensures Linked(trace + [Opened(nextSerial, id.fingerprint)], records[id := record], index[id.fingerprint := id],
                   serials[id := nextSerial], nextSerial + 1)
  {
    hide HasApproved, DenialOf;
    var step := Opened(nextSerial, id.fingerprint);
    ApprovalsStillMade(trace, step, records, serials);
    OpenDenials(trace, records, index, nextSerial, id, record);
  }

  lemma OpenDenials(trace: seq<Step>, records: Records, index: Index, nextSerial: nat, id: Request, record: Record)
    requires DenialsStand(trace, records, index) && IndexExact(records, index) && id.fingerprint !in index
    ensures DenialsStand(trace + [Opened(nextSerial, id.fingerprint)], records[id := record], index[id.fingerprint := id])
  {
  }

  /** The record after a decision. */
  function Decide(record: Record, decision: Decision): Record {
    var decided := record.(decisions := record.decisions + [decision]);
    if decision.verdict.Approve? then decided.(approvals := record.approvals + {decision.approver})
    else decided.(denials := record.denials + {decision.approver})
  }

  function DecidedStep(serial: nat, record: Record, decision: Decision, allowed: seq<string>): Step {
    Decided(serial, record.request.fingerprint, decision.approver, decision.verdict, allowed, !record.executed)
  }

  lemma DecideKept(trace: seq<Step>, records: Records, index: Index, serials: map<Request, nat>, nextSerial: nat,
                   id: Request, decision: Decision, allowed: seq<string>)
    requires Linked(trace, records, index, serials, nextSerial) && IndexExact(records, index) && id in records
    requires decision.approver in allowed && decision.approver != id.fingerprint.requester
    ensures id in serials
    ensures var after := records[id := Decide(records[id], decision)];
            && IndexExact(after, index)
            && Linked(trace + [DecidedStep(serials[id], records[id], decision, allowed)], after, index, serials,
                    nextSerial)
  {
    hide HasApproved, DenialOf;
    DecideApprovals(trace, records, serials, id, decision, allowed);
    DecideDenials(trace, records, index, serials[id], id, decision, allowed);
  }

  lemma DecideApprovals(trace: seq<Step>, records: Records, serials: map<Request, nat>, id: Request, decision: Decision,
                        allowed: seq<string>)
    requires ApprovalsMade(trace, records, serials) && id in records && id in serials && records[id].request == id
    requires decision.approver in allowed && decision.approver != id.fingerprint.requester
    ensures ApprovalsMade(trace + [DecidedStep(serials[id], records[id], decision, allowed)],
                          records[id := Decide(records[id], decision)], serials)
  {
    var step := DecidedStep(serials[id], records[id], decision, allowed);
    ApprovalsStillMade(trace, step, records, serials);
    if decision.verdict.Approve? {
      assert ApprovalBy((trace + [step])[|trace|], serials[id], id.fingerprint, decision.approver);
    }
  }

  lemma DecideDenials(trace: seq<Step>, records: Records, index: Index, serial: nat, id: Request, decision: Decision,
                      allowed: seq<string>)
    requires DenialsStand(trace, records, index) && IndexExact(records, index) && id in records
    ensures DenialsStand(trace + [DecidedStep(serial, records[id], decision, allowed)],
                         records[id := Decide(records[id], decision)], index)
  {
  }

  function UseStep(serial: nat, record: Record): Step {
    Used(serial, record.request.fingerprint, record.approvals)
  }

  /** A record that may be used: open, not denied, with the approvals its tier needs. */
  ghost predicate Usable(records: Records, id: Request) {
    && id in records && !records[id].executed && records[id].denials == {}
    && (id.fingerprint.tier == Tier2 ==> |records[id].approvals| >= 1)
    && (id.fingerprint.tier == Tier3 ==> |records[id].approvals| >= 2)
  }

  lemma UseKept(trace: seq<Step>, records: Records, index: Index, serials: map<Request, nat>, nextSerial: nat,
                id: Request)
    requires Linked(trace, records, index, serials, nextSerial) && IndexExact(records, index) && Usable(records, id)
    ensures id in serials
    ensures var after := records[id := records[id].(executed := true)];
            && IndexExact(after, index - {id.fingerprint})
            && Linked(trace + [UseStep(serials[id], records[id])], after, index - {id.fingerprint}, serials, nextSerial)
  {
    hide HasApproved, DenialOf;
    ApprovalsStillMade(trace, UseStep(serials[id], records[id]), records, serials);
    UseDenials(trace, records, index, serials[id], id);
  }

  lemma UseDenials(trace: seq<Step>, records: Records, index: Index, serial: nat, id: Request)
    requires DenialsStand(trace, records, index) && IndexExact(records, index) && Usable(records, id)
    ensures DenialsStand(trace + [UseStep(serial, records[id])], records[id := records[id].(executed := true)],
                         index - {id.fingerprint})
  {
    assert index[id.fingerprint] == id;
  }

  lemma UseLawful(trace: seq<Step>, records: Records, index: Index, serials: map<Request, nat>, nextSerial: nat,
                  id: Request)
    requires Linked(trace, records, index, serials, nextSerial) && IndexExact(records, index) && Lawful(trace)
    requires Usable(records, id)
    ensures Lawful(trace + [UseStep(serials[id], records[id])])
  {
    hide HasApproved, Lawful;
    assert index[id.fingerprint] == id;
    LawfulUse(trace, UseStep(serials[id], records[id]));
  }

  // ------------------------------------------------------------------
  // Storage
  // ------------------------------------------------------------------

  datatype QueueFile = Missing | Stored(listing: seq<Record>) | Damaged

  /** The listing holds the records of the queue and nothing else. */
  ghost predicate Lists(listing: seq<Record>, records: Records) {
    && (forall i :: 0 <= i < |listing| ==> listing[i].request in records && records[listing[i].request] == listing[i])
    && (forall id :: id in records ==> exists i :: 0 <= i < |listing| && listing[i] == records[id])
  }

  /** What reading a listing rebuilds: a later record replaces an earlier one. */
  function RecordsOf(listing: seq<Record>): Records {
    if listing == [] then map[]
    else
      var last := listing[|listing| - 1];
      RecordsOf(listing[..|listing| - 1])[last.request := last]
  }

  function IndexOf(listing: seq<Record>): Index {
    if listing == [] then map[]
    else
      var last := listing[|listing| - 1];
      var front := IndexOf(listing[..|listing| - 1]);
      if last.executed then front else front[last.fingerprint := last.request]
  }

  lemma {:induction false} RecordsOfMeans(listing: seq<Record>)
    ensures forall i :: 0 <= i < |listing| ==> listing[i].request in RecordsOf(listing)
    ensures forall id :: id in RecordsOf(listing) ==>
              exists i :: 0 <= i < |listing| && listing[i].request == id && listing[i] == RecordsOf(listing)[id]
  {
    if listing != [] {
      var front := listing[..|listing| - 1];
      RecordsOfMeans(front);
      assert forall i :: 0 <= i < |front| ==> listing[i] == front[i];
      forall id | id in RecordsOf(listing)
        ensures exists i :: 0 <= i < |listing| && listing[i].request == id && listing[i] == RecordsOf(listing)[id]
      {
        if id == listing[|listing| - 1].request {
          assert listing[|listing| - 1] == RecordsOf(listing)[id];
        } else {
          var i :| 0 <= i < |front| && front[i].request == id && front[i] == RecordsOf(front)[id];
          assert listing[i] == RecordsOf(listing)[id];
        }
      }
    }
  }

  lemma {:induction false} IndexOfMeans(listing: seq<Record>)
    ensures forall i :: 0 <= i < |listing| && !listing[i].executed ==> listing[i].fingerprint in IndexOf(listing)
    ensures forall fp :: fp in IndexOf(listing) ==>
              exists i :: 0 <= i < |listing| && !listing[i].executed && listing[i].fingerprint == fp
                          && listing[i].request == IndexOf(listing)[fp]
  {
    if listing != [] {
      var front, last := listing[..|listing| - 1], listing[|listing| - 1];
      IndexOfMeans(front);
      assert forall i :: 0 <= i < |front| ==> listing[i] == front[i];
      forall fp | fp in IndexOf(listing)
        ensures exists i :: 0 <= i < |listing| && !listing[i].executed && listing[i].fingerprint == fp
                            && listing[i].request == IndexOf(listing)[fp]
      {
        if !last.executed && fp == last.fingerprint {
          assert listing[|listing| - 1].request == IndexOf(listing)[fp];
        } else {
          assert fp in IndexOf(front);
          var i :| 0 <= i < |front| && !front[i].executed && front[i].fingerprint == fp
                   && front[i].request == IndexOf(front)[fp];
          assert listing[i].request == IndexOf(listing)[fp];
        }
      }
    }
  }

  /** Reading back what was stored, in any order, rebuilds the records and the index. */
  lemma ReloadExact(listing: seq<Record>, records: Records, index: Index)
    requires Lists(listing, records) && IndexExact(records, index)
    ensures RecordsOf(listing) == records && IndexOf(listing) == index
  {
    RecordsRebuilt(listing, records);
    IndexRebuilt(listing, records, index);
  }

  lemma RecordsRebuilt(listing: seq<Record>, records: Records)
    requires Lists(listing, records) && forall id :: id in records ==> records[id].request == id
    ensures RecordsOf(listing) == records
  {
    RecordsOfMeans(listing);
    hide RecordsOf;
    forall id | id in records ensures id in RecordsOf(listing) {
      var i :| 0 <= i < |listing| && listing[i] == records[id];
      assert listing[i].request == id;
    }
  }

  lemma IndexRebuilt(listing: seq<Record>, records: Records, index: Index)
    requires Lists(listing, records) && IndexExact(records, index)
    ensures IndexOf(listing) == index
  {
    IndexOfMeans(listing);
    hide IndexOf;
    forall fp | fp in index ensures fp in IndexOf(listing) {
      var i :| 0 <= i < |listing| && listing[i] == records[index[fp]];
      assert listing[i].fingerprint == fp;
    }
    forall fp | fp in IndexOf(listing) ensures fp in index && index[fp] == IndexOf(listing)[fp] {
      var i :| 0 <= i < |listing| && !listing[i].executed && listing[i].fingerprint == fp
               && listing[i].request == IndexOf(listing)[fp];
      assert records[listing[i].request] == listing[i];
    }
  }

  /** List the records of a queue. */
  method Listing(records: Records) returns (listing: seq<Record>)
    requires forall id :: id in records ==> records[id].request == id
    ensures Lists(listing, records)
  {
    listing := [];
    var todo := records.Keys;
    while todo != {}
      invariant todo <= records.Keys
      invariant forall i :: 0 <= i < |listing| ==>
                  listing[i].request in records && records[listing[i].request] == listing[i]
      invariant forall id :: id in records && id !in todo ==> exists i :: 0 <= i < |listing| && listing[i] == records[id]
      decreases todo
    {
      var id :| id in todo;
      ghost var before := listing;
      listing := listing + [records[id]];
      todo := todo - {id};
      forall other | other in records && other !in todo
        ensures exists i :: 0 <= i < |listing| && listing[i] == records[other]
      {
        if other == id {
          assert listing[|before|] == records[other];
        } else {
          var i :| 0 <= i < |before| && before[i] == records[other];
          assert listing[i] == records[other];
        }
      }
    }
  }

  /** Rebuild records and index from a stored listing. */
  method Reload(file: QueueFile) returns (r: Result<(Records, Index)>)
    ensures r.Ok? <==> !file.Damaged?
    ensures file.Missing? ==> r == Ok((map[], map[]))
    ensures file.Stored? ==> r == Ok((RecordsOf(file.listing), IndexOf(file.listing)))
  {
    if file.Missing? {
      return Ok((map[], map[]));
    }
    if file.Damaged? {
      return Err(QueueStorage);
    }
    var records: Records, index: Index := map[], map[];
    for i := 0 to |file.listing|
      invariant records == RecordsOf(file.listing[..i]) && index == IndexOf(file.listing[..i])
    {
      assert file.listing[..i + 1][..i] == file.listing[..i];
      var record := file.listing[i];
      if !record.executed {
        index := index[record.fingerprint := record.request];
      }
      records := records[record.request := record];
    }
    assert file.listing[..|file.listing|] == file.listing;
    return Ok((records, index));
  }

  // ------------------------------------------------------------------
  // The queue
  // ------------------------------------------------------------------

  class ApprovalQueue {
    var records: Records
    var index: Index
    const fileBacked: bool
    var autoTier1: bool
    var timeout: nat
    /** The queue file. */
    var file: QueueFile

    ghost var serials: map<Request, nat>
    ghost var nextSerial: nat
    ghost var trace: seq<Step>

    ghost predicate Valid()
      reads this
    {
      IndexExact(records, index) && Linked(trace, records, index, serials, nextSerial) && Lawful(trace)
    }

    /** The file, if there is one, reads back as this queue. */
    ghost predicate Saved()
      reads this
    {
      fileBacked ==> file.Stored? && Lists(file.listing, records)
    }

    constructor (fileBacked: bool)
      ensures Valid() && records == map[] && index == map[] && trace == [] && this.fileBacked == fileBacked
      ensures autoTier1 && timeout == 86400
    {
      records, index, this.fileBacked, autoTier1, timeout, file := map[], map[], fileBacked, true, 86400, Missing;
      serials, nextSerial, trace := map[], 0, [];
    }

    /** Append an audit event, then store the queue; either may fail. */
    method Confirm() returns (error: Option<ConsentError>)
      requires forall id :: id in records ==> records[id].request == id
      modifies this`file
      ensures error.None? ==> Saved()
      ensures error.Some? ==> error.value.AuditFailed? || error.value.QueueStorage?
    {
      var appended: bool := *;
      if !appended {
        return Some(AuditFailed);
      }
      if fileBacked {
        var listing := Listing(records);
        var written: bool := *;
        if !written {
          file := *;
          return Some(QueueStorage);
        }
        file := Stored(listing);
      }
      return None;
    }

    /** The open request of a fingerprint, or a new one. */
    method RequestOrGet(fp: Fingerprint) returns (r: Result<Request>)
      requires Valid()
      modifies this`records, this`index, this`file, this`serials, this`nextSerial, this`trace
      ensures Valid() && Spent(records) <= old(Spent(records))
      ensures fp in old(index) ==>
                && r == Ok(old(index)[fp]) && records == old(records) && index == old(index) && file == old(file)
                && trace == old(trace)
      ensures fp !in old(index) ==>
                && fp in index && index == old(index)[fp := index[fp]]
                && records == old(records)[index[fp] := records[index[fp]]]
                && records[index[fp]].approvals == {} && records[index[fp]].denials == {}
                && trace == old(trace) + [Opened(old(nextSerial), fp)]
                && (r.Ok? ==> r.value == index[fp] && Saved())
                && (r.Err? ==> r.error.AuditFailed? || r.error.QueueStorage?)
    {
      hide Linked, Lawful;
      if fp in index {
        return Ok(index[fp]);
      }
      var id := Open(fp);
      var error := Confirm();
      return if error.None? then Ok(id) else Err(error.value);
    }

    /** A fresh record, under an id that no open record has. */
    method Open(fp: Fingerprint) returns (id: Request)
      requires Valid() && fp !in index
      modifies this`records, this`index, this`serials, this`nextSerial, this`trace
      ensures Valid() && id.fingerprint == fp && index == old(index)[fp := id]
      ensures id in records && records == old(records)[id := records[id]] && Spent(records) <= old(Spent(records))
      ensures records[id].approvals == {} && records[id].denials == {}
      ensures trace == old(trace) + [Opened(old(nextSerial), fp)]
    {
      hide Linked, Lawful, IndexExact;
      var createdSeq: nat := *;
      var now: nat := *;
      id := Request(createdSeq, fp);
      var record := Record(id, {}, {}, [], false, fp, now);
      OpenKept(trace, records, index, serials, nextSerial, id, record);
      LawfulOther(trace, Opened(nextSerial, fp));
      records, index := records[id := record], index[fp := id];
      trace, serials, nextSerial := trace + [Opened(nextSerial, fp)], serials[id := nextSerial], nextSerial + 1;
    }

    /** Record one decision of one approver. */
    method SubmitDecision(id: Request, approver: string, verdict: Verdict, allowed: seq<string>)
      returns (r: Result<Decision>)
      requires Valid()
      modifies this`records, this`file, this`trace
      ensures Valid()
      ensures var refusal := Refusal(old(records), id, approver, allowed);
              if refusal.Some? then
                r == Err(refusal.value) && records == old(records) && trace == old(trace) && file == old(file)
              else
                && id in records && records[id].decisions != []
                && var decision := records[id].decisions[|records[id].decisions| - 1];
                && decision.approver == approver && decision.verdict == verdict
                && records == old(records)[id := Decide(old(records)[id], decision)]
                && trace == old(trace) + [DecidedStep(serials[id], old(records)[id], decision, allowed)]
                && (r.Ok? ==> r.value == decision && Saved())
                && (r.Err? ==> r.error.AuditFailed? || r.error.QueueStorage?)
    {
      hide Linked, Lawful;
      var refusal := Refusal(records, id, approver, allowed);
      if refusal.Some? {
        return Err(refusal.value);
      }
      var decisionSeq: nat := *;
      var decision := Decision(approver, verdict, decisionSeq);
      DecideKept(trace, records, index, serials, nextSerial, id, decision, allowed);
      LawfulOther(trace, DecidedStep(serials[id], records[id], decision, allowed));
      trace := trace + [DecidedStep(serials[id], records[id], decision, allowed)];
      records := records[id := Decide(records[id], decision)];
      var error := Confirm();
      return if error.None? then Ok(decision) else Err(error.value);
    }

    /** Whether a request may be used now. */
    predicate Passes(id: Request, now: nat)
      reads this
    {
      id in records && !records[id].executed && StateOf(records[id], autoTier1, timeout, now).Approved?
    }

    /** Use up an approved request, once. */
    method MarkExecuted(id: Request, now: nat) returns (r: Result<()>)
      requires Valid()
      modifies this`records, this`index, this`file, this`trace
      ensures Valid()
      ensures old(Passes(id, now)) ==>
                && records == old(records)[id := old(records)[id].(executed := true)]
                && index == old(index) - {id.fingerprint}
                && trace == old(trace) + [UseStep(serials[id], old(records)[id])]
                && (r.Ok? ==> Saved()) && (r.Err? ==> r.error.AuditFailed? || r.error.QueueStorage?)
      ensures !old(Passes(id, now)) ==>
                && records == old(records) && index == old(index) && trace == old(trace) && file == old(file)
                && r == if id !in records then Err(RequestNotFound)
                        else match StateOf(records[id], autoTier1, timeout, now) {
                          case Denied => Err(RequestDenied(id))
                          case Approved => Ok(())
                          case Pending => if records[id].executed then Ok(()) else Err(ApprovalRequired(id))
                        }
    {
      hide Linked, Lawful;
      if id !in records {
        return Err(RequestNotFound);
      }
      if StateOf(records[id], autoTier1, timeout, now).Denied? {
        return Err(RequestDenied(id));
      }
      if records[id].executed {
        return Ok(());
      }
      var required := Required(id.fingerprint.tier, autoTier1);
      if required > 0 && |records[id].approvals| < required {
        return Err(ApprovalRequired(id));
      }
      Use(id);
      var error := Confirm();
      return if error.None? then Ok(()) else Err(error.value);
    }

    method Use(id: Request)
      requires Valid() && Usable(records, id)
      modifies this`records, this`index, this`trace
      ensures Valid()
      ensures records == old(records)[id := old(records)[id].(executed := true)]
      ensures index == old(index) - {id.fingerprint}
      ensures trace == old(trace) + [UseStep(serials[id], old(records)[id])]
    {
      hide Linked, Lawful, IndexExact;
      UseKept(trace, records, index, serials, nextSerial, id);
      UseLawful(trace, records, index, serials, nextSerial, id);
      ghost var step := UseStep(serials[id], records[id]);
      records := records[id := records[id].(executed := true)];
      index := index - {id.fingerprint};
      trace := trace + [step];
    }
  }

  /** Why a decision is refused, in the order the checks are made. */
  function Refusal(records: Records, id: Request, approver: string, allowed: seq<string>): (error: Option<ConsentError>)
    ensures error.None? ==> id in records && approver in allowed && approver != records[id].request.fingerprint.requester
    ensures error.None? ==> approver !in records[id].approvals && approver !in records[id].denials
  {
    if id !in records then Some(RequestNotFound)
    else if approver == records[id].request.fingerprint.requester then Some(SelfApprovalRejected)
    else if allowed == [] then Some(NoApproversConfigured)
    else if approver !in allowed then Some(ApproverNotAllowed)
    else if approver in records[id].approvals || approver in records[id].denials then Some(DuplicateApprover)
    else None
  }

  // ------------------------------------------------------------------
  // The runtime
  // ------------------------------------------------------------------

  datatype Policy = Policy(tier: HitlTier, approvers: seq<string>)

  type Policies = map<Operation, Policy>

  /** What the attached policy engine answers, if there is one with policies. */
  datatype Cedar = NoPolicies | Allow | Forbid | RequireApproval(tier: HitlTier)

  datatype Route = Auto | Refused | Ask(tier: HitlTier)

  function TierOf(policies: Policies, operation: Operation): HitlTier {
    if operation in policies then policies[operation].tier else Tier2
  }

  function ApproversOf(policies: Policies, operation: Operation): seq<string> {
    if operation in policies then policies[operation].approvers else []
  }

  predicate HumanTier(tier: HitlTier) { tier.Tier2? || tier.Tier3? }

  function RouteOf(policies: Policies, operation: Operation, cedar: Cedar): (route: Route)
    ensures Critical(operation) ==> route == Ask(Tier3)
    ensures route.Auto? ==> cedar.Allow? && !HumanTier(TierOf(policies, operation))
  {
    if Critical(operation) then Ask(Tier3)
    else match cedar
      case Allow => if HumanTier(TierOf(policies, operation)) then Ask(TierOf(policies, operation)) else Auto
      case Forbid => Refused
      case RequireApproval(tier) => Ask(tier)
      case NoPolicies => Ask(TierOf(policies, operation))
  }

  /** `trace` shows a record of `fp` being used up at its very end. */
  ghost predicate EndsWithUse(trace: seq<Step>, fp: Fingerprint) {
    trace != [] && trace[|trace| - 1].Used? && trace[|trace| - 1].fingerprint == fp
  }

  /** A step that opens or uses up a record of this operation. */
  predicate IsFor(step: Step, operation: Operation, agent: nat, payload: string, requester: string) {
    !step.Decided? && step.fingerprint == Fingerprint(operation, agent, payload, requester, step.fingerprint.tier)
  }

  /** The results of a call that may have changed a record: success, or a failure only to say so. */
  predicate Effective(result: Result<()>) {
    result.Ok? || result.error.AuditFailed? || result.error.QueueStorage?
  }

  /** The results that name an open request. */
  predicate Reports(result: Result<()>) {
    result.Err? && (result.error.ApprovalRequired? || result.error.RequestDenied?)
  }

  predicate Reported(result: Result<()>, id: Request) {
    Reports(result) && result.error.request == id
  }

  /** The fingerprint an operation goes through the queue under, if it does. */
  function Routed(policies: Policies, operation: Operation, agent: nat, payload: string, cedar: Cedar, requester: string)
    : Option<Fingerprint>
  {
    var route := RouteOf(policies, operation, cedar);
    if route.Ask? && route.tier != Tier0
    then Some(Fingerprint(operation, agent, payload, requester, route.tier)) else None
  }

  /** A call may use up a record of the fingerprint it is routed to, and what it reports as open is not used up. */
  ghost predicate NewlySpent(before: set<Request>, after: set<Request>, r: Result<()>, routed: Option<Fingerprint>) {
    && (forall id :: id in after && id !in before ==> Effective(r) && routed == Some(id.fingerprint))
    && (Reports(r) ==> r.error.request !in after)
  }

  /** A step that records this verdict, of an approver those policies allow. */
  predicate IsVerdict(step: Step, id: Request, approver: string, verdict: Verdict, policies: Policies) {
    && step.Decided? && step.fingerprint == id.fingerprint && step.approver == approver && step.verdict == verdict
    && step.allowed == ApproversOf(policies, id.fingerprint.operation)
  }

  class ConsentRuntime {
    var policies: Policies
    const queue: ApprovalQueue
    const requester: string

    ghost predicate Valid()
      reads this, queue
    {
      queue.Valid()
    }

    constructor (policies: Policies, queue: ApprovalQueue, requester: string)
      requires queue.Valid()
      ensures Valid() && this.policies == policies && this.queue == queue && this.requester == requester
    {
      this.policies, this.queue, this.requester := policies, queue, requester;
    }

    /** Gate one operation; `now` and `later` are what the clock answers. */
    method EnforceOperation(operation: Operation, agent: nat, payload: string, cedar: Cedar, now: nat, later: nat)
      returns (r: Result<()>)
      requires Valid()
      modifies queue
      ensures Valid() && old(queue.trace) <= queue.trace && queue.autoTier1 == old(queue.autoTier1)
      ensures forall m :: |old(queue.trace)| <= m < |queue.trace| ==>
                IsFor(queue.trace[m], operation, agent, payload, requester)
      ensures NewlySpent(old(Spent(queue.records)), Spent(queue.records), r,
                         Routed(policies, operation, agent, payload, cedar, requester))
      ensures var route := RouteOf(policies, operation, cedar);
              match route {
                case Auto => queue.trace == old(queue.trace) && (r.Ok? || r == Err(AuditFailed))
                case Refused => queue.trace == old(queue.trace) && r == Err(PolicyDenied)
                case Ask(tier) =>
                  var fp := Fingerprint(operation, agent, payload, requester, tier);
                  && (tier != Tier0 && r.Ok? ==>
                        |queue.trace| > |old(queue.trace)| && EndsWithUse(queue.trace, fp) && queue.Saved())
                  && (tier != Tier0 && fp in old(queue.index) && old(queue.records)[old(queue.index)[fp]].denials != {} ==>
                        queue.trace == old(queue.trace) &&
                        (r == Err(RequestDenied(old(queue.index)[fp])) || (cedar.Allow? && r == Err(AuditFailed))))
              }
    {
      hide IndexExact, Linked, Lawful;
      match RouteOf(policies, operation, cedar) {
        case Auto =>
          var appended: bool := *;
          return if appended then Ok(()) else Err(AuditFailed);
        case Refused =>
          return Err(PolicyDenied);
        case Ask(tier) =>
          if !Critical(operation) && cedar.Allow? {
            var appended: bool := *;
            if !appended {
              return Err(AuditFailed);
            }
          }
          r := EnforceWithTier(operation, agent, payload, tier, now, later);
      }
    }

    /**
     Take the operation through the queue.  (The source also compares the payload
     digest of the request it gets; the fingerprint already fixes it.)
     */
    method EnforceWithTier(operation: Operation, agent: nat, payload: string, tier: HitlTier, now: nat, later: nat)
      returns (r: Result<()>)
      requires Valid()
      modifies queue
      ensures Valid() && old(queue.trace) <= queue.trace && queue.autoTier1 == old(queue.autoTier1)
      ensures forall m :: |old(queue.trace)| <= m < |queue.trace| ==>
                IsFor(queue.trace[m], operation, agent, payload, requester)
      ensures NewlySpent(old(Spent(queue.records)), Spent(queue.records), r,
                         if tier == Tier0 then None else Some(Fingerprint(operation, agent, payload, requester, tier)))
      ensures tier == Tier0 ==> r == Ok(()) && queue.trace == old(queue.trace)
      ensures var fp := Fingerprint(operation, agent, payload, requester, tier);
              && (tier != Tier0 && r.Ok? ==>
                    |queue.trace| > |old(queue.trace)| && EndsWithUse(queue.trace, fp) && queue.Saved())
              && (tier != Tier0 && fp in old(queue.index) && old(queue.records)[old(queue.index)[fp]].denials != {} ==>
                    r == Err(RequestDenied(old(queue.index)[fp])) && queue.trace == old(queue.trace))
              && (r.Err? && r.error.ApprovalRequired? ==>
                    && fp in queue.index && r.error.request == queue.index[fp]
                    && |queue.records[queue.index[fp]].approvals| < Required(tier, queue.autoTier1))
    {
      hide IndexExact, Linked, Lawful, StateOf, Required, Spent, ApprovalQueue.Saved, Effective, EndsWithUse, Lists;
      if tier == Tier0 {
        return Ok(());
      }
      var fp := Fingerprint(operation, agent, payload, requester, tier);
      IndexedAreOpen(queue.records, queue.index);
      var asked := queue.RequestOrGet(fp);
      IndexedAreOpen(queue.records, queue.index);
      if asked.Err? {
        return Err(asked.error);
      }
      r := EnforceOpen(asked.value, now, later);
    }

    /** Use the open request if its tier is satisfied. */
    method EnforceOpen(id: Request, now: nat, later: nat) returns (r: Result<()>)
      requires Valid() && id in queue.records && !queue.records[id].executed && id.fingerprint.tier != Tier0
      modifies queue
      ensures Valid() && old(queue.trace) <= queue.trace && queue.autoTier1 == old(queue.autoTier1)
      ensures forall m :: |old(queue.trace)| <= m < |queue.trace| ==>
                queue.trace[m].Used? && queue.trace[m].fingerprint == id.fingerprint
      ensures Spent(queue.records) <= old(Spent(queue.records)) + if Effective(r) then {id} else {}
      ensures Reported(r, id) ==> id !in Spent(queue.records)
      ensures Reports(r) ==> Reported(r, id)
      ensures r.Ok? ==> |queue.trace| > |old(queue.trace)| && EndsWithUse(queue.trace, id.fingerprint) && queue.Saved()
      ensures old(queue.records)[id].denials != {} ==> r == Err(RequestDenied(id)) && queue.trace == old(queue.trace)
      ensures r.Err? && r.error.ApprovalRequired? ==>
                && queue.index == old(queue.index) && queue.records == old(queue.records) && r.error.request == id
                && |queue.records[id].approvals| < Required(id.fingerprint.tier, queue.autoTier1)
    {
      hide Linked, Lawful;
      if id.fingerprint.tier == Tier1 {
        r := queue.MarkExecuted(id, later);
        return;
      }
      match StateOf(queue.records[id], queue.autoTier1, queue.timeout, now) {
        case Approved => r := queue.MarkExecuted(id, later);
        case Denied => return Err(RequestDenied(id));
        case Pending => return Err(ApprovalRequired(id));
      }
    }

    /** Approve or deny a request, as an approver the policy in force allows. */
    method SubmitVerdict(id: Request, approver: string, verdict: Verdict) returns (r: Result<()>)
      requires Valid()
      modifies queue
      ensures Valid() && queue.autoTier1 == old(queue.autoTier1)
      ensures id !in old(queue.records) ==> r == Err(RequestNotFound) && queue.trace == old(queue.trace)
      ensures old(queue.trace) <= queue.trace && |queue.trace| <= |old(queue.trace)| + 1
      ensures |queue.trace| == |old(queue.trace)| ==> r.Err?
      ensures r.Ok? ==> queue.Saved()
      ensures Spent(queue.records) == old(Spent(queue.records)) && !Reports(r)
      ensures |queue.trace| > |old(queue.trace)| ==>
                && id in old(queue.records) && Effective(r)
                && IsVerdict(queue.trace[|old(queue.trace)|], id, approver, verdict, policies)
                && (queue.trace[|old(queue.trace)|].open <==> id !in old(Spent(queue.records)))
    {
      hide Linked, Lawful;
      if id !in queue.records {
        return Err(RequestNotFound);
      }
      var decision := queue.SubmitDecision(id, approver, verdict, ApproversOf(policies, id.fingerprint.operation));
      return if decision.Ok? then Ok(()) else Err(decision.error);
    }
  }

  // ------------------------------------------------------------------
  // Whole runs
  // ------------------------------------------------------------------

  /** A Tier3 use was approved beforehand by two different allowed people, neither the requester. */
  lemma TwoApprovers(trace: seq<Step>, k: nat) returns (one: string, two: string)
    requires Lawful(trace) && k < |trace| && trace[k].Used? && trace[k].fingerprint.tier == Tier3
    ensures one != two
    ensures HasApproved(trace[..k], trace[k].serial, trace[k].fingerprint, one)
    ensures HasApproved(trace[..k], trace[k].serial, trace[k].fingerprint, two)
  {
    var approvers := trace[k].approvers;
    one :| one in approvers;
    assert |approvers - {one}| == |approvers| - 1;
    two :| two in approvers - {one};
  }

  datatype Call =
    | Enforce(operation: Operation, agent: nat, payload: string, cedar: Cedar, now: nat, later: nat)
    | Submit(id: Request, approver: string, verdict: Verdict)
    | SetPolicy(changed: Operation, policy: Policy)
    | Configure(autoTier1: bool, timeout: nat)

  /** The policies in force after `calls`. */
  function PoliciesAfter(policies: Policies, calls: seq<Call>): Policies {
    if calls == [] then policies
    else
      var before, last := PoliciesAfter(policies, calls[..|calls| - 1]), calls[|calls| - 1];
      if last.SetPolicy? then before[last.changed := last.policy] else before
  }

  /** What a call did to the history, with the policies then in force. */
  predicate Explains(call: Call, result: Result<()>, policies: Policies, requester: string, spent: set<Request>,
                     step: Step) {
    match call
    case Enforce(operation, agent, payload, _, _, _) => IsFor(step, operation, agent, payload, requester)
    case Submit(id, approver, verdict) =>
      IsVerdict(step, id, approver, verdict, policies) && (step.open <==> id !in spent) && Effective(result)
    case _ => false
  }

  /** What a call may use up. */
  ghost predicate Spends(call: Call, result: Result<()>, policies: Policies, requester: string, before: set<Request>,
                         after: set<Request>)
  {
    match call
    case Enforce(operation, agent, payload, cedar, _, _) =>
      NewlySpent(before, after, result, Routed(policies, operation, agent, payload, cedar, requester))
    case _ => NewlySpent(before, after, result, None)
  }

  /** The fingerprint a call is let through for by the queue, if it is. */
  function LetThrough(call: Call, result: Result<()>, policies: Policies, requester: string): Option<Fingerprint> {
    match call
    case Enforce(operation, agent, payload, cedar, _, _) =>
      if result.Ok? then Routed(policies, operation, agent, payload, cedar, requester) else None
    case _ => None
  }

  /** A successful call that changed the queue. */
  predicate Stores(call: Call, result: Result<()>, policies: Policies, requester: string) {
    (call.Submit? && result.Ok?) || LetThrough(call, result, policies, requester).Some?
  }

  /** One call.  An operation the queue lets through used up a record of its fingerprint, last of all. */
  method Perform(runtime: ConsentRuntime, call: Call) returns (r: Result<()>)
    requires runtime.Valid()
    modifies runtime, runtime.queue
    ensures runtime.Valid() && old(runtime.queue.trace) <= runtime.queue.trace
    ensures forall m :: |old(runtime.queue.trace)| <= m < |runtime.queue.trace| ==>
              Explains(call, r, old(runtime.policies), runtime.requester, old(Spent(runtime.queue.records)),
                       runtime.queue.trace[m])
    ensures Spends(call, r, old(runtime.policies), runtime.requester, old(Spent(runtime.queue.records)),
                   Spent(runtime.queue.records))
    ensures call.Submit? ==> |runtime.queue.trace| <= |old(runtime.queue.trace)| + 1
    ensures call.Submit? && r.Ok? ==> |runtime.queue.trace| == |old(runtime.queue.trace)| + 1
    ensures var fp := LetThrough(call, r, old(runtime.policies), runtime.requester);
            fp.Some? ==> |runtime.queue.trace| > |old(runtime.queue.trace)| && EndsWithUse(runtime.queue.trace, fp.value)
    ensures Stores(call, r, old(runtime.policies), runtime.requester) ==> runtime.queue.Saved()
    ensures runtime.policies == if call.SetPolicy? then old(runtime.policies)[call.changed := call.policy]
                                else old(runtime.policies)
  {
    hide IndexExact, Linked, Lawful, Refusal;
    r := Ok(());
    match call {
      case Enforce(operation, agent, payload, cedar, now, later) =>
        r := runtime.EnforceOperation(operation, agent, payload, cedar, now, later);
      case Submit(id, approver, verdict) => r := runtime.SubmitVerdict(id, approver, verdict);
      case SetPolicy(changed, policy) => runtime.policies := runtime.policies[changed := policy];
      case Configure(autoTier1, timeout) =>
        runtime.queue.autoTier1, runtime.queue.timeout := autoTier1, timeout;
    }
  }

  /** After a successful call that changed the queue, a process that loads its file goes on with the same queue. */
  method PerformThenReload(runtime: ConsentRuntime, call: Call)
    returns (r: Result<()>, reloaded: Result<(Records, Index)>)
    requires runtime.Valid()
    modifies runtime, runtime.queue
    ensures runtime.Valid()
    ensures runtime.queue.fileBacked && Stores(call, r, old(runtime.policies), runtime.requester) ==>
              reloaded == Ok((runtime.queue.records, runtime.queue.index))
  {
    hide IndexExact, Linked, Lawful, Lists, Spends, Explains, RecordsOf, IndexOf, LetThrough;
    r := Perform(runtime, call);
    reloaded := Reload(runtime.queue.file);
    ghost var queue := runtime.queue;
    if queue.fileBacked && queue.Saved() {
      ReloadExact(queue.file.listing, queue.records, queue.index);
    }
  }

  // ------------------------------------------------------------------
  // The history of a run and its calls
  // ------------------------------------------------------------------

  /** The calls made so far, with their results, and the requester of the runtime. */
  datatype Log = Log(policies: Policies, requester: string, calls: seq<Call>, results: seq<Result<()>>)
  {
    predicate Valid() { |results| == |calls| }

    function PoliciesAt(k: nat): Policies
      requires k <= |calls|
    {
      PoliciesAfter(policies, calls[..k])
    }

    /** The fingerprint call `k` was let through for by the queue, if it was. */
    function PassedFor(k: nat): Option<Fingerprint>
      requires Valid() && k < |calls|
    {
      LetThrough(calls[k], results[k], PoliciesAt(k), requester)
    }

    /** Call `i` approves a request of `fp`, by somebody then allowed who is not the requester. */
    predicate Approves(i: nat, fp: Fingerprint)
      requires Valid() && i < |calls|
    {
      && calls[i].Submit? && calls[i].verdict.Approve? && calls[i].id.fingerprint == fp && Effective(results[i])
      && calls[i].approver in ApproversOf(PoliciesAt(i), fp.operation) && calls[i].approver != fp.requester
    }
  }

  /** The log with one more call. */
  function Extended(log: Log, call: Call, r: Result<()>): Log {
    log.(calls := log.calls + [call], results := log.results + [r])
  }

  /** `spent[k]` are the requests used up before call `k`. */
  ghost predicate ExplainsAt(log: Log, spent: seq<set<Request>>, trace: seq<Step>, owner: seq<nat>, m: nat)
    requires log.Valid() && |owner| == |trace| && m < |trace| && |spent| == |log.calls| + 1
  {
    && owner[m] < |log.calls|
    && Explains(log.calls[owner[m]], log.results[owner[m]], log.PoliciesAt(owner[m]), log.requester, spent[owner[m]],
            trace[m])
  }

  ghost predicate SpendsAt(log: Log, spent: seq<set<Request>>, k: nat)
    requires log.Valid() && k < |log.calls| && |spent| == |log.calls| + 1
  {
    Spends(log.calls[k], log.results[k], log.PoliciesAt(k), log.requester, spent[k], spent[k + 1])
  }

  ghost predicate Spending(log: Log, spent: seq<set<Request>>) {
    && log.Valid() && |spent| == |log.calls| + 1 && spent[0] == {}
    && (forall k :: 0 <= k < |log.calls| ==> SpendsAt(log, spent, k))
  }

  /** Step `m` of the history belongs to call `owner[m]`, which explains it; a verdict is at most one step. */
  ghost predicate Owned(log: Log, spent: seq<set<Request>>, trace: seq<Step>, owner: seq<nat>) {
    && log.Valid() && |owner| == |trace| && |spent| == |log.calls| + 1
    && (forall m :: 0 <= m < |trace| ==> ExplainsAt(log, spent, trace, owner, m))
    && (forall m, n :: 0 <= m <= n < |trace| ==> owner[m] <= owner[n])
    && (forall m, n :: 0 <= m < n < |trace| && owner[m] == owner[n] ==> !trace[m].Decided?)
  }

  /** Call `k` used up a record of `fp`. */
  ghost predicate Uses(trace: seq<Step>, owner: seq<nat>, k: nat, fp: Fingerprint)
    requires |owner| == |trace|
  {
    exists m :: 0 <= m < |trace| && owner[m] == k && trace[m].Used? && trace[m].fingerprint == fp
  }

  /** Call `k` is in the history: a use if the queue let it through, a step if it is a recorded verdict. */
  ghost predicate Answered(log: Log, trace: seq<Step>, owner: seq<nat>, k: nat)
    requires log.Valid() && |owner| == |trace| && k < |log.calls|
  {
    && (log.PassedFor(k).Some? ==> Uses(trace, owner, k, log.PassedFor(k).value))
    && (log.calls[k].Submit? && log.results[k].Ok? ==> exists m :: 0 <= m < |trace| && owner[m] == k)
  }

  ghost predicate AllAnswered(log: Log, trace: seq<Step>, owner: seq<nat>)
    requires log.Valid() && |owner| == |trace|
  {
    forall k :: 0 <= k < |log.calls| ==> Answered(log, trace, owner, k)
  }

  /** What was said of earlier calls stays said. */
  lemma ExtendedKeeps(log: Log, call: Call, r: Result<()>, k: nat)
    requires log.Valid() && k < |log.calls|
    ensures var more := Extended(log, call, r);
            && more.Valid() && more.calls[k] == log.calls[k] && more.results[k] == log.results[k]
            && more.PoliciesAt(k) == log.PoliciesAt(k) && more.PassedFor(k) == log.PassedFor(k)
  {
    hide PoliciesAfter, LetThrough;
    var more := Extended(log, call, r);
    assert more.calls[..k] == log.calls[..k];
  }

  lemma ExtendedLast(log: Log, call: Call, r: Result<()>)
    requires log.Valid()
    ensures var more, n := Extended(log, call, r), |log.calls|;
            && more.Valid() && more.calls[n] == call && more.results[n] == r && more.PoliciesAt(n) == log.PoliciesAt(n)
            && more.PassedFor(n) == LetThrough(call, r, log.PoliciesAt(n), log.requester)
  {
    hide PoliciesAfter, LetThrough;
    var more := Extended(log, call, r);
    assert more.calls[..|log.calls|] == log.calls[..|log.calls|];
  }

  /** What one call does to a history: it appends steps it explains. */
  ghost predicate Appends(log: Log, call: Call, r: Result<()>, spent: set<Request>, trace: seq<Step>, longer: seq<Step>)
    requires log.Valid()
  {
    && trace <= longer
    && (forall m :: |trace| <= m < |longer| ==>
          Explains(call, r, log.PoliciesAt(|log.calls|), log.requester, spent, longer[m]))
    && (call.Submit? ==> |longer| <= |trace| + 1) && (call.Submit? && r.Ok? ==> |longer| == |trace| + 1)
    && (var fp := LetThrough(call, r, log.PoliciesAt(|log.calls|), log.requester);
        fp.Some? ==> |longer| > |trace| && EndsWithUse(longer, fp.value))
  }

  function Owners(owner: seq<nat>, n: nat, more: nat): seq<nat> {
    owner + seq(more, i => n)
  }

  lemma OwnedStep(log: Log, spent: seq<set<Request>>, call: Call, r: Result<()>, after: set<Request>, trace: seq<Step>,
                  longer: seq<Step>, owner: seq<nat>)
    requires Owned(log, spent, trace, owner) && Appends(log, call, r, spent[|log.calls|], trace, longer)
    ensures Owned(Extended(log, call, r), spent + [after], longer, Owners(owner, |log.calls|, |longer| - |trace|))
  {
    hide Explains, PoliciesAfter, LetThrough, EndsWithUse;
    var n, more, owners := |log.calls|, Extended(log, call, r), Owners(owner, |log.calls|, |longer| - |trace|);
    ExtendedLast(log, call, r);
    forall m | 0 <= m < |longer| ensures ExplainsAt(more, spent + [after], longer, owners, m) && owners[m] <= n {
      if m < |trace| {
        assert ExplainsAt(log, spent, trace, owner, m);
        ExtendedKeeps(log, call, r, owner[m]);
      }
    }
    forall m, k | 0 <= m < k < |longer| && owners[m] == owners[k] ensures !longer[m].Decided? {
      if m < |trace| {
        assert ExplainsAt(log, spent, trace, owner, m);
        assert owners[m] < n && k < |trace|;
      } else {
        DecidedBySubmit(call, r, log.PoliciesAt(n), log.requester, spent[n], longer[m]);
      }
    }
  }

  lemma DecidedBySubmit(call: Call, r: Result<()>, policies: Policies, requester: string, spent: set<Request>, step: Step)
    requires Explains(call, r, policies, requester, spent, step)
    ensures step.Decided? <==> call.Submit?
  {
  }

  lemma SpendingStep(log: Log, spent: seq<set<Request>>, call: Call, r: Result<()>, after: set<Request>)
    requires Spending(log, spent)
    requires Spends(call, r, log.PoliciesAt(|log.calls|), log.requester, spent[|log.calls|], after)
    ensures Spending(Extended(log, call, r), spent + [after])
  {
    hide Spends, PoliciesAfter;
    ExtendedLast(log, call, r);
    forall k | 0 <= k < |log.calls| ensures SpendsAt(Extended(log, call, r), spent + [after], k) {
      assert SpendsAt(log, spent, k);
      ExtendedKeeps(log, call, r, k);
    }
  }

  lemma AnsweredStep(log: Log, spent: set<Request>, call: Call, r: Result<()>, trace: seq<Step>, longer: seq<Step>,
                     owner: seq<nat>)
    requires log.Valid() && |owner| == |trace| && AllAnswered(log, trace, owner)
    requires Appends(log, call, r, spent, trace, longer)
    ensures AllAnswered(Extended(log, call, r), longer, Owners(owner, |log.calls|, |longer| - |trace|))
  {
    hide Explains, PoliciesAfter, LetThrough;
    var n, more, owners := |log.calls|, Extended(log, call, r), Owners(owner, |log.calls|, |longer| - |trace|);
    forall k | 0 <= k <= n ensures Answered(more, longer, owners, k) {
      if k < n {
        ExtendedKeeps(log, call, r, k);
        StillAnswered(log, more, trace, longer, owner, owners, k);
      } else {
        ExtendedLast(log, call, r);
        if |longer| > |trace| {
          assert owners[|longer| - 1] == n;
        }
      }
    }
  }

  lemma OwnedLengths(log: Log, spent: seq<set<Request>>, trace: seq<Step>, owner: seq<nat>)
    requires Owned(log, spent, trace, owner)
    ensures log.Valid() && |owner| == |trace| && |spent| == |log.calls| + 1
  {
  }

  lemma StillAnswered(log: Log, more: Log, trace: seq<Step>, longer: seq<Step>, owner: seq<nat>, owners: seq<nat>, k: nat)
    requires log.Valid() && more.Valid() && |owner| == |trace| && k < |log.calls| && k < |more.calls|
    requires trace <= longer && owner <= owners && |owners| == |longer| && Answered(log, trace, owner, k)
    requires more.calls[k] == log.calls[k] && more.results[k] == log.results[k] && more.PassedFor(k) == log.PassedFor(k)
    ensures Answered(more, longer, owners, k)
  {
    hide PoliciesAfter, LetThrough;
    assert forall m :: 0 <= m < |trace| ==> longer[m] == trace[m] && owners[m] == owner[m];
  }

  // ------------------------------------------------------------------
  // What every run obeys, call by call
  // ------------------------------------------------------------------

  /** The approvals a tier needs whatever the queue's settings. */
  function Needed(tier: HitlTier): nat {
    match tier
    case Tier2 => 1
    case Tier3 => 2
    case _ => 0
  }

  /** Call `i` owns a decision on the record `serial`. */
  ghost predicate OwnsDecision(trace: seq<Step>, owner: seq<nat>, i: nat, serial: nat)
    requires |owner| == |trace|
  {
    exists n :: 0 <= n < |trace| && owner[n] == i && trace[n].Decided? && trace[n].serial == serial
  }

  /** An approval in the history is an approving call before the use it backs. */
  lemma ApprovalCall(log: Log, spent: seq<set<Request>>, trace: seq<Step>, owner: seq<nat>, m: nat,
                     approver: string) returns (i: nat)
    requires Owned(log, spent, trace, owner) && m < |trace| && trace[m].Used?
    requires HasApproved(trace[..m], trace[m].serial, trace[m].fingerprint, approver)
    ensures i < owner[m] < |log.calls| && log.Approves(i, trace[m].fingerprint) && log.calls[i].approver == approver
    ensures OwnsDecision(trace, owner, i, trace[m].serial)
  {
    hide PoliciesAfter;
    var n :| 0 <= n < m && ApprovalBy(trace[..m][n], trace[m].serial, trace[m].fingerprint, approver);
    assert trace[..m][n] == trace[n] && owner[n] <= owner[m];
    i := owner[n];
    assert ExplainsAt(log, spent, trace, owner, m) && ExplainsAt(log, spent, trace, owner, n);
  }

  /** `backers` are earlier calls that approve `fp`, of different people. */
  ghost predicate Backers(log: Log, k: nat, fp: Fingerprint, backers: set<nat>)
    requires log.Valid() && k <= |log.calls|
  {
    && (forall i :: i in backers ==> i < k && log.Approves(i, fp))
    && (forall i, j :: i in backers && j in backers && i != j ==> log.calls[i].approver != log.calls[j].approver)
  }

  /** The calls behind a use: one for each of its approvers. */
  lemma {:induction false} FindBackers(log: Log, spent: seq<set<Request>>, trace: seq<Step>, owner: seq<nat>, m: nat,
                                       people: set<string>)
    returns (backers: set<nat>)
    requires Owned(log, spent, trace, owner) && m < |trace| && trace[m].Used? && owner[m] < |log.calls|
    requires forall a :: a in people ==> HasApproved(trace[..m], trace[m].serial, trace[m].fingerprint, a)
    ensures Backers(log, owner[m], trace[m].fingerprint, backers) && |backers| == |people|
    ensures forall i :: i in backers ==> log.calls[i].approver in people && OwnsDecision(trace, owner, i, trace[m].serial)
    decreases people
  {
    hide Owned, HasApproved, Log.Approves, OwnsDecision;
    OwnedLengths(log, spent, trace, owner);
    if people == {} {
      backers := {};
    } else {
      var a :| a in people;
      var rest := FindBackers(log, spent, trace, owner, m, people - {a});
      var i := ApprovalCall(log, spent, trace, owner, m, a);
      assert i !in rest;
      backers := rest + {i};
    }
  }

  /** A call let through at some tier is backed by enough calls, all about the one record it used up. */
  ghost predicate BackedCall(log: Log, trace: seq<Step>, owner: seq<nat>, k: nat, backers: set<nat>)
    requires log.Valid() && |owner| == |trace| && k < |log.calls|
  {
    if log.PassedFor(k).None? then backers == {}
    else
      var fp := log.PassedFor(k).value;
      && Backers(log, k, fp, backers) && |backers| >= Needed(fp.tier)
      && exists m :: 0 <= m < |trace| && owner[m] == k && trace[m].Used?
          && AllDecided(trace, owner, backers, trace[m].serial)
  }

  ghost predicate AllDecided(trace: seq<Step>, owner: seq<nat>, backers: set<nat>, serial: nat)
    requires |owner| == |trace|
  {
    forall i :: i in backers ==> OwnsDecision(trace, owner, i, serial)
  }

  lemma BackOne(log: Log, spent: seq<set<Request>>, trace: seq<Step>, owner: seq<nat>, k: nat) returns (backers: set<nat>)
    requires Owned(log, spent, trace, owner) && Lawful(trace) && AllAnswered(log, trace, owner) && k < |log.calls|
    ensures BackedCall(log, trace, owner, k, backers)
  {
    hide Owned, HasApproved, Backers, OwnsDecision, LetThrough, PoliciesAfter;
    OwnedLengths(log, spent, trace, owner);
    backers := {};
    if log.PassedFor(k).Some? {
      assert Answered(log, trace, owner, k);
      var fp := log.PassedFor(k).value;
      var m :| 0 <= m < |trace| && owner[m] == k && trace[m].Used? && trace[m].fingerprint == fp;
      assert Backed(trace[..m], trace[m]);
      backers := FindBackers(log, spent, trace, owner, m, trace[m].approvers);
      assert AllDecided(trace, owner, backers, trace[m].serial);
    }
  }

  /** Two different calls let through share no backer: an approval counts once. */
  lemma BackersDisjoint(log: Log, spent: seq<set<Request>>, trace: seq<Step>, owner: seq<nat>, k: nat, l: nat,
                        one: set<nat>, two: set<nat>)
    requires Owned(log, spent, trace, owner) && Lawful(trace) && k < |log.calls| && l < |log.calls| && k != l
    requires BackedCall(log, trace, owner, k, one) && BackedCall(log, trace, owner, l, two)
    ensures one !! two
  {
    hide Backers, LetThrough, PoliciesAfter;
    if log.PassedFor(k).Some? && log.PassedFor(l).Some? {
      var m :| 0 <= m < |trace| && owner[m] == k && trace[m].Used? && AllDecided(trace, owner, one, trace[m].serial);
      var n :| 0 <= n < |trace| && owner[n] == l && trace[n].Used? && AllDecided(trace, owner, two, trace[n].serial);
      UsesDiffer(trace, m, n);
      forall i | i in one ensures i !in two {
        DecisionsDiffer(log, spent, trace, owner, i, trace[m].serial, trace[n].serial);
      }
    }
  }

  lemma UsesDiffer(trace: seq<Step>, m: nat, n: nat)
    requires Lawful(trace) && m < |trace| && n < |trace| && m != n && trace[m].Used? && trace[n].Used?
    ensures trace[m].serial != trace[n].serial
  {
    if m < n {
      assert trace[m].serial != trace[n].serial;
    } else {
      assert trace[n].serial != trace[m].serial;
    }
  }

  /** A call owns a decision on at most one record. */
  lemma DecisionsDiffer(log: Log, spent: seq<set<Request>>, trace: seq<Step>, owner: seq<nat>, i: nat, serial: nat,
                        other: nat)
    requires Owned(log, spent, trace, owner) && serial != other && OwnsDecision(trace, owner, i, serial)
    ensures !OwnsDecision(trace, owner, i, other)
  {
    var n :| 0 <= n < |trace| && owner[n] == i && trace[n].Decided? && trace[n].serial == serial;
    forall m | 0 <= m < |trace| && owner[m] == i && trace[m].Decided? ensures trace[m].serial != other {
      assert m == n || m < n || n < m;
    }
  }

  /** Call `k` was routed to `fp` and may have used up a record of it. */
  predicate UsedBy(log: Log, k: nat, fp: Fingerprint)
    requires log.Valid() && k < |log.calls|
  {
    match log.calls[k]
    case Enforce(operation, agent, payload, cedar, _, _) =>
      Effective(log.results[k]) && Routed(log.PoliciesAt(k), operation, agent, payload, cedar, log.requester) == Some(fp)
    case _ => false
  }

  /** Call `i` is a recorded denial of a request of `fp`. */
  predicate Denies(log: Log, i: nat, fp: Fingerprint)
    requires log.Valid() && i < |log.calls|
  {
    log.calls[i].Submit? && log.calls[i].verdict.Deny? && log.calls[i].id.fingerprint == fp && log.results[i].Ok?
  }

  /** No record of `id` is used up before call `j`: at the start, and where the call before named it as open. */
  predicate OpenBefore(log: Log, j: nat, id: Request)
    requires log.Valid() && j <= |log.calls|
  {
    j == 0 || Reported(log.results[j - 1], id)
  }

  /**
   After a recorded denial no call is let through for its fingerprint, unless the
   record denied had been used up between the last call that named it as open and
   the denial.
   */
  ghost predicate DenialHolds(log: Log, j: nat, i: nat, l: nat)
    requires log.Valid() && j <= i < l < |log.calls|
  {
    && log.PassedFor(l).Some? && Denies(log, i, log.PassedFor(l).value) && OpenBefore(log, j, log.calls[i].id) ==>
      exists k :: j <= k < i && UsedBy(log, k, log.PassedFor(l).value)
  }

  lemma {:induction false} StillUnspent(log: Log, spent: seq<set<Request>>, id: Request, j: nat, i: nat)
    requires Spending(log, spent) && j <= i <= |log.calls| && id !in spent[j]
    requires forall k :: j <= k < i ==> !UsedBy(log, k, id.fingerprint)
    ensures id !in spent[i]
    decreases i
  {
    hide PoliciesAfter, Routed;
    if j < i {
      StillUnspent(log, spent, id, j, i - 1);
      assert SpendsAt(log, spent, i - 1) && !UsedBy(log, i - 1, id.fingerprint);
    }
  }

  lemma DenialIsFinal(log: Log, spent: seq<set<Request>>, trace: seq<Step>, owner: seq<nat>, j: nat, i: nat, l: nat)
    requires Owned(log, spent, trace, owner) && Lawful(trace) && AllAnswered(log, trace, owner) && Spending(log, spent)
    requires j <= i < l < |log.calls|
    ensures DenialHolds(log, j, i, l)
  {
    hide LetThrough, PoliciesAfter, UsedBy;
    if log.PassedFor(l).Some? && Denies(log, i, log.PassedFor(l).value) && OpenBefore(log, j, log.calls[i].id) {
      var fp := log.PassedFor(l).value;
      DeniedWasSpent(log, spent, trace, owner, i, l, fp);
      if forall k :: j <= k < i ==> !UsedBy(log, k, fp) {
        OpenIsUnspent(log, spent, j, log.calls[i].id);
        StillUnspent(log, spent, log.calls[i].id, j, i);
        assert false;
      }
    }
  }

  lemma OpenIsUnspent(log: Log, spent: seq<set<Request>>, j: nat, id: Request)
    requires Spending(log, spent) && j <= |log.calls| && OpenBefore(log, j, id)
    ensures id !in spent[j]
  {
    hide PoliciesAfter, Routed;
    if j > 0 {
      assert SpendsAt(log, spent, j - 1);
    }
  }

  lemma DeniedWasSpent(log: Log, spent: seq<set<Request>>, trace: seq<Step>, owner: seq<nat>, i: nat, l: nat,
                       fp: Fingerprint)
    requires Owned(log, spent, trace, owner) && Lawful(trace) && AllAnswered(log, trace, owner)
    requires i < l < |log.calls| && log.PassedFor(l) == Some(fp) && Denies(log, i, fp)
    ensures log.calls[i].id in spent[i]
  {
    hide LetThrough, PoliciesAfter;
    assert Answered(log, trace, owner, l) && Answered(log, trace, owner, i);
    var m :| 0 <= m < |trace| && owner[m] == l && trace[m].Used? && trace[m].fingerprint == fp;
    var n :| 0 <= n < |trace| && owner[n] == i;
    assert ExplainsAt(log, spent, trace, owner, n);
    assert n < m && !DenialOf(trace[n], fp);
  }

  /** Every call the queue let through has backers of its own. */
  ghost predicate SingleUse(log: Log, backing: seq<set<nat>>)
    requires log.Valid()
  {
    && |backing| == |log.calls|
    && (forall k :: 0 <= k < |log.calls| ==> Sufficient(log, k, backing[k]))
    && (forall k, l :: 0 <= k < l < |log.calls| ==> backing[k] !! backing[l])
  }

  ghost predicate Sufficient(log: Log, k: nat, backers: set<nat>)
    requires log.Valid() && k < |log.calls|
  {
    log.PassedFor(k).Some? ==>
      Backers(log, k, log.PassedFor(k).value, backers) && |backers| >= Needed(log.PassedFor(k).value.tier)
  }

  lemma BackAll(log: Log, spent: seq<set<Request>>, trace: seq<Step>, owner: seq<nat>) returns (backing: seq<set<nat>>)
    requires Owned(log, spent, trace, owner) && Lawful(trace) && AllAnswered(log, trace, owner)
    ensures SingleUse(log, backing)
  {
    hide Owned, Lawful, AllAnswered, BackedCall;
    OwnedLengths(log, spent, trace, owner);
    backing := [];
    for n := 0 to |log.calls|
      invariant |backing| == n && forall k :: 0 <= k < n ==> BackedCall(log, trace, owner, k, backing[k])
    {
      var backers := BackOne(log, spent, trace, owner, n);
      backing := backing + [backers];
    }
    forall k | 0 <= k < |log.calls| ensures Sufficient(log, k, backing[k]) {
      BackedIsSufficient(log, trace, owner, k, backing[k]);
    }
    forall k, l | 0 <= k < l < |log.calls| ensures backing[k] !! backing[l] {
      BackersDisjoint(log, spent, trace, owner, k, l, backing[k], backing[l]);
    }
  }

  lemma BackedIsSufficient(log: Log, trace: seq<Step>, owner: seq<nat>, k: nat, backers: set<nat>)
    requires log.Valid() && |owner| == |trace| && k < |log.calls| && BackedCall(log, trace, owner, k, backers)
    ensures Sufficient(log, k, backers)
  {
    hide Backers, AllDecided;
  }

  /** Before a call let through at Tier2 somebody approved, and at Tier3 two different people did. */
  ghost predicate ApprovedBefore(log: Log, k: nat)
    requires log.Valid() && k < |log.calls|
  {
    log.PassedFor(k).Some? ==>
      var fp := log.PassedFor(k).value;
      && (fp.tier == Tier2 ==> exists i :: 0 <= i < k && log.Approves(i, fp))
      && (fp.tier == Tier3 ==> TwiceApproved(log, k, fp))
  }

  ghost predicate TwiceApproved(log: Log, k: nat, fp: Fingerprint)
    requires log.Valid() && k <= |log.calls|
  {
    exists i, j :: 0 <= i < k && 0 <= j < k && log.Approves(i, fp) && log.Approves(j, fp)
                   && log.calls[i].approver != log.calls[j].approver
  }

  lemma SufficientApproved(log: Log, k: nat, backers: set<nat>)
    requires log.Valid() && k < |log.calls| && Sufficient(log, k, backers)
    ensures ApprovedBefore(log, k)
  {
    hide LetThrough, PoliciesAfter;
    if log.PassedFor(k).Some? && Needed(log.PassedFor(k).value.tier) >= 1 {
      var i :| i in backers;
      assert |backers - {i}| == |backers| - 1;
      if Needed(log.PassedFor(k).value.tier) == 2 {
        var j :| j in backers - {i};
        assert log.calls[i].approver != log.calls[j].approver;
      }
    }
  }

  /** A critical operation is let through only at Tier3, so by two earlier approvals of different people. */
  lemma CriticalNeedsTwo(log: Log, k: nat)
    requires log.Valid() && k < |log.calls| && log.calls[k].Enforce? && Critical(log.calls[k].operation)
    requires log.results[k].Ok? && ApprovedBefore(log, k)
    ensures CriticalApproved(log, k)
  {
  }

  ghost predicate CriticalApproved(log: Log, k: nat)
    requires log.Valid() && k < |log.calls|
  {
    log.calls[k].Enforce? && Critical(log.calls[k].operation) && log.results[k].Ok? ==>
      log.PassedFor(k).Some? && log.PassedFor(k).value.tier == Tier3 && TwiceApproved(log, k, log.PassedFor(k).value)
  }

  /**
   Any run of a runtime and its queue, whatever the policies, the policy engine,
   the clock and the audit do.  Calls let through are backed by disjoint earlier
   approving calls, one at Tier2 and two at Tier3, where every critical operation
   is; and after a recorded denial nothing is let through for its fingerprint,
   unless the denied record had already been used up.
   */
  method AnyRun(policies: Policies, fileBacked: bool, requester: string, calls: seq<Call>)
    returns (results: seq<Result<()>>, ghost backing: seq<set<nat>>)
    ensures |results| == |calls|
    ensures SingleUse(Log(policies, requester, calls, results), backing)
    ensures forall k :: 0 <= k < |calls| ==>
              var log := Log(policies, requester, calls, results); ApprovedBefore(log, k) && CriticalApproved(log, k)
    ensures forall j, i, l :: 0 <= j <= i < l < |calls| ==> DenialHolds(Log(policies, requester, calls, results), j, i, l)
  {
    hide Linked, IndexExact, Lawful, SingleUse, Owned, AllAnswered, PoliciesAfter, ApprovedBefore, DenialHolds,
         Explains, LetThrough, Sufficient, Spending, Spends, TwiceApproved;
    var queue := new ApprovalQueue(fileBacked);
    var runtime := new ConsentRuntime(policies, queue, requester);
    results := [];
    ghost var log, owner, spent := Log(policies, requester, [], []), [], [{}];
    NothingLogged(log);
    for n := 0 to |calls|
      invariant fresh(queue) && fresh(runtime) && runtime.queue == queue && runtime.requester == requester
                && runtime.Valid()
      invariant |results| == n && log == Log(policies, requester, calls[..n], results)
      invariant runtime.policies == log.PoliciesAt(n)
      invariant |spent| == n + 1 && spent[n] == Spent(queue.records) && Spending(log, spent)
      invariant Owned(log, spent, queue.trace, owner) && |owner| == |queue.trace| && AllAnswered(log, queue.trace, owner)
    {
      ghost var before := queue.trace;
      var r := Perform(runtime, calls[n]);
      assert log.calls[..n] == log.calls;
      ghost var after := Spent(queue.records);
      assert Appends(log, calls[n], r, spent[n], before, queue.trace);
      OwnedStep(log, spent, calls[n], r, after, before, queue.trace, owner);
      AnsweredStep(log, spent[n], calls[n], r, before, queue.trace, owner);
      SpendingStep(log, spent, calls[n], r, after);
      NextPolicies(log, calls[n], r);
      assert calls[..n + 1] == calls[..n] + [calls[n]];
      log, owner, results := Extended(log, calls[n], r), Owners(owner, n, |queue.trace| - |before|), results + [r];
      spent := spent + [after];
    }
    assert calls[..|calls|] == calls;
    LawfulNow(queue);
    backing := BackAll(log, spent, queue.trace, owner);
    forall k | 0 <= k < |calls| ensures ApprovedBefore(log, k) && CriticalApproved(log, k) {
      SingleUseAt(log, backing, k);
      SufficientApproved(log, k, backing[k]);
      if log.calls[k].Enforce? && Critical(log.calls[k].operation) && log.results[k].Ok? {
        CriticalNeedsTwo(log, k);
      }
    }
    forall j, i, l | 0 <= j <= i < l < |calls| ensures DenialHolds(log, j, i, l) {
      DenialIsFinal(log, spent, queue.trace, owner, j, i, l);
    }
  }

  lemma SingleUseAt(log: Log, backing: seq<set<nat>>, k: nat)
    requires log.Valid() && SingleUse(log, backing) && k < |log.calls|
    ensures |backing| == |log.calls| && Sufficient(log, k, backing[k])
  {
  }

  lemma NextPolicies(log: Log, call: Call, r: Result<()>)
    requires log.Valid()
    ensures var n := |log.calls|;
            Extended(log, call, r).PoliciesAt(n + 1) ==
            if call.SetPolicy? then log.PoliciesAt(n)[call.changed := call.policy] else log.PoliciesAt(n)
  {
    var more, n := Extended(log, call, r), |log.calls|;
    assert more.calls[..n + 1] == more.calls && more.calls[..n] == log.calls[..n];
  }

  lemma NothingLogged(log: Log)
    requires log.calls == [] && log.results == []
    ensures Owned(log, [{}], [], []) && Spending(log, [{}]) && AllAnswered(log, [], [])
            && log.PoliciesAt(0) == log.policies
  {
  }

  lemma LawfulNow(queue: ApprovalQueue)
    requires queue.Valid()
    ensures Lawful(queue.trace)
  {
  }
}
