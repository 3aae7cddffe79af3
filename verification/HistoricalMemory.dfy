/**
 Historical memory at T0 (kernel/src/hm.rs over persistence/src/hm.rs): the one
 transaction that ledgers and labels every record, the checks of that ledger at
 every later start, and the rule that binds a label to its record.

 Digests are ideal: a content digest stands for the content, and the member-set
 digest for the ledger it is computed over.  A transaction works on its own copy
 of the database, and any of its statements may fail.
 */
module HistoricalMemory {
  import opened Common

  // ------------------------------------------------------------------
  // Records and labels
  // ------------------------------------------------------------------

  datatype RecordTable = AgentMemory | TaskHistory | StrategyScores | WorldModelEntities | WorldModelRelationships

  const ALL_TABLES: seq<RecordTable> :=
    [AgentMemory, TaskHistory, StrategyScores, WorldModelEntities, WorldModelRelationships]

  datatype RecordKey = RecordKey(table: RecordTable, id: string)

  /** A record as its digest sees it; also a ledger row. */
  datatype Row = Row(agent: string, digest: string)

  datatype Origin = UnrestrictedOrigin | LegacyUnknown | LocalOnlyOrigin

  function Restriction(origin: Origin): nat {
    match origin
    case UnrestrictedOrigin => 0
    case LegacyUnknown => 1
    case LocalOnlyOrigin => 2
  }

  function ClassName(origin: Origin): string {
    match origin
    case UnrestrictedOrigin => "UNRESTRICTED_ORIGIN"
    case LegacyUnknown => "LEGACY_UNKNOWN"
    case LocalOnlyOrigin => "LOCAL_ONLY_ORIGIN"
  }

  function DecodeOrigin(stored: string): Option<Origin> {
    if stored == "UNRESTRICTED_ORIGIN" then Some(UnrestrictedOrigin)
    else if stored == "LEGACY_UNKNOWN" then Some(LegacyUnknown)
    else if stored == "LOCAL_ONLY_ORIGIN" then Some(LocalOnlyOrigin)
    else None
  }

  lemma OriginRoundTrip(origin: Origin, stored: string)
    ensures DecodeOrigin(ClassName(origin)) == Some(origin)
    ensures DecodeOrigin(stored).Some? ==> ClassName(DecodeOrigin(stored).value) == stored
  {
  }

  datatype Label = Label(agent: string, origin: string, sourceKind: string, digest: string, generation: nat)

  datatype Evaluated = Bound(origin: Origin) | Unbound

  /** What an unbound label counts as. */
  function Effective(tag: Evaluated): Origin {
    if tag.Bound? then tag.origin else LocalOnlyOrigin
  }

  /** A label binds only when it decodes and its agent and digest are the current row's. */
  function Bind(tag: Option<Label>, current: Row): Evaluated {
    if tag.None? then Unbound
    else
      var origin := DecodeOrigin(tag.value.origin);
      if origin.None? then Unbound
      else if tag.value.agent != current.agent || tag.value.digest != current.digest then Unbound
      else Bound(origin.value)
  }

  /** Any doubt restricts: a label only ever loosens to the origin it was written with, for that very content. */
  lemma BindFailsClosed(tag: Option<Label>, current: Row, origin: Origin)
    ensures Bind(tag, current) == Bound(origin) <==>
              tag.Some? && tag.value.origin == ClassName(origin)
              && tag.value.agent == current.agent && tag.value.digest == current.digest
    ensures Restriction(Effective(Bind(tag, current))) < 2 ==> Bind(tag, current).Bound?
  {
    if tag.Some? {
      OriginRoundTrip(origin, tag.value.origin);
    }
  }

  // ------------------------------------------------------------------
  // The database
  // ------------------------------------------------------------------

  datatype Policy = Policy(localOnly: nat, generation: nat, revocationSeq: nat, basis: string)

  datatype Change = Change(localOnly: nat, basis: string, cause: string)

  datatype ChangeKey = ChangeKey(agent: string, generation: nat)

  type Records = map<RecordKey, Row>

  /** The member-set digest of a ledger. */
  function MemberSetDigest(ledger: Records): Records { ledger }

  datatype Migration = Migration(version: string, state: string, memberCount: nat, memberSet: Records)

  datatype Event = Event(subject: string, kind: string, rows: map<RecordTable, nat>, memberCount: nat, memberSet: Records)

  /** The historical-memory tables; `triggers` maps a trigger's name to its stored definition. */
  datatype Hm = Hm(members: Records, tombstones: set<RecordKey>, labels: map<RecordKey, Label>,
                   policies: map<string, Policy>, changes: map<ChangeKey, Change>, migration: seq<Migration>,
                   events: seq<Event>, triggers: map<string, string>)

  /** The in-scope records, and the historical-memory tables once they exist. */
  datatype Database = Database(records: Records, hm: Option<Hm>)

  const L4_TRIGGERS: seq<string> := [
    "hm_t0_member_no_insert_after_t0", "hm_t0_member_no_update", "hm_t0_member_no_delete",
    "hm_t0_tombstone_requires_absent_row", "hm_t0_tombstone_no_update", "hm_t0_tombstone_no_delete",
    "hm_del_agent_memory", "hm_del_task_history", "hm_del_strategy_scores", "hm_del_world_model_entities",
    "hm_del_world_model_relationships"]

  const OTHER_TRIGGERS: seq<string> := [
    "hm_record_label_no_lowering", "hm_grant_no_unrevoke", "hm_grant_revoked_seq_fixed",
    "hm_agent_policy_no_lowering", "hm_policy_change_no_update", "hm_policy_change_no_delete",
    "hm_agent_policy_insert_requires_history", "hm_agent_policy_update_requires_history"]

  /** The definition the contract gives a trigger. */
  function Definition(name: string): string { "CREATE TRIGGER " + name }

  predicate TriggerIntact(triggers: map<string, string>, name: string) {
    name in triggers && triggers[name] == Definition(name)
  }

  /** The triggers once those of `names` were created. */
  function Installed(names: seq<string>): map<string, string> {
    if names == [] then map[]
    else Installed(names[..|names| - 1])[names[|names| - 1] := Definition(names[|names| - 1])]
  }

  lemma {:induction false} InstalledIntact(names: seq<string>)
    ensures forall name :: name in names ==> TriggerIntact(Installed(names), name)
  {
    if names != [] {
      InstalledIntact(names[..|names| - 1]);
      assert names == names[..|names| - 1] + [names[|names| - 1]];
    }
  }

  function Schema(): Hm {
    Hm(map[], {}, map[], map[], map[], [], [], Installed(L4_TRIGGERS + OTHER_TRIGGERS))
  }

  const CONTRACT_VERSION := "P3-HM-CONTRACT-02"
  const OPTION_A_LOCAL_ONLY: nat := 1

  // ------------------------------------------------------------------
  // What T0 writes
  // ------------------------------------------------------------------

  function LegacyLabel(row: Row): Label {
    Label(row.agent, ClassName(LegacyUnknown), "legacy", row.digest, 0)
  }

  function KeysOf(records: Records, table: RecordTable): set<RecordKey> {
    set key | key in records && key.table == table
  }

  /** The canonical agent ids that get a baseline policy. */
  function Baseline(records: Records, registered: set<string>, withRowAgents: bool,
                    canonical: string -> Option<string>): set<string> {
    registered + RowAgents(records, records.Keys, withRowAgents, canonical)
  }

  /** The agent ids of some records that are canonical agent ids, if they are wanted. */
  function RowAgents(records: Records, keys: set<RecordKey>, wanted: bool,
                     canonical: string -> Option<string>): set<string> {
    if wanted then
      set key | key in keys && key in records && canonical(records[key].agent).Some? ::
        canonical(records[key].agent).value
    else {}
  }

  function BaselinePolicy(): Policy { Policy(OPTION_A_LOCAL_ONLY, 1, 0, "t0_baseline") }

  function BaselineChange(): Change { Change(OPTION_A_LOCAL_ONLY, "t0_baseline", "t0_baseline") }

  function ChangeKeys(agents: set<string>): set<ChangeKey> {
    set agent | agent in agents :: ChangeKey(agent, 1)
  }

  /** The row counts of the first `n` tables. */
  function Counts(records: Records, n: nat): map<RecordTable, nat>
    requires n <= |ALL_TABLES|
  {
    if n == 0 then map[] else Counts(records, n - 1)[ALL_TABLES[n - 1] := |KeysOf(records, ALL_TABLES[n - 1])|]
  }

  function T0Event(records: Records): Event {
    Event("migration:t0", "memory.migration_t0", Counts(records, |ALL_TABLES|), |records|, MemberSetDigest(records))
  }

  /** `labels` are legacy labels of exactly these records. */
  ghost predicate Legacy(labels: map<RecordKey, Label>, records: Records) {
    labels.Keys == records.Keys && forall key :: key in records ==> labels[key] == LegacyLabel(records[key])
  }

  /** Each agent has one policy and one history row, both local-only and of generation 1. */
  ghost predicate HasBaseline(policies: map<string, Policy>, changes: map<ChangeKey, Change>, agents: set<string>) {
    && policies.Keys == agents && (forall agent :: agent in agents ==> policies[agent] == BaselinePolicy())
    && changes.Keys == ChangeKeys(agents) && (forall key :: key in changes ==> changes[key] == BaselineChange())
  }

  /** The tables right after T0. */
  ghost predicate IsT0(hm: Hm, records: Records, agents: set<string>) {
    && hm == Schema().(members := hm.members, labels := hm.labels, policies := hm.policies, changes := hm.changes,
                       migration := hm.migration, events := hm.events)
    && hm.members == records && Legacy(hm.labels, records) && HasBaseline(hm.policies, hm.changes, agents)
    && hm.migration == [Migration(CONTRACT_VERSION, "COMPLETE", |records|, MemberSetDigest(records))]
    && hm.events == [T0Event(records)]
  }

  // ------------------------------------------------------------------
  // The ledger checks
  // ------------------------------------------------------------------

  datatype Checks = Checks(l1Count: bool, l2Digest: bool, l3Tombstones: bool, l4Triggers: bool)

  predicate AllPass(checks: Checks) {
    checks.l1Count && checks.l2Digest && checks.l3Tombstones && checks.l4Triggers
  }

  datatype MemberState =
    | Present(tag: Evaluated, asAtT0: bool)
    | Deleted
    | MissingUntombstoned
    | Reappeared(tag: Evaluated)

  datatype Member = Member(key: RecordKey, agent: string, state: MemberState)

  datatype HmError = Store | CorruptMigrationState | Interrupted

  type Result<+T> = Common.Result<T, HmError>

  function LabelOf(hm: Hm, key: RecordKey): Option<Label> {
    if key in hm.labels then Some(hm.labels[key]) else None
  }

  function StateOf(records: Records, hm: Hm, key: RecordKey): MemberState
    requires key in hm.members
  {
    match (key in hm.tombstones, key in records)
    case (false, true) => Present(Bind(LabelOf(hm, key), records[key]), records[key] == hm.members[key])
    case (true, false) => Deleted
    case (false, false) => MissingUntombstoned
    case (true, true) => Reappeared(Bind(LabelOf(hm, key), records[key]))
  }

  predicate Complete(hm: Hm) {
    |hm.migration| == 1 && hm.migration[0].state == "COMPLETE"
  }

  function ChecksOf(hm: Hm): Checks
    requires Complete(hm)
  {
    Checks(|hm.members| == hm.migration[0].memberCount,
           MemberSetDigest(hm.members) == hm.migration[0].memberSet,
           hm.tombstones <= hm.members.Keys,
           forall i :: 0 <= i < |L4_TRIGGERS| ==> TriggerIntact(hm.triggers, L4_TRIGGERS[i]))
  }

  /** Right after T0 every check passes and every member is present, bound and unchanged. */
  lemma T0Verifies(hm: Hm, records: Records, agents: set<string>, key: RecordKey)
    requires IsT0(hm, records, agents)
    ensures Complete(hm) && AllPass(ChecksOf(hm)) && (key in hm.members <==> key in records)
    ensures key in records ==> StateOf(records, hm, key) == Present(Bound(LegacyUnknown), true)
  {
    InstalledIntact(L4_TRIGGERS + OTHER_TRIGGERS);
    forall i | 0 <= i < |L4_TRIGGERS| ensures TriggerIntact(hm.triggers, L4_TRIGGERS[i]) {
      assert (L4_TRIGGERS + OTHER_TRIGGERS)[i] == L4_TRIGGERS[i];
    }
  }

  // ------------------------------------------------------------------
  // After T0
  // ------------------------------------------------------------------

  /** A statement on the in-scope tables, the label table or the closed ledger. */
  datatype Write =
    | InsertRow(key: RecordKey, row: Row)
    | UpdateRow(key: RecordKey, row: Row)
    | MoveRow(key: RecordKey, to: RecordKey, row: Row)
    | DeleteRow(key: RecordKey)
    | InsertLabel(key: RecordKey, tag: Label)
    | UpdateLabel(key: RecordKey, tag: Label)
    | MoveLabel(key: RecordKey, to: RecordKey)
    | DeleteLabel(key: RecordKey)
    | ChangeLedger(key: RecordKey, row: Row)

  /**
   What a statement does, keys, checks and triggers included; a refused one does
   nothing.  A move is an update of the primary key.  Only the deletion of a
   record has a trigger that reaches its label and its tombstone, and only an
   update of a label's origin has one that refuses to lower it.
   */
  function Apply(db: Database, write: Write): (after: Database)
    requires db.hm.Some?
    ensures after.hm.Some?
  {
    var hm := db.hm.value;
    match write
    case InsertRow(key, row) => if key in db.records then db else db.(records := db.records[key := row])
    case UpdateRow(key, row) => if key in db.records then db.(records := db.records[key := row]) else db
    case MoveRow(key, to, row) =>
      if Moves(db.records.Keys, key, to) then db.(records := (db.records - {key})[to := row]) else db
    case DeleteRow(key) =>
      if key !in db.records then db
      else
        Database(db.records - {key},
                 Some(hm.(labels := hm.labels - {key},
                          tombstones := hm.tombstones + if key in hm.members then {key} else {})))
    case InsertLabel(key, tag) =>
      if key in hm.labels || DecodeOrigin(tag.origin).None? then db
      else db.(hm := Some(hm.(labels := hm.labels[key := tag])))
    case UpdateLabel(key, tag) =>
      if key !in hm.labels || DecodeOrigin(tag.origin).None? || Lowers(hm.labels[key], tag) then db
      else db.(hm := Some(hm.(labels := hm.labels[key := tag])))
    case MoveLabel(key, to) =>
      if key in hm.labels && to !in hm.labels then
        db.(hm := Some(hm.(labels := (hm.labels - {key})[to := hm.labels[key]])))
      else db
    case DeleteLabel(key) => db.(hm := Some(hm.(labels := hm.labels - {key})))
    case ChangeLedger(_, _) => db
  }

  /** Whether a record can be given the key `to`: it exists, `to` is free and in the same table. */
  predicate Moves(keys: set<RecordKey>, key: RecordKey, to: RecordKey) {
    key in keys && to !in keys && to.table == key.table
  }

  predicate Lowers(before: Label, after: Label) {
    var held, next := DecodeOrigin(before.origin), DecodeOrigin(after.origin);
    held.Some? && next.Some? && Restriction(next.value) < Restriction(held.value)
  }

  function ApplyAll(db: Database, writes: seq<Write>): (after: Database)
    requires db.hm.Some?
    ensures after.hm.Some?
  {
    if writes == [] then db else Apply(ApplyAll(db, writes[..|writes| - 1]), writes[|writes| - 1])
  }

  /** The ledger checks read nothing such a statement can change for the worse. */
  lemma ApplyKeepsChecks(db: Database, write: Write)
    requires db.hm.Some? && Complete(db.hm.value) && AllPass(ChecksOf(db.hm.value))
    ensures var hm := Apply(db, write).hm.value;
            Complete(hm) && AllPass(ChecksOf(hm)) && hm.members == db.hm.value.members
  {
    hide DecodeOrigin, Lowers, Definition;
  }

  /** So they pass after any writes. */
  lemma {:induction false} ChecksAlwaysPass(db: Database, writes: seq<Write>)
    requires db.hm.Some? && Complete(db.hm.value) && AllPass(ChecksOf(db.hm.value))
    ensures var hm := ApplyAll(db, writes).hm.value;
            Complete(hm) && AllPass(ChecksOf(hm)) && hm.members == db.hm.value.members
  {
    if writes != [] {
      hide Complete, ChecksOf, Apply;
      ChecksAlwaysPass(db, writes[..|writes| - 1]);
      ApplyKeepsChecks(ApplyAll(db, writes[..|writes| - 1]), writes[|writes| - 1]);
    }
  }

  // ------------------------------------------------------------------
  // What keeps the members guarded
  // ------------------------------------------------------------------

  /** A ledger member that has no tombstone. */
  predicate Standing(hm: Hm, key: RecordKey) {
    key in hm.members && key !in hm.tombstones
  }

  /** Every standing member has its row, and a label at least as restrictive as T0's. */
  ghost predicate Guarded(db: Database) {
    db.hm.Some? && forall key :: Standing(db.hm.value, key) ==>
      key in db.records && AtLeastLegacy(LabelOf(db.hm.value, key))
  }

  predicate AtLeastLegacy(tag: Option<Label>) {
    tag.Some? && DecodeOrigin(tag.value.origin).Some? && Restriction(DecodeOrigin(tag.value.origin).value) >= 1
  }

  /** The statements no trigger watches: they take the label or the key from a standing member. */
  predicate Unguards(db: Database, write: Write)
    requires db.hm.Some?
  {
    var hm := db.hm.value;
    match write
    case MoveRow(key, to, _) => Standing(hm, key) && Moves(db.records.Keys, key, to)
    case MoveLabel(key, to) => Standing(hm, key) && key in hm.labels && to !in hm.labels
    case DeleteLabel(key) => Standing(hm, key)
    case _ => false
  }

  /** One write keeps the members guarded iff it is none of those. */
  lemma KeepsGuardedExactly(db: Database, write: Write)
    requires Guarded(db)
    ensures Guarded(Apply(db, write)) <==> !Unguards(db, write)
  {
    hide DecodeOrigin;
    var hm, next := db.hm.value, Apply(db, write);
    if Unguards(db, write) {
      assert Standing(hm, write.key) && Standing(next.hm.value, write.key);
      assert write.key !in next.records || LabelOf(next.hm.value, write.key).None?;
    } else {
      forall key | Standing(next.hm.value, key) ensures key in next.records
          && AtLeastLegacy(LabelOf(next.hm.value, key)) {
        assert Standing(hm, key);
      }
    }
  }

  /** What a guarded member can be: not missing without a tombstone, and not unrestricted while present. */
  lemma GuardedStates(db: Database, key: RecordKey)
    requires Guarded(db) && key in db.hm.value.members
    ensures !StateOf(db.records, db.hm.value, key).MissingUntombstoned?
    ensures !Loose(StateOf(db.records, db.hm.value, key))
  {
    hide DecodeOrigin;
  }

  /** A present member that counts as unrestricted. */
  predicate Loose(state: MemberState) {
    state.Present? && Effective(state.tag).UnrestrictedOrigin?
  }

  /** A label that binds a row as unrestricted. */
  function Loosening(row: Row): Label {
    Label(row.agent, ClassName(UnrestrictedOrigin), "", row.digest, 0)
  }

  /** Each of those statements is enough: with at most one more, its member is missing or unrestricted. */
  lemma UnguardedCanFail(db: Database, write: Write)
    requires Guarded(db) && Unguards(db, write)
    ensures write.key in Apply(db, write).hm.value.members
    ensures write.MoveRow? ==>
              StateOf(Apply(db, write).records, Apply(db, write).hm.value, write.key).MissingUntombstoned?
    ensures !write.MoveRow? ==>
              && write.key in db.records
              && var next := Apply(Apply(db, write), InsertLabel(write.key, Loosening(db.records[write.key])));
              Loose(StateOf(next.records, next.hm.value, write.key))
  {
    OriginRoundTrip(UnrestrictedOrigin, ClassName(UnrestrictedOrigin));
    hide DecodeOrigin, ClassName;
    assert Standing(db.hm.value, write.key);
  }

  /** No write of the sequence is one of those when its turn comes. */
  ghost predicate NoneUnguards(db: Database, writes: seq<Write>)
    requires db.hm.Some?
  {
    forall n :: 0 <= n < |writes| ==> !UnguardsAt(db, writes, n)
  }

  predicate UnguardsAt(db: Database, writes: seq<Write>, n: nat)
    requires db.hm.Some? && n < |writes|
  {
    Unguards(ApplyAll(db, writes[..n]), writes[n])
  }

  ghost predicate GuardedThroughout(db: Database, writes: seq<Write>)
    requires db.hm.Some?
  {
    forall n :: 0 <= n <= |writes| ==> Guarded(ApplyAll(db, writes[..n]))
  }

  /** Members stay guarded all along iff no write is one of those. */
  lemma {:induction false} GuardedThroughoutExactly(db: Database, writes: seq<Write>)
    requires db.hm.Some? && Guarded(db)
    ensures GuardedThroughout(db, writes) <==> NoneUnguards(db, writes)
  {
    hide Guarded, Unguards;
    if writes == [] {
      assert forall n :: 0 <= n <= |writes| ==> writes[..n] == [];
    } else {
      hide GuardedThroughout, NoneUnguards, Apply;
      var front := writes[..|writes| - 1];
      GuardedThroughoutExactly(db, front);
      ThroughoutStep(db, writes);
      NoneStep(db, writes);
      if GuardedThroughout(db, front) {
        ThroughoutEnds(db, front);
        KeepsGuardedExactly(ApplyAll(db, front), writes[|writes| - 1]);
      }
    }
  }

  lemma ThroughoutEnds(db: Database, writes: seq<Write>)
    requires db.hm.Some? && GuardedThroughout(db, writes)
    ensures Guarded(ApplyAll(db, writes))
  {
    hide Guarded;
    assert writes[..|writes|] == writes;
  }

  lemma ThroughoutStep(db: Database, writes: seq<Write>)
    requires db.hm.Some? && writes != []
    ensures var front := writes[..|writes| - 1];
            GuardedThroughout(db, writes) <==> GuardedThroughout(db, front) && Guarded(ApplyAll(db, writes))
  {
    hide Guarded;
    var front := writes[..|writes| - 1];
    assert forall n :: 0 <= n <= |front| ==> front[..n] == writes[..n];
    assert writes[..|writes|] == writes;
  }

  lemma NoneStep(db: Database, writes: seq<Write>)
    requires db.hm.Some? && writes != []
    ensures var front := writes[..|writes| - 1];
            NoneUnguards(db, writes) <==> NoneUnguards(db, front) && !Unguards(ApplyAll(db, front), writes[|writes| - 1])
  {
    hide Unguards, ApplyAll, UnguardsAt;
    var front := writes[..|writes| - 1];
    forall n | 0 <= n < |front| ensures UnguardsAt(db, writes, n) <==> UnguardsAt(db, front, n) {
      UnguardsInFront(db, writes, n);
    }
    UnguardsLast(db, writes);
  }

  lemma UnguardsInFront(db: Database, writes: seq<Write>, n: nat)
    requires db.hm.Some? && n < |writes| - 1
    ensures UnguardsAt(db, writes, n) <==> UnguardsAt(db, writes[..|writes| - 1], n)
  {
    hide Unguards, ApplyAll;
    assert writes[..|writes| - 1][..n] == writes[..n];
  }

  lemma UnguardsLast(db: Database, writes: seq<Write>)
    requires db.hm.Some? && writes != []
    ensures UnguardsAt(db, writes, |writes| - 1) <==> Unguards(ApplyAll(db, writes[..|writes| - 1]), writes[|writes| - 1])
  {
    hide Unguards, ApplyAll;
  }

  lemma T0Guarded(hm: Hm, records: Records, agents: set<string>)
    requires IsT0(hm, records, agents)
    ensures Guarded(Database(records, Some(hm))) && hm.members == records
  {
    OriginRoundTrip(LegacyUnknown, ClassName(LegacyUnknown));
    hide ChecksOf, DecodeOrigin, ClassName;
    forall key | key in records ensures LabelOf(hm, key) == Some(LegacyLabel(records[key])) {
    }
  }

  /**
   After T0 the checks pass whatever is written to records and labels; members
   stay guarded all along iff no write takes the label or the key from a standing
   member; and then no member is missing without a tombstone, nor unrestricted
   while present.
   */
  lemma AlwaysVerifies(hm: Hm, records: Records, agents: set<string>, writes: seq<Write>, key: RecordKey)
    requires IsT0(hm, records, agents) && key in records
    ensures var start := Database(records, Some(hm));
            var db := ApplyAll(start, writes);
            && Complete(db.hm.value) && AllPass(ChecksOf(db.hm.value)) && db.hm.value.members == records
            && (GuardedThroughout(start, writes) <==> NoneUnguards(start, writes))
            && (NoneUnguards(start, writes) ==>
                  !StateOf(db.records, db.hm.value, key).MissingUntombstoned?
                      && !Loose(StateOf(db.records, db.hm.value, key)))
  {
    var start := Database(records, Some(hm));
    T0Verifies(hm, records, agents, key);
    T0Guarded(hm, records, agents);
    hide IsT0, Complete, ChecksOf, Guarded, Unguards, StateOf, NoneUnguards, ApplyAll;
    ChecksAlwaysPass(start, writes);
    GuardedThroughoutExactly(start, writes);
    if NoneUnguards(start, writes) {
      assert writes[..|writes|] == writes;
      GuardedStates(ApplyAll(start, writes), key);
    }
  }

  /** Deleting a member's label and inserting another makes it unrestricted, and every check still passes. */
  lemma DeletedLabelLoosens(hm: Hm, key: RecordKey, row: Row)
    requires IsT0(hm, map[key := row], {})
    ensures var deleted := Apply(Database(map[key := row], Some(hm)), DeleteLabel(key));
            var db := Apply(deleted, InsertLabel(key, Loosening(row)));
            && Complete(db.hm.value) && AllPass(ChecksOf(db.hm.value)) && key in db.hm.value.members
            && Loose(StateOf(db.records, db.hm.value, key))
  {
    var start := Database(map[key := row], Some(hm));
    T0Verifies(hm, start.records, {}, key);
    T0Guarded(hm, start.records, {});
    T0Standing(hm, start.records, {}, key);
    hide ChecksOf, IsT0, Apply, Guarded, Complete, StateOf;
    ApplyKeepsChecks(start, DeleteLabel(key));
    ApplyKeepsChecks(Apply(start, DeleteLabel(key)), InsertLabel(key, Loosening(row)));
    UnguardedCanFail(start, DeleteLabel(key));
  }

  lemma T0Standing(hm: Hm, records: Records, agents: set<string>, key: RecordKey)
    requires IsT0(hm, records, agents) && key in records
    ensures Standing(hm, key)
  {
  }

  /** Changing a member's key leaves it missing without a tombstone. */
  lemma MovedRowIsMissing(hm: Hm, key: RecordKey, to: RecordKey, row: Row)
    requires IsT0(hm, map[key := row], {}) && to != key && to.table == key.table
    ensures var db := Apply(Database(map[key := row], Some(hm)), MoveRow(key, to, row));
            && Complete(db.hm.value) && AllPass(ChecksOf(db.hm.value)) && key in db.hm.value.members
            && StateOf(db.records, db.hm.value, key).MissingUntombstoned?
  {
    var start := Database(map[key := row], Some(hm));
    T0Verifies(hm, start.records, {}, key);
    T0Guarded(hm, start.records, {});
    T0Standing(hm, start.records, {}, key);
    hide ChecksOf, IsT0, Apply, Guarded, Complete, StateOf;
    ApplyKeepsChecks(start, MoveRow(key, to, row));
    UnguardedCanFail(start, MoveRow(key, to, row));
  }

  // ------------------------------------------------------------------
  // The transaction
  // ------------------------------------------------------------------

  /** `members` and `labels` hold exactly the records in `covered`, as T0 writes them. */
  ghost predicate Ledgered(records: Records, members: Records, labels: map<RecordKey, Label>, covered: set<RecordKey>) {
    && members.Keys == covered && labels.Keys == covered && covered <= records.Keys
    && forall key :: key in covered ==> members[key] == records[key] && labels[key] == LegacyLabel(records[key])
  }

  /** `keys` are the records of one table, each once. */
  ghost predicate Scans(keys: seq<RecordKey>, records: Records, table: RecordTable) {
    && (forall i, j :: 0 <= i < j < |keys| ==> keys[i] != keys[j])
    && (forall key :: key in keys <==> key in KeysOf(records, table))
  }

  /** The historical-memory tables inside one transaction. */
  class HmTx {
    const records: Records
    var hm: Option<Hm>

    constructor (db: Database)
      ensures records == db.records && hm == db.hm
    {
      records, hm := db.records, db.hm;
    }

    method CreateSchema() returns (ok: bool)
      requires hm.None?
      modifies this
      ensures hm == if ok then Some(Schema()) else None
    {
      ok := *;
      if ok {
        hm := Some(Schema());
      }
    }

    /** The rows of a table, in order; an unreadable one is an error. */
    method ScanTable(table: RecordTable) returns (ok: bool, keys: seq<RecordKey>)
      ensures ok ==> Scans(keys, records, table)
    {
      keys := [];
      var todo := KeysOf(records, table);
      while todo != {}
        invariant todo <= KeysOf(records, table)
        invariant forall i, j :: 0 <= i < j < |keys| ==> keys[i] != keys[j]
        invariant forall key :: key in keys <==> key in KeysOf(records, table) - todo
        decreases todo
      {
        var key :| key in todo;
        assert key !in keys;
        keys := keys + [key];
        todo := todo - {key};
      }
      ok := *;
    }

    /** Add a member and its legacy label; both keys must be free and the ledger open. */
    method InsertMember(key: RecordKey, row: Row) returns (ok: bool, ghost fault: bool)
      requires hm.Some?
      modifies this
      ensures ok ==> hm == Some(old(hm).value.(members := old(hm).value.members[key := row],
                                               labels := old(hm).value.labels[key := LegacyLabel(row)]))
      ensures !fault && key !in old(hm).value.members && key !in old(hm).value.labels && old(hm).value.migration == [] ==>
                ok
    {
      var broken: bool := *;
      if broken || key in hm.value.members || hm.value.migration != [] {
        return false, broken;
      }
      hm := Some(hm.value.(members := hm.value.members[key := row]));
      broken := *;
      if broken || key in hm.value.labels {
        return false, broken;
      }
      hm := Some(hm.value.(labels := hm.value.labels[key := LegacyLabel(row)]));
      return true, false;
    }

    /** Add an agent's baseline: the history row first, as its trigger demands. */
    method InsertBaseline(agent: string) returns (ok: bool, ghost fault: bool)
      requires hm.Some?
      modifies this
      ensures ok ==> hm == Some(old(hm).value.(changes := old(hm).value.changes[ChangeKey(agent, 1) := BaselineChange()],
                                               policies := old(hm).value.policies[agent := BaselinePolicy()]))
      ensures !fault && agent !in old(hm).value.policies && ChangeKey(agent, 1) !in old(hm).value.changes ==> ok
    {
      var broken: bool := *;
      if broken || ChangeKey(agent, 1) in hm.value.changes {
        return false, broken;
      }
      hm := Some(hm.value.(changes := hm.value.changes[ChangeKey(agent, 1) := BaselineChange()]));
      broken := *;
      if broken || agent in hm.value.policies {
        return false, broken;
      }
      hm := Some(hm.value.(policies := hm.value.policies[agent := BaselinePolicy()]));
      return true, false;
    }
  }

  /** The records of the first `n` tables. */
  function Covered(records: Records, n: nat): set<RecordKey>
    requires n <= |ALL_TABLES|
  {
    set key | key in records && key.table in ALL_TABLES[..n]
  }

  lemma CoveredStep(records: Records, n: nat)
    requires n < |ALL_TABLES|
    ensures Covered(records, n + 1) == Covered(records, n) + KeysOf(records, ALL_TABLES[n])
    ensures Covered(records, n) !! KeysOf(records, ALL_TABLES[n])
  {
    assert ALL_TABLES[..n + 1] == ALL_TABLES[..n] + [ALL_TABLES[n]];
    assert forall i :: 0 <= i < n ==> ALL_TABLES[i] != ALL_TABLES[n];
  }

  lemma AllCovered(records: Records)
    ensures Covered(records, 0) == {} && Covered(records, |ALL_TABLES|) == records.Keys
  {
    forall key | key in records ensures key.table in ALL_TABLES[..|ALL_TABLES|] {
      assert ALL_TABLES[..|ALL_TABLES|] == ALL_TABLES;
      match key.table {
        case AgentMemory => assert ALL_TABLES[0] == key.table;
        case TaskHistory => assert ALL_TABLES[1] == key.table;
        case StrategyScores => assert ALL_TABLES[2] == key.table;
        case WorldModelEntities => assert ALL_TABLES[3] == key.table;
        case WorldModelRelationships => assert ALL_TABLES[4] == key.table;
      }
    }
  }

  lemma {:induction false} DistinctCount<T>(s: seq<T>, elements: set<T>)
    requires forall i, j :: 0 <= i < j < |s| ==> s[i] != s[j]
    requires forall x :: x in s <==> x in elements
    ensures |s| == |elements|
  {
    if s == [] {
      assert elements == {};
    } else {
      var front, last := s[..|s| - 1], s[|s| - 1];
      assert forall x :: x in front <==> x in elements - {last};
      DistinctCount(front, elements - {last});
    }
  }

  /** The tables during step 2: only ledger and labels have moved. */
  ghost predicate Labelling(hm: Option<Hm>, records: Records, covered: set<RecordKey>) {
    && hm.Some? && Ledgered(records, hm.value.members, hm.value.labels, covered)
    && hm.value == Schema().(members := hm.value.members, labels := hm.value.labels)
  }

  /** The event counts the rows of every table. */
  lemma {:induction false} CountsMean(records: Records, n: nat)
    requires n <= |ALL_TABLES|
    ensures forall table :: table in Counts(records, n) <==> table in ALL_TABLES[..n]
    ensures forall table :: table in Counts(records, n) ==> Counts(records, n)[table] == |KeysOf(records, table)|
  {
    if n > 0 {
      CountsMean(records, n - 1);
      assert ALL_TABLES[..n] == ALL_TABLES[..n - 1] + [ALL_TABLES[n - 1]];
    }
  }

  lemma ScannedExactly(keys: seq<RecordKey>, records: Records, table: RecordTable)
    requires Scans(keys, records, table)
    ensures (set key | key in keys) == KeysOf(records, table) && |keys| == |KeysOf(records, table)|
  {
    DistinctCount(keys, KeysOf(records, table));
  }

  lemma RowAgentsJoin(records: Records, a: set<RecordKey>, b: set<RecordKey>, wanted: bool,
                      canonical: string -> Option<string>)
    ensures RowAgents(records, a + b, wanted, canonical) ==
            RowAgents(records, a, wanted, canonical) + RowAgents(records, b, wanted, canonical)
    ensures RowAgents(records, {}, wanted, canonical) == {}
  {
  }

  /** What step 2 has collected from the first `n` tables. */
  ghost predicate Collected(records: Records, registered: set<string>, wanted: bool, canonical: string -> Option<string>,
                            n: nat, agents: set<string>, counts: map<RecordTable, nat>)
    requires n <= |ALL_TABLES|
  {
    && agents == registered + RowAgents(records, Covered(records, n), wanted, canonical)
    && counts == Counts(records, n)
  }

  lemma CollectedEnds(records: Records, registered: set<string>, wanted: bool, canonical: string -> Option<string>)
    ensures Collected(records, registered, wanted, canonical, 0, registered, map[])
    ensures forall agents, counts :: Collected(records, registered, wanted, canonical, |ALL_TABLES|, agents, counts) ==>
              agents == Baseline(records, registered, wanted, canonical) && counts == T0Event(records).rows
  {
    hide RowAgents, Covered, KeysOf;
    AllCovered(records);
    RowAgentsJoin(records, {}, {}, wanted, canonical);
  }

  lemma CollectedStep(records: Records, registered: set<string>, wanted: bool, canonical: string -> Option<string>,
                      n: nat, agents: set<string>, counts: map<RecordTable, nat>, keys: seq<RecordKey>)
    requires n < |ALL_TABLES| && Collected(records, registered, wanted, canonical, n, agents, counts)
    requires Scans(keys, records, ALL_TABLES[n])
    ensures Collected(records, registered, wanted, canonical, n + 1,
                      agents + RowAgents(records, (set key | key in keys), wanted, canonical),
                      counts[ALL_TABLES[n] := |keys|])
  {
    hide RowAgents, Covered, KeysOf, Scans;
    CoveredStep(records, n);
    ScannedExactly(keys, records, ALL_TABLES[n]);
    RowAgentsJoin(records, Covered(records, n), KeysOf(records, ALL_TABLES[n]), wanted, canonical);
  }

  /** Ledger and label the rows of one table. */
  method LabelTable(tx: HmTx, keys: seq<RecordKey>, ghost covered: set<RecordKey>, table: RecordTable)
    returns (ok: bool, ghost fault: bool)
    requires Labelling(tx.hm, tx.records, covered) && Scans(keys, tx.records, table)
             && covered !! KeysOf(tx.records, table)
    modifies tx
    ensures ok ==> Labelling(tx.hm, tx.records, covered + KeysOf(tx.records, table))
    ensures !fault ==> ok
  {
    hide Labelling, KeysOf;
    ghost var done := covered;
    for i := 0 to |keys|
      invariant Labelling(tx.hm, tx.records, done)
      invariant forall key :: key in done <==> key in covered || key in keys[..i]
    {
      var key := keys[i];
      assert key in keys;
      TableKey(tx.records, table, key);
      LabelStep(tx.hm, tx.records, done, key);
      ok, fault := tx.InsertMember(key, tx.records[key]);
      if !ok {
        return;
      }
      done := done + {key};
    }
    assert keys[..|keys|] == keys;
    assert done == covered + KeysOf(tx.records, table);
    return true, false;
  }

  lemma TableKey(records: Records, table: RecordTable, key: RecordKey)
    requires key in KeysOf(records, table)
    ensures key in records
  {
  }

  lemma LabelStep(hm: Option<Hm>, records: Records, covered: set<RecordKey>, key: RecordKey)
    requires Labelling(hm, records, covered) && key in records && key !in covered
    ensures hm.Some? && key !in hm.value.members && key !in hm.value.labels && hm.value.migration == []
    ensures Labelling(Some(hm.value.(members := hm.value.members[key := records[key]],
                                     labels := hm.value.labels[key := LegacyLabel(records[key])])),
                      records, covered + {key})
  {
  }

  /** Step 2: ledger and label every in-scope row; collect the row agents and the row counts. */
  method LabelMembers(tx: HmTx, registered: set<string>, withRowAgents: bool, canonical: string -> Option<string>)
    returns (ok: bool, agents: set<string>, counts: map<RecordTable, nat>, ghost fault: bool)
    requires Labelling(tx.hm, tx.records, {})
    modifies tx
    ensures ok ==>
              && Labelling(tx.hm, tx.records, tx.records.Keys)
              && agents == Baseline(tx.records, registered, withRowAgents, canonical)
              && counts == T0Event(tx.records).rows
    ensures !fault ==> ok
  {
    hide Labelling, Scans, Collected, KeysOf, Covered, RowAgents;
    agents, counts := registered, map[];
    AllCovered(tx.records);
    CollectedEnds(tx.records, registered, withRowAgents, canonical);
    for n := 0 to |ALL_TABLES|
      invariant Labelling(tx.hm, tx.records, Covered(tx.records, n))
      invariant Collected(tx.records, registered, withRowAgents, canonical, n, agents, counts)
    {
      var table := ALL_TABLES[n];
      CoveredStep(tx.records, n);
      var scanned, keys := tx.ScanTable(table);
      if !scanned {
        return false, agents, counts, true;
      }
      ok, fault := LabelTable(tx, keys, Covered(tx.records, n), table);
      if !ok {
        return;
      }
      CollectedStep(tx.records, registered, withRowAgents, canonical, n, agents, counts, keys);
      agents := agents + RowAgents(tx.records, (set key | key in keys), withRowAgents, canonical);
      counts := counts[table := |keys|];
    }
    return true, agents, counts, false;
  }

  /** The tables of step 3: `hm` with the baseline of some agents. */
  ghost predicate WithBaseline(hm: Hm, after: Option<Hm>, agents: set<string>) {
    && after.Some? && HasBaseline(after.value.policies, after.value.changes, agents)
    && after.value == hm.(policies := after.value.policies, changes := after.value.changes)
  }

  lemma BaselineStep(hm: Hm, before: Option<Hm>, done: set<string>, agent: string)
    requires WithBaseline(hm, before, done) && agent !in done
    ensures agent !in before.value.policies && ChangeKey(agent, 1) !in before.value.changes
    ensures var after := before.value.(changes := before.value.changes[ChangeKey(agent, 1) := BaselineChange()],
                                       policies := before.value.policies[agent := BaselinePolicy()]);
            WithBaseline(hm, Some(after), done + {agent})
  {
    assert ChangeKeys(done + {agent}) == ChangeKeys(done) + {ChangeKey(agent, 1)};
  }

  /** Step 3: a local-only policy of generation 1 for every baseline agent. */
  method WritePolicies(tx: HmTx, agents: set<string>) returns (ok: bool, ghost fault: bool)
    requires tx.hm.Some? && tx.hm.value.policies == map[] && tx.hm.value.changes == map[]
    modifies tx
    ensures ok ==> WithBaseline(old(tx.hm).value, tx.hm, agents)
    ensures !fault ==> ok
  {
    ghost var hm, done := tx.hm.value, {};
    assert WithBaseline(hm, tx.hm, {});
    hide WithBaseline;
    var todo := agents;
    while todo != {}
      invariant done + todo == agents && done !! todo && WithBaseline(hm, tx.hm, done)
      decreases todo
    {
      var agent :| agent in todo;
      BaselineStep(hm, tx.hm, done, agent);
      BaselineIsSome(hm, tx.hm, done);
      ok, fault := tx.InsertBaseline(agent);
      if !ok {
        return;
      }
      todo, done := todo - {agent}, done + {agent};
    }
    assert done == agents;
    return true, false;
  }

  lemma BaselineIsSome(hm: Hm, after: Option<Hm>, agents: set<string>)
    requires WithBaseline(hm, after, agents)
    ensures after.Some? && after.value.members == hm.members && after.value.migration == hm.migration
    ensures after.value.events == hm.events
  {
  }

  /** Steps 4 and 5: the migration row, which closes the ledger, and the event. */
  method CloseLedger(tx: HmTx, counts: map<RecordTable, nat>) returns (ok: bool, ghost fault: bool)
    requires tx.hm.Some? && tx.hm.value.migration == [] && tx.hm.value.events == []
    modifies tx
    ensures ok ==> var hm := old(tx.hm).value;
              tx.hm == Some(hm.(migration := [Migration(CONTRACT_VERSION, "COMPLETE", |hm.members|,
                      MemberSetDigest(hm.members))],
                                events := [Event("migration:t0", "memory.migration_t0", counts, |hm.members|,
                                                 MemberSetDigest(hm.members))]))
    ensures !fault ==> ok
  {
    var hm := tx.hm.value;
    var broken: bool := *;
    if broken {
      return false, true;
    }
    var memberCount, memberSet := |hm.members|, MemberSetDigest(hm.members);
    tx.hm := Some(hm.(migration := [Migration(CONTRACT_VERSION, "COMPLETE", memberCount, memberSet)]));
    broken := *;
    if broken {
      return false, true;
    }
    tx.hm := Some(tx.hm.value.(events := [Event("migration:t0", "memory.migration_t0", counts, memberCount, memberSet)]));
    return true, false;
  }

  lemma LabellingFacts(hm: Option<Hm>, records: Records)
    requires Labelling(hm, records, records.Keys)
    ensures hm.Some? && hm.value.members == records && hm.value.policies == map[] && hm.value.changes == map[]
    ensures hm.value.migration == [] && hm.value.events == []
  {
  }

  lemma AssembledT0(hm: Hm, after: Option<Hm>, records: Records, agents: set<string>)
    requires Labelling(Some(hm), records, records.Keys) && WithBaseline(hm, after, agents)
    ensures IsT0(after.value.(migration := [Migration(CONTRACT_VERSION, "COMPLETE", |records|, MemberSetDigest(records))],
                              events := [T0Event(records)]), records, agents)
  {
    hide KeysOf, Counts, Installed;
    LabellingFacts(Some(hm), records);
  }

  lemma EmptyLabelling(records: Records)
    ensures Labelling(Some(Schema()), records, {})
  {
  }

  datatype Outcome = Migrated(memberCount: nat, memberSet: Records) | AlreadyComplete

  class HmStore {
    var db: Database

    constructor (db: Database)
      ensures this.db == db
    {
      this.db := db;
    }

    /**
     The T0 migration, in one transaction: all of it or nothing.  The process may
     be interrupted at any probe point, and any statement or the commit may fail.
     */
    method RunT0(registered: set<string>, withRowAgents: bool, canonical: string -> Option<string>)
      returns (r: Result<Outcome>, ghost fault: bool)
      modifies this
      ensures r.Err? || r.value.AlreadyComplete? ==> db == old(db)
      ensures r == Ok(AlreadyComplete) ==> db.hm.Some? && Complete(db.hm.value)
      ensures r.Ok? && r.value.Migrated? ==>
                && old(db).hm.None?
                && r.value == Migrated(|db.records|, MemberSetDigest(db.records))
                && db.records == old(db).records && db.hm.Some?
                && IsT0(db.hm.value, db.records, Baseline(db.records, registered, withRowAgents, canonical))
      ensures old(db).hm.Some? && !fault ==>
                r == if Complete(old(db).hm.value) then Ok(AlreadyComplete) else Err(CorruptMigrationState)
      ensures old(db).hm.None? && !fault ==> r.Ok? && r.value.Migrated?
    {
      hide Labelling, Schema, IsT0, Baseline, T0Event;
      var tx := new HmTx(db);
      var broken: bool := *;
      if broken {
        return Err(Store), true;
      }
      if tx.hm.Some? {
        return if Complete(tx.hm.value) then Ok(AlreadyComplete) else Err(CorruptMigrationState), false;
      }
      var made := tx.CreateSchema();
      if !made {
        return Err(Store), true;
      }
      EmptyLabelling(tx.records);
      var error, faulted := FillTables(tx, registered, withRowAgents, canonical);
      if error.Some? {
        return Err(error.value), faulted;
      }
      broken := *;
      if broken {
        return Err(Store), true;
      }
      db := Database(tx.records, tx.hm);
      return Ok(Migrated(|tx.hm.value.members|, MemberSetDigest(tx.hm.value.members))), faulted;
    }
  }

  /** Steps 2 to 5 after the schema, with the probe points between them. */
  method FillTables(tx: HmTx, registered: set<string>, withRowAgents: bool, canonical: string -> Option<string>)
    returns (error: Option<HmError>, ghost fault: bool)
    requires Labelling(tx.hm, tx.records, {})
    modifies tx
    ensures error.None? ==>
              && tx.hm.Some? && tx.hm.value.members == tx.records
              && IsT0(tx.hm.value, tx.records, Baseline(tx.records, registered, withRowAgents, canonical))
    ensures !fault ==> error.None?
  {
    hide Labelling, IsT0, Baseline, WithBaseline;
    var stop: bool := *;
    if stop {
      return Some(Interrupted), true;
    }
    var ok, agents, counts;
    ok, agents, counts, fault := LabelMembers(tx, registered, withRowAgents, canonical);
    if !ok {
      return Some(Store), fault;
    }
    stop := *;
    if stop {
      return Some(Interrupted), true;
    }
    LabellingFacts(tx.hm, tx.records);
    ghost var labelled := tx.hm.value;
    ok, fault := WritePolicies(tx, agents);
    if !ok {
      return Some(Store), fault;
    }
    stop := *;
    if stop {
      return Some(Interrupted), true;
    }
    BaselineIsSome(labelled, tx.hm, agents);
    AssembledT0(labelled, tx.hm, tx.records, agents);
    ok, fault := CloseLedger(tx, counts);
    if !ok {
      return Some(Store), fault;
    }
    stop := *;
    if stop {
      return Some(Interrupted), true;
    }
    return None, false;
  }

  // ------------------------------------------------------------------
  // Verification at start
  // ------------------------------------------------------------------

  /** L4: the ledger, tombstone and delete triggers have their expected definitions. */
  method CheckTriggers(triggers: map<string, string>) returns (ok: bool)
    ensures ok <==> forall i :: 0 <= i < |L4_TRIGGERS| ==> TriggerIntact(triggers, L4_TRIGGERS[i])
  {
    ok := true;
    for n := 0 to |L4_TRIGGERS|
      invariant ok <==> forall i :: 0 <= i < n ==> TriggerIntact(triggers, L4_TRIGGERS[i])
    {
      if L4_TRIGGERS[n] !in triggers || triggers[L4_TRIGGERS[n]] != Definition(L4_TRIGGERS[n]) {
        ok := false;
      }
    }
  }

  /** L3: no tombstone is without a ledger row. */
  lemma NoOrphans(tombstones: set<RecordKey>, members: set<RecordKey>)
    ensures tombstones - members == {} <==> tombstones <= members
  {
    if tombstones - members == {} {
      forall key | key in tombstones ensures key in members {
        assert key !in tombstones - members;
      }
    }
  }

  /** A member and its state in the ledger's terms. */
  ghost predicate Evaluates(db: Database, member: Member) {
    && db.hm.Some? && member.key in db.hm.value.members
    && member.agent == db.hm.value.members[member.key].agent
    && member.state == StateOf(db.records, db.hm.value, member.key)
  }

  /** `members` are those of the ledger rows in `keys`, each once. */
  ghost predicate ListsMembers(db: Database, members: seq<Member>, keys: set<RecordKey>) {
    && (forall i :: 0 <= i < |members| ==> Evaluates(db, members[i]) && members[i].key in keys)
    && (forall i, j :: 0 <= i < j < |members| ==> members[i].key != members[j].key)
    && (forall key :: key in keys ==> exists i :: 0 <= i < |members| && members[i].key == key)
  }

  lemma ListsOneMore(db: Database, members: seq<Member>, keys: set<RecordKey>, member: Member)
    requires ListsMembers(db, members, keys) && Evaluates(db, member) && member.key !in keys
    ensures ListsMembers(db, members + [member], keys + {member.key})
  {
    hide Evaluates;
    var more := members + [member];
    forall key | key in keys + {member.key} ensures exists i :: 0 <= i < |more| && more[i].key == key {
      if key == member.key {
        assert more[|members|].key == key;
      } else {
        var i :| 0 <= i < |members| && members[i].key == key;
        assert more[i].key == key;
      }
    }
  }

  method EvaluateMembers(db: Database) returns (ok: bool, members: seq<Member>)
    requires db.hm.Some?
    ensures ok ==> ListsMembers(db, members, db.hm.value.members.Keys)
  {
    hide ListsMembers, StateOf;
    var hm := db.hm.value;
    members := [];
    var todo := hm.members.Keys;
    NoMembers(db);
    while todo != {}
      invariant todo <= hm.members.Keys && ListsMembers(db, members, hm.members.Keys - todo)
      decreases todo
    {
      var broken: bool := *;
      if broken {
        return false, members;
      }
      var key :| key in todo;
      var member := Member(key, hm.members[key].agent, StateOf(db.records, hm, key));
      ListsOneMore(db, members, hm.members.Keys - todo, member);
      assert hm.members.Keys - (todo - {key}) == hm.members.Keys - todo + {key};
      members := members + [member];
      todo := todo - {key};
    }
    assert hm.members.Keys - todo == hm.members.Keys;
    return true, members;
  }

  lemma NoMembers(db: Database)
    requires db.hm.Some?
    ensures ListsMembers(db, [], db.hm.value.members.Keys - db.hm.value.members.Keys)
  {
  }

  /** Check the ledger and evaluate every member, reading only. */
  method CheckLedger(db: Database) returns (r: Result<Option<(Checks, seq<Member>)>>, ghost fault: bool)
    ensures db.hm.None? && !fault ==> r == Ok(None)
    ensures db.hm.Some? && !Complete(db.hm.value) && !fault ==> r == Err(CorruptMigrationState)
    ensures db.hm.Some? && Complete(db.hm.value) && !fault ==> r.Ok? && r.value.Some?
    ensures r.Ok? && r.value.Some? ==>
              && db.hm.Some? && Complete(db.hm.value) && r.value.value.0 == ChecksOf(db.hm.value)
              && ListsMembers(db, r.value.value.1, db.hm.value.members.Keys)
  {
    hide ListsMembers;
    var broken: bool := *;
    if broken {
      return Err(Store), true;
    }
    if db.hm.None? {
      return Ok(None), false;
    }
    var hm := db.hm.value;
    if !Complete(hm) {
      return Err(CorruptMigrationState), false;
    }
    var triggers := CheckTriggers(hm.triggers);
    var checks := Checks(|hm.members| == hm.migration[0].memberCount,
                         MemberSetDigest(hm.members) == hm.migration[0].memberSet,
                         hm.tombstones - hm.members.Keys == {}, triggers);
    NoOrphans(hm.tombstones, hm.members.Keys);
    var ok, members := EvaluateMembers(db);
    if !ok {
      return Err(Store), true;
    }
    return Ok(Some((checks, members))), false;
  }

  /** The members are the records, each once, present, bound and unchanged. */
  ghost predicate Untouched(records: Records, members: seq<Member>) {
    && (forall i, j :: 0 <= i < j < |members| ==> members[i].key != members[j].key)
    && (forall i :: 0 <= i < |members| ==>
          && members[i].key in records && members[i].agent == records[members[i].key].agent
          && members[i].state == Present(Bound(LegacyUnknown), true))
    && (forall key :: key in records ==> exists i :: 0 <= i < |members| && members[i].key == key)
  }

  lemma T0Report(hm: Hm, records: Records, agents: set<string>, members: seq<Member>)
    requires IsT0(hm, records, agents) && ListsMembers(Database(records, Some(hm)), members, hm.members.Keys)
    ensures Complete(hm) && AllPass(ChecksOf(hm)) && Untouched(records, members)
  {
    T0Guarded(hm, records, agents);
    hide IsT0, ChecksOf, Guarded, StateOf;
    T0Verifies(hm, records, agents, RecordKey(AgentMemory, ""));
    forall i | 0 <= i < |members|
      ensures members[i].key in records && members[i].state == Present(Bound(LegacyUnknown), true)
      ensures members[i].agent == records[members[i].key].agent
    {
      assert Evaluates(Database(records, Some(hm)), members[i]);
      T0Verifies(hm, records, agents, members[i].key);
    }
  }

  /**
   T0 on any store, then again, then the checks: if they go through, every check
   passes and every record is a present, bound and unchanged member.
   */
  method MigrateThenVerify(records: Records, registered: set<string>, withRowAgents: bool,
                           canonical: string -> Option<string>)
    returns (outcome: Result<Outcome>, again: Result<Outcome>, report: Result<Option<(Checks, seq<Member>)>>,
                 ghost fault: bool)
    ensures !fault ==> outcome.Ok? && report.Ok? && report.value.Some? && again == Ok(AlreadyComplete)
    ensures outcome.Ok? && report.Ok? && report.value.Some? ==>
              AllPass(report.value.value.0) && Untouched(records, report.value.value.1)
  {
    hide IsT0, ChecksOf, Baseline, Untouched, ListsMembers, Complete, AllPass;
    ghost var agents := Baseline(records, registered, withRowAgents, canonical);
    var store := new HmStore(Database(records, None));
    ghost var first, second, third;
    outcome, first := store.RunT0(registered, withRowAgents, canonical);
    if outcome.Ok? {
      T0Verifies(store.db.hm.value, records, agents, RecordKey(AgentMemory, ""));
    }
    again, second := store.RunT0(registered, withRowAgents, canonical);
    report, third := CheckLedger(store.db);
    fault := first || second || third;
    if outcome.Ok? && report.Ok? && report.value.Some? {
      T0Report(store.db.hm.value, records, agents, report.value.value.1);
    }
  }
}
