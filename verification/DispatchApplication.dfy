/**
 Applying one verified Worker bundle as a resumable transaction: a recovery record, then one log record and one
 state replacement per Supervisor event, then four ledger rows, then a receipt. Any durable write may be the last
 one before the process dies. This module gives the step semantics: which durable write a run performs next is a
 function of the disk alone.
 */
module DispatchApplication {
  import opened Common
  import opened JsonText
  import opened Ledger
  import opened LedgerFile
  import opened LedgerFraming
  import opened LedgerReplay
  import opened Resumption
  import opened Trimming

  // ---------------------------------------------------------------- the Supervisor runtime

  datatype SupervisorEvent = SupervisorEvent(
    eventId: string, timestamp: string, eventType: string, laneId: string, payload: string)

  /** `_event_input`: the texts of an event without blanks at either end. */
  function Trimmed(e: SupervisorEvent): SupervisorEvent {
    SupervisorEvent(Strip(e.eventId), Strip(e.timestamp), Strip(e.eventType), Strip(e.laneId), e.payload)
  }

  lemma TrimmedTwice(e: SupervisorEvent)
    ensures Trimmed(Trimmed(e)) == Trimmed(e)
  {
    StripTwice(e.eventId);
    StripTwice(e.timestamp);
    StripTwice(e.eventType);
    StripTwice(e.laneId);
  }

  datatype LogBody = LogBody(event: SupervisorEvent, sequence: int, previous: Digest, payload: string)

  datatype LogRecord = LogRecord(body: LogBody, eventHash: Digest) {
    function Id(): string { body.event.eventId }
  }

  /** The runtime state: its event cursor, and everything else. */
  datatype Runtime = Runtime(sequence: int, lastHash: Digest, lastId: Option<string>, content: string)

  // ---------------------------------------------------------------- the request

  /** The scheduled application always owns ledger rows; a role packet owns them only when its stage was scheduled. */
  datatype Variant = Scheduled | Role(ledgered: bool)

  /**
   One application: the verified manifest or packet, and the deterministic functions the run calls. `recoveryControlled`
   says that the board's active task is `T006`, whose events need a recovery control that an application never passes.
   */
  datatype Application = Application(
    variant: Variant,
    hash: Hash,
    logHash: LogBody -> Digest,
    transition: (Runtime, SupervisorEvent) -> Option<(string, string)>,
    markId: (string, Digest, Digest) -> string,
    bindsGrant: Event -> bool,
    bindsState: Runtime -> bool,
    recoveryControlled: bool,
    applicationId: string,
    events: seq<SupervisorEvent>,
    manifestSha: Digest,
    lease: seq<Member>,
    leaseId: string,
    grantAt: int,
    headBefore: Digest,
    headAfter: Digest,
    tokens: Json,
    cost: Json,
    workStatus: string,
    returnSha: Digest,
    qualitySha: Digest,
    qualitySelfSha: Digest)
  {
    function StageCount(): nat {
      if variant == Role(false) then 0 else 4
    }
  }

  const STAGES: seq<string> := ["dispatch_finished", "quality_accepted", "schedule_closed", "lease_released"]

  /** What the manifest and result checks before the transaction guarantee. */
  ghost predicate ApplicationValid(p: Application) {
    && p.events != []
    && p.leaseId != "" && Get(p.lease, "lease_id") == Some(Str(p.leaseId))
    && p.tokens != Null && Canonical(p.tokens) && Canonical(p.cost)
    && HexHash(p.hash)
    && forall marker, grantId, manifest :: Text(p.markId(marker, grantId, manifest))
  }

  /** Digests are hexadecimal text; all that matters here is that they hold no line separator. */
  ghost predicate HexHash(hash: Hash) {
    forall b :: !Separated(hash(b))
  }

  // ---------------------------------------------------------------- the disk

  datatype Status = Prepared | SupervisorApplying | SupervisorApplied | LedgerFinalizing | LeaseReleased | Receipted

  datatype Recovery = Recovery(
    applicationId: string, startedAt: string, status: Status,
    sequenceBefore: int, headBefore: Digest,
    expected: seq<LogRecord>, snapshots: seq<Runtime>,
    eventCount: int, stageSequences: seq<Option<int>>, receiptCreated: bool)

  datatype LedgerSummary = LedgerSummary(finished: int, accepted: int, closed: int, headAfterRelease: Digest)

  datatype Receipt = Receipt(
    manifestSha: Digest, startedAt: Option<string>, ledger: Option<LedgerSummary>,
    eventIds: seq<string>, sequenceBefore: int, sequenceAfter: int, headAfter: Digest)

  /**
   The files. The ledger file is given by the rows written to it and by whether it can be read back; that this is what
   its bytes amount to is shown in `DispatchLedgerFile`.
   */
  datatype Disk = Disk(
    log: seq<LogRecord>, state: Runtime, ledger: seq<Record>, readable: bool,
    recovery: Option<Recovery>, receipt: Option<Receipt>)

  datatype AppError =
    | LedgerInvalid | RangeInvalid | HeadMismatch | BindingMismatch | ExecutionUnknown | LeaseInactive | StaleFence
    | StageConflict(stage: nat) | OutOfOrder(stage: nat) | FinalizationFailed(stage: nat)
    | RecoveryMissing | RecoveryConflict | RecoveryInvalid
    | StateDrift | LogInvalid | CursorMismatch | PreflightRejected
    | EventSequence | EventHead | EventSuffix | RuntimeState | RuntimeCursor | SupervisorFailed
    | ReceiptConflict

  // ---------------------------------------------------------------- the Supervisor log

  function LogHead(log: seq<LogRecord>): Digest {
    if log == [] then ZERO_HASH else log[|log| - 1].eventHash
  }

  function LogLastId(log: seq<LogRecord>): Option<string> {
    if log == [] then None else Some(log[|log| - 1].Id())
  }

  predicate InLog(log: seq<LogRecord>, id: string) {
    exists i | 0 <= i < |log| :: log[i].Id() == id
  }

  /** `verify_event_log`, one record at a time. */
  predicate LogOk(p: Application, log: seq<LogRecord>) {
    log == [] ||
    var n := |log| - 1;
    && LogOk(p, log[..n])
    && log[n].body.sequence == n + 1
    && log[n].body.previous == LogHead(log[..n])
    && log[n].eventHash == p.logHash(log[n].body)
    && !InLog(log[..n], log[n].Id())
  }

  /** The runtime's cursor is the end of the log. */
  predicate CursorOk(log: seq<LogRecord>, s: Runtime) {
    s.sequence == |log| && s.lastHash == LogHead(log) && s.lastId == LogLastId(log)
  }

  /**
   One event applied to a state: the record it logs and the state it leaves. The transition trims the event it is given,
   the record holds the event as given.
   */
  function Advance(p: Application, s: Runtime, e: SupervisorEvent): Option<(LogRecord, Runtime)> {
    match p.transition(s, Trimmed(e))
    case None => None
    case Some((content, payload)) =>
      var body := LogBody(e, s.sequence + 1, s.lastHash, payload);
      var record := LogRecord(body, p.logHash(body));
      Some((record, Runtime(body.sequence, record.eventHash, Some(e.eventId), content)))
  }

  /** The first `n` events folded over a start state: every record and every intermediate state. */
  function Prepare(p: Application, start: Runtime, n: nat): Option<(seq<LogRecord>, seq<Runtime>)>
    requires n <= |p.events|
  {
    if n == 0 then Some(([], [start])) else
    match Prepare(p, start, n - 1)
    case None => None
    case Some((records, states)) =>
      if states == [] then None else
      match Advance(p, states[|states| - 1], p.events[n - 1])
      case None => None
      case Some((record, state)) => Some((records + [record], states + [state]))
  }

  /** What `Prepare` returns, step by step. */
  ghost predicate Projection(p: Application, records: seq<LogRecord>, states: seq<Runtime>, n: nat)
    requires n <= |p.events|
  {
    && |records| == n && |states| == n + 1
    && forall i | 0 <= i < n :: Advance(p, states[i], p.events[i]) == Some((records[i], states[i + 1]))
  }

  lemma {:induction false} PrepareMeaning(p: Application, start: Runtime, n: nat)
    requires n <= |p.events| && Prepare(p, start, n).Some?
    ensures var r := Prepare(p, start, n).value; Projection(p, r.0, r.1, n) && r.1[0] == start
  {
    if n > 0 {
      PrepareMeaning(p, start, n - 1);
    }
  }

  // ---------------------------------------------------------------- this lease's ledger rows

  predicate OfLease(p: Application, r: Record) {
    Get(r.Event().lease, "lease_id") == Some(Str(p.leaseId))
  }

  predicate Mine(p: Application, r: Record, eventType: string) {
    r.Type() == eventType && OfLease(p, r)
  }

  function Matching(p: Application, rows: seq<Record>, eventType: string): seq<Record> {
    if rows == [] then [] else
    Matching(p, rows[..|rows| - 1], eventType) + if Mine(p, rows[|rows| - 1], eventType) then [rows[|rows| - 1]] else []
  }

  predicate Manifested(p: Application, r: Record) {
    Get(r.Event().evidence, "schedule_manifest_sha256") == Some(Str(p.manifestSha))
  }

  /** `_application_row`: the one row of a stage, none, or a conflict. */
  function StageRow(p: Application, rows: seq<Record>, stage: nat): (r: Result<Option<Record>, AppError>)
    requires stage < 4
    ensures r.Err? ==> r.error == StageConflict(stage)
  {
    var found := Matching(p, rows, STAGES[stage]);
    if found == [] then Ok(None)
    else if |found| != 1 || !Manifested(p, found[0]) then Err(StageConflict(stage))
    else Ok(Some(found[0]))
  }

  /** `_verify_ledger`: the grant this application runs under, or why it may not run. */
  function CheckLedger(p: Application, rows: seq<Record>): Result<Record, AppError> {
    if Verify(p.hash, AsLines(rows)).Err? then Err(LedgerInvalid)
    else if FindGrant(p, rows).Err? then FindGrant(p, rows)
    else if LeaseUsable(p, rows).Err? then Err(LeaseUsable(p, rows).error)
    else FindGrant(p, rows)
  }

  /** The row the manifest points at. */
  function FindGrant(p: Application, rows: seq<Record>): Result<Record, AppError> {
    if !(1 <= p.grantAt <= |rows|) then Err(RangeInvalid)
    else
      var grant := rows[p.grantAt - 1];
      if p.headBefore != (if p.grantAt == 1 then ZERO_HASH else rows[p.grantAt - 2].eventHash)
        || grant.eventHash != p.headAfter
      then Err(HeadMismatch)
      else if grant.Type() != "lease_granted" || grant.Event().lease != p.lease || !p.bindsGrant(grant.Event())
      then Err(BindingMismatch)
      else Ok(grant)
  }

  function LeaseUsable(p: Application, rows: seq<Record>): Result<(), AppError> {
    Decide(p, Matching(p, rows, "execution_unknown"),
      Matching(p, rows, "lease_expired"), Matching(p, rows, "lease_recovered"), Matching(p, rows, "lease_released"),
      ActiveLease(rows, p.leaseId))
  }

  /** A released lease is usable only by the application that released it; an active one only under the same fence. */
  function Decide(p: Application, unknown: seq<Record>, expired: seq<Record>, recovered: seq<Record>,
    released: seq<Record>, active: Option<Record>): Result<(), AppError>
  {
    if unknown != [] then Err(ExecutionUnknown)
    else if expired != [] || recovered != [] || |released| > 1 then Err(LeaseInactive)
    else if released != [] then
      if Manifested(p, released[0]) then Ok(()) else Err(LeaseInactive)
    else if active.None? then Err(LeaseInactive)
    else if Get(active.value.Event().lease, "fencing_token") != Get(p.lease, "fencing_token") then Err(StaleFence)
    else Ok(())
  }

  // ---------------------------------------------------------------- the four stage events

  function StageAccounting(p: Application, grant: Event, stage: nat): seq<Member> {
    var managed := stage == 0;
    var observed := Put(Put(grant.accounting, "observed_tokens", p.tokens), "observed_cost", p.cost);
    var status := Put(observed, "accounting_status", Str(if managed then "accounted" else "unknown"));
    var scope := Put(status, "accounting_scope", Str("orcastrata_admitted_executions"));
    Put(scope, "accounting_method", Str(if managed then "managed_ledger_append" else "not_applicable"))
  }

  function StageEvidence(p: Application, grant: Event, stage: nat, ids: seq<string>): seq<Member> {
    var work := Put(Put(grant.evidence, "work_status", Str(p.workStatus)), "execution_owner",
      Str("orcastrata_managed"));
    var returned := Put(work, "dispatch_return_manifest_sha256", Str(p.returnSha));
    var quality := Put(returned, "quality_receipt_sha256", Str(p.qualitySha));
    var manifest := Put(quality, "schedule_manifest_sha256", Str(p.manifestSha));
    var all := Put(manifest, "quality_receipt_self_sha256", Str(p.qualitySelfSha));
    if stage == 2 then Put(all, "supervisor_event_ids", Arr(seq(|ids|, i requires 0 <= i < |ids| => Str(ids[i]))))
      else all
  }

  function StageEvent(p: Application, grant: Record, stage: nat, timestamp: string, ids: seq<string>): Event
    requires stage < 4
  {
    var g := grant.Event();
    g.(eventId := p.markId(STAGES[stage], g.eventId, p.manifestSha),
       eventType := STAGES[stage],
       timestamp := timestamp,
       accounting := StageAccounting(p, g, stage),
       evidence := StageEvidence(p, g, stage, ids),
       lease := if stage == 3 then Put(g.lease, "released_at", Str(timestamp)) else g.lease)
  }

  // ---------------------------------------------------------------- the next durable write

  type Action = Step<Disk, Receipt, AppError>

  /** What a run started on this disk does first: one durable write, success, or a refusal. */
  function Next(p: Application, now: string, d: Disk): Action {
    if p.StageCount() == 4 && !d.readable then Fail(LedgerInvalid) else
    match Admit(p, d.ledger)
    case Err(e) => Fail(e)
    case Ok(grant) =>
      if p.variant.Role? && !LogOk(p, d.log) then Fail(LogInvalid) else
      match d.recovery
      case None => Begin(p, now, d)
      case Some(rec) =>
        match CheckRecovery(p, rec)
        case Err(e) => Fail(e)
        case Ok(_) => Resume(p, d, rec, grant)
  }

  /** The grant, for an application that owns ledger rows. */
  function Admit(p: Application, rows: seq<Record>): (r: Result<Option<Record>, AppError>)
    ensures r.Ok? ==> (r.value.Some? <==> p.StageCount() == 4)
    ensures r.Err? ==> !r.error.OutOfOrder?
  {
    if p.StageCount() == 0 then Ok(None) else
    match CheckLedger(p, rows)
    case Err(e) => Err(e)
    case Ok(grant) => Ok(Some(grant))
  }

  function NoStageRows(p: Application, rows: seq<Record>, stage: nat): (r: Result<(), AppError>)
    requires stage <= 4
    ensures r.Err? ==> !r.error.OutOfOrder?
    decreases 4 - stage
  {
    if stage == 4 then Ok(()) else
    match StageRow(p, rows, stage)
    case Err(e) => Err(e)
    case Ok(Some(_)) => Err(RecoveryMissing)
    case Ok(None) => NoStageRows(p, rows, stage + 1)
  }

  /** The checks before the transaction starts; a role packet compares the state with itself instead of the log. */
  function MayBegin(p: Application, d: Disk): (r: Result<(), AppError>)
    ensures r.Err? ==> !r.error.OutOfOrder?
  {
    if p.variant.Role? then if p.bindsState(d.state) then Ok(()) else Err(StateDrift)
    else if NoStageRows(p, d.ledger, 0).Err? then NoStageRows(p, d.ledger, 0)
    else if d.receipt.Some? then Err(RecoveryMissing)
    else if !p.bindsState(d.state) then Err(StateDrift)
    else if !LogOk(p, d.log) then Err(LogInvalid)
    else if !CursorOk(d.log, d.state) then Err(CursorMismatch)
    else Ok(())
  }

  function Begin(p: Application, now: string, d: Disk): Action {
    match MayBegin(p, d)
    case Err(e) => Fail(e)
    case Ok(_) =>
      match Prepare(p, d.state, |p.events|)
      case None => Fail(PreflightRejected)
      case Some((records, states)) => Write(d.(recovery := Some(NewRecovery(p, now, d, records, states))))
  }

  function NewRecovery(p: Application, now: string, d: Disk, records: seq<LogRecord>, states: seq<Runtime>): Recovery {
    Recovery(p.applicationId, now, Prepared, |d.log|, LogHead(d.log), records, states, 0, [None, None, None, None],
      false)
  }

  /** `_validate_recovery`: the record belongs to this application and its projection recomputes. */
  function CheckRecovery(p: Application, rec: Recovery): (r: Result<(), AppError>)
    ensures r.Err? ==> !r.error.OutOfOrder?
  {
    if rec.applicationId != p.applicationId then Err(RecoveryConflict)
    else if rec.expected == [] || |rec.snapshots| != |rec.expected| + 1 || |rec.stageSequences| != 4
      then Err(RecoveryInvalid)
    else if Prepare(p, rec.snapshots[0], |p.events|) != Some((rec.expected, rec.snapshots)) then Err(RecoveryInvalid)
    else Ok(())
  }

  function Resume(p: Application, d: Disk, rec: Recovery, grant: Option<Record>): Action
    requires CheckRecovery(p, rec).Ok?
    requires p.StageCount() == 4 ==> grant.Some?
  {
    if d.receipt.Some? then
      if rec.eventCount != |p.events| then Fail(ReceiptConflict) else NextStage(p, d, rec, grant, 0)
    else
      match Reconcile(p, d, rec)
      case Err(e) => Fail(e)
      case Ok((k, stale)) =>
        if stale then Write(d.(state := rec.snapshots[k]))
        else if !CursorOk(d.log, d.state) then Fail(RuntimeCursor)
        else if rec.eventCount != k then Write(d.(recovery := Some(AtCount(p, rec, k))))
        else if k < |p.events| then ApplyNext(p, d, k)
        else NextStage(p, d, rec, grant, 0)
  }

  /** How far the log got, and whether the state still trails it by one. */
  function Reconcile(p: Application, d: Disk, rec: Recovery): (r: Result<(nat, bool), AppError>)
    requires CheckRecovery(p, rec).Ok?
    ensures r.Ok? ==> r.value.0 < |rec.snapshots|
    ensures r.Err? ==> !r.error.OutOfOrder?
  {
    if !LogOk(p, d.log) then Err(LogInvalid)
    else if !(0 <= rec.sequenceBefore <= |d.log|) then Err(EventSequence)
    else if LogHead(d.log[..rec.sequenceBefore]) != rec.headBefore then Err(EventHead)
    else
      var suffix := d.log[rec.sequenceBefore..];
      if !(suffix <= rec.expected) then Err(EventSuffix)
      else
        var k := |suffix|;
        if d.state == rec.snapshots[k] then Ok((k, false))
        else if k > 0 && d.state == rec.snapshots[k - 1] then Ok((k, true))
        else Err(RuntimeState)
  }

  function AtCount(p: Application, rec: Recovery, k: int): Recovery {
    rec.(eventCount := k, status := if k < |p.events| then SupervisorApplying else SupervisorApplied)
  }

  /** `_apply_event_files_unlocked`, up to its first durable write, the log append. It records the trimmed event. */
  function ApplyNext(p: Application, d: Disk, k: nat): Action
    requires k < |p.events|
  {
    var event := Trimmed(p.events[k]);
    if p.recoveryControlled || InLog(d.log, event.eventId) then Fail(SupervisorFailed)
    else
      match Advance(p, d.state, event)
      case None => Fail(SupervisorFailed)
      case Some((record, _)) => Write(d.(log := d.log + [record]))
  }

  function EventIds(rec: Recovery): seq<string> {
    seq(|rec.expected|, i requires 0 <= i < |rec.expected| => rec.expected[i].Id())
  }

  function AtStage(rec: Recovery, stage: nat, sequence: int): Recovery
    requires stage < |rec.stageSequences|
  {
    rec.(stageSequences := rec.stageSequences[stage := Some(sequence)],
         status := if stage == 3 then LeaseReleased else LedgerFinalizing)
  }

  /** A row appended to the ledger file: it reads back only if the row stays on its line. */
  function WithRow(d: Disk, row: Record): Disk {
    d.(ledger := d.ledger + [row], readable := d.readable && OneLine(row))
  }

  function NextStage(p: Application, d: Disk, rec: Recovery, grant: Option<Record>, stage: nat): Action
    requires stage <= p.StageCount() && |rec.stageSequences| == 4 && rec.expected != []
    requires p.StageCount() == 4 ==> grant.Some?
    decreases 4 - stage
  {
    if stage == p.StageCount() then NextReceipt(p, d, rec) else
    match StageRow(p, d.ledger, stage)
    case Err(e) => Fail(e)
    case Ok(None) =>
      var event := StageEvent(p, grant.value, stage, rec.startedAt, EventIds(rec));
      if !EventOk(event) || HasId(d.ledger, event.eventId) then Fail(FinalizationFailed(stage))
      else Write(WithRow(d, Seal(p.hash, d.ledger, event)))
    case Ok(Some(row)) =>
      if row.Event() != StageEvent(p, grant.value, stage, row.Event().timestamp, EventIds(rec))
        then Fail(StageConflict(stage))
      else if rec.stageSequences[stage] != Some(row.Sequence())
        then Write(d.(recovery := Some(AtStage(rec, stage, row.Sequence()))))
      else NextStage(p, d, rec, grant, stage + 1)
  }

  /** The receipt a finished application writes. */
  function Summary(p: Application, rows: seq<Record>, rec: Recovery): Receipt
    requires rec.expected != []
  {
    var last := rec.expected[|rec.expected| - 1];
    Receipt(
      p.manifestSha,
      if p.variant.Role? then Some(rec.startedAt) else None,
      if p.StageCount() == 0 then None
      else Some(LedgerSummary(SequenceOf(p, rows, 0), SequenceOf(p, rows, 1), SequenceOf(p, rows, 2),
        HashOf(p, rows, 3))), EventIds(rec), rec.sequenceBefore, last.body.sequence, last.eventHash)
  }

  function SequenceOf(p: Application, rows: seq<Record>, stage: nat): int
    requires stage < 4
  {
    match StageRow(p, rows, stage)
    case Ok(Some(row)) => row.Sequence()
    case _ => 0
  }

  function HashOf(p: Application, rows: seq<Record>, stage: nat): Digest
    requires stage < 4
  {
    match StageRow(p, rows, stage)
    case Ok(Some(row)) => row.eventHash
    case _ => ZERO_HASH
  }

  function NextReceipt(p: Application, d: Disk, rec: Recovery): Action
    requires rec.expected != []
  {
    var result := Summary(p, d.ledger, rec);
    var done := rec.(status := Receipted, receiptCreated := true);
    if d.receipt.None? then Write(d.(receipt := Some(result)))
    else if d.receipt != Some(result) then Fail(ReceiptConflict)
    else if rec != done then Write(d.(recovery := Some(done)))
    else Done(result)
  }

  // ---------------------------------------------------------------- runs

  predicate Started(d: Disk) {
    d.recovery.Some?
  }

  function Applying(p: Application): Program<Disk, Receipt, AppError> {
    (now, d) => Next(p, now, d)
  }

  lemma StageWriteKeepsRecovery(p: Application, d: Disk, rec: Recovery, grant: Option<Record>, stage: nat)
    requires stage <= p.StageCount() && |rec.stageSequences| == 4 && rec.expected != [] && d.recovery == Some(rec)
    requires p.StageCount() == 4 ==> grant.Some?
    ensures NextStage(p, d, rec, grant, stage).Write? ==> Started(NextStage(p, d, rec, grant, stage).disk)
    decreases 4 - stage
  {
    if stage < p.StageCount() {
      StageWriteKeepsRecovery(p, d, rec, grant, stage + 1);
    }
  }

  lemma ClockAtStart(p: Application, now: string, other: string, d: Disk)
    ensures !Next(p, now, d).Write? || Started(d) ==> Next(p, other, d) == Next(p, now, d)
    ensures Next(p, now, d).Write? ==> Started(Next(p, now, d).disk)
  {
    hide CheckLedger, LogOk, Prepare, Reconcile, NextStage, MayBegin;
    if Started(d) && Admit(p, d.ledger).Ok? && CheckRecovery(p, d.recovery.value).Ok? {
      StageWriteKeepsRecovery(p, d, d.recovery.value, Admit(p, d.ledger).value, 0);
    }
  }

  lemma ClockRead(p: Application)
    ensures ClockOnlyAtStart(Applying(p), Started)
  {
    hide Next;
    forall now, other, d | !Next(p, now, d).Write? || Started(d) ensures Next(p, other, d) == Next(p, now, d) {
      ClockAtStart(p, now, other, d);
    }
    forall now, d | Next(p, now, d).Write? ensures Started(Next(p, now, d).disk) {
      ClockAtStart(p, now, now, d);
    }
  }

  /**
   Crash convergence of the application: whatever number of runs died, at whatever write, under whatever clocks, once
   one of them settles the disk and the answer are those of one uninterrupted run under the clock of the first attempt
   that got to write.
   */
  lemma CrashConvergence(p: Application, d: Disk, attempts: seq<Attempt>) returns (i: nat)
    requires attempts != [] && !Runs(Applying(p), d, attempts).1.Crashed?
    ensures i < |attempts| && forall j | 0 <= j < i :: attempts[j].writes == 0
    ensures attempts[i].writes > 0 || !Next(p, attempts[i].now, d).Write?
    ensures forall writes: nat :: writes >= WritesOf(attempts) ==>
      Run(Applying(p), attempts[i].now, d, writes) == Runs(Applying(p), d, attempts)
  {
    hide Next;
    ClockRead(p);
    i := Convergence(Applying(p), Started, d, attempts);
  }
}
