/**
 What an application does to the files, said without its own functions: when it may begin, and what the log, the state
 and the four ledger rows say once it is finished.
 */
module DispatchOutcome {
  import opened Common
  import opened JsonText
  import opened Ledger
  import opened LedgerFile
  import opened LedgerFraming
  import opened LedgerReplay
  import opened Resumption
  import opened DispatchApplication
  import opened DispatchRows
  import opened DispatchPhases
  import opened DispatchSafety
  import opened Trimming
  import S = DispatchStore

  // ---------------------------------------------------------------- what a stage row says

  function StageName(stage: nat): string
    requires stage < 4
  {
    match stage
    case 0 => "dispatch_finished"
    case 1 => "quality_accepted"
    case 2 => "schedule_closed"
    case 3 => "lease_released"
  }

  const ACCOUNTING_KEYS: set<string> := {
    "observed_tokens", "observed_cost", "accounting_status", "accounting_scope", "accounting_method"
  }

  const EVIDENCE_KEYS: set<string> := {
    "work_status", "execution_owner", "dispatch_return_manifest_sha256", "quality_receipt_sha256",
    "schedule_manifest_sha256", "quality_receipt_self_sha256"
  }

  /** Usage as returned, accounted for by the first row alone; everything else as in the grant. */
  ghost predicate AccountingTells(p: Application, granted: seq<Member>, accounting: seq<Member>, stage: nat) {
    && Get(accounting, "observed_tokens") == Some(p.tokens)
    && Get(accounting, "observed_cost") == Some(p.cost)
    && Get(accounting, "accounting_status") == Some(Str(if stage == 0 then "accounted" else "unknown"))
    && Get(accounting, "accounting_scope") == Some(Str("orcastrata_admitted_executions"))
    && Get(accounting, "accounting_method")
       == Some(Str(if stage == 0 then "managed_ledger_append" else "not_applicable"))
    && forall k | k !in ACCOUNTING_KEYS :: Get(accounting, k) == Get(granted, k)
  }

  /** The digests of what the application rests on, and the bundle's event identities in the third row alone. */
  ghost predicate EvidenceTells(p: Application, granted: seq<Member>, evidence: seq<Member>, stage: nat) {
    && Get(evidence, "work_status") == Some(Str(p.workStatus))
    && Get(evidence, "execution_owner") == Some(Str("orcastrata_managed"))
    && Get(evidence, "dispatch_return_manifest_sha256") == Some(Str(p.returnSha))
    && Get(evidence, "quality_receipt_sha256") == Some(Str(p.qualitySha))
    && Get(evidence, "schedule_manifest_sha256") == Some(Str(p.manifestSha))
    && Get(evidence, "quality_receipt_self_sha256") == Some(Str(p.qualitySelfSha))
    && (stage == 2 ==> exists ids ::
          && Get(evidence, "supervisor_event_ids") == Some(Arr(ids))
          && |ids| == |p.events| && forall i | 0 <= i < |ids| :: ids[i] == Str(p.events[i].eventId))
    && (stage != 2 ==> Get(evidence, "supervisor_event_ids") == Get(granted, "supervisor_event_ids"))
    && forall k | k !in EVIDENCE_KEYS && k != "supervisor_event_ids" :: Get(evidence, k) == Get(granted, k)
  }

  /** Released in the last row alone. */
  ghost predicate LeaseTells(granted: seq<Member>, lease: seq<Member>, startedAt: string, stage: nat) {
    && (stage == 3 ==> Get(lease, "released_at") == Some(Str(startedAt)))
    && (stage != 3 ==> lease == granted)
    && forall k | k != "released_at" :: Get(lease, k) == Get(granted, k)
  }

  /** The event of a stage row, compared with the event of the grant. */
  ghost predicate StageTells(p: Application, g: Event, startedAt: string, stage: nat, e: Event)
    requires stage < 4
  {
    && e.eventId == p.markId(StageName(stage), g.eventId, p.manifestSha)
    && e.eventType == StageName(stage) && e.timestamp == startedAt
    && e.goalId == g.goalId && e.checkpointId == g.checkpointId && e.taskId == g.taskId
    && e.assignmentId == g.assignmentId && e.envelopeSha == g.envelopeSha && e.configSha == g.configSha
    && e.boardSha == g.boardSha && e.route == g.route
    && AccountingTells(p, g.accounting, e.accounting, stage)
    && EvidenceTells(p, g.evidence, e.evidence, stage)
    && LeaseTells(g.lease, e.lease, startedAt, stage)
  }

  lemma AccountingIs(p: Application, g: Event, stage: nat)
    ensures AccountingTells(p, g.accounting, StageAccounting(p, g, stage), stage)
  {
    hide Get, Put;
    var status := Str(if stage == 0 then "accounted" else "unknown");
    var scope := Str("orcastrata_admitted_executions");
    var tokens := Put(g.accounting, "observed_tokens", p.tokens);
    var cost := Put(tokens, "observed_cost", p.cost);
    var accounted := Put(cost, "accounting_status", status);
    var scoped := Put(accounted, "accounting_scope", scope);
    PutReads(g.accounting, "observed_tokens", p.tokens);
    PutReads(tokens, "observed_cost", p.cost);
    PutReads(cost, "accounting_status", status);
    PutReads(accounted, "accounting_scope", scope);
    PutReads(scoped, "accounting_method", Str(if stage == 0 then "managed_ledger_append" else "not_applicable"));
    assert |"observed_tokens"| == 15 && |"observed_cost"| == 13 && |"accounting_status"| == 17;
    assert |"accounting_scope"| == 16 && |"accounting_method"| == 17;
    assert "accounting_status"[11] == 's' && "accounting_method"[11] == 'm';
  }

  lemma EvidenceShape(p: Application, g: Event, stage: nat)
    ensures var ids := BundleIds(p);
      StageEvidence(p, g, stage, ids) == if stage == 2
        then Put(BaseEvidence(p, g), "supervisor_event_ids",
          Arr(seq(|ids|, i requires 0 <= i < |ids| => Str(ids[i]))))
        else BaseEvidence(p, g)
  {
    hide Put;
  }

  lemma EvidenceIs(p: Application, g: Event, stage: nat)
    ensures EvidenceTells(p, g.evidence, StageEvidence(p, g, stage, BundleIds(p)), stage)
  {
    hide Get, Put, StageEvidence, BaseEvidence;
    var ids := BundleIds(p);
    var all := BaseEvidence(p, g);
    var items := seq(|ids|, i requires 0 <= i < |ids| => Str(ids[i]));
    BaseEvidenceIs(p, g);
    EvidenceKeysDiffer();
    PutReads(all, "supervisor_event_ids", Arr(items));
    EvidenceShape(p, g, stage);
    if stage == 2 {
      assert Get(StageEvidence(p, g, stage, ids), "supervisor_event_ids") == Some(Arr(items));
    }
  }

  /** The evidence every row has. */
  function BaseEvidence(p: Application, g: Event): seq<Member> {
    StageEvidence(p, g, 0, [])
  }

  lemma BaseEvidenceIs(p: Application, g: Event)
    ensures var all := BaseEvidence(p, g);
      && Get(all, "work_status") == Some(Str(p.workStatus))
      && Get(all, "execution_owner") == Some(Str("orcastrata_managed"))
      && Get(all, "dispatch_return_manifest_sha256") == Some(Str(p.returnSha))
      && Get(all, "quality_receipt_sha256") == Some(Str(p.qualitySha))
      && Get(all, "schedule_manifest_sha256") == Some(Str(p.manifestSha))
      && Get(all, "quality_receipt_self_sha256") == Some(Str(p.qualitySelfSha))
      && forall k | k !in EVIDENCE_KEYS :: Get(all, k) == Get(g.evidence, k)
  {
    hide Get, Put;
    var status := Put(g.evidence, "work_status", Str(p.workStatus));
    var work := Put(status, "execution_owner", Str("orcastrata_managed"));
    var returned := Put(work, "dispatch_return_manifest_sha256", Str(p.returnSha));
    var quality := Put(returned, "quality_receipt_sha256", Str(p.qualitySha));
    var manifest := Put(quality, "schedule_manifest_sha256", Str(p.manifestSha));
    PutReads(g.evidence, "work_status", Str(p.workStatus));
    PutReads(status, "execution_owner", Str("orcastrata_managed"));
    PutReads(work, "dispatch_return_manifest_sha256", Str(p.returnSha));
    PutReads(returned, "quality_receipt_sha256", Str(p.qualitySha));
    PutReads(quality, "schedule_manifest_sha256", Str(p.manifestSha));
    PutReads(manifest, "quality_receipt_self_sha256", Str(p.qualitySelfSha));
    EvidenceKeysDiffer();
  }

  lemma EvidenceKeysDiffer()
    ensures |"work_status"| == 11 && |"execution_owner"| == 15 && |"dispatch_return_manifest_sha256"| == 31
    ensures |"quality_receipt_sha256"| == 22 && |"schedule_manifest_sha256"| == 24
    ensures |"quality_receipt_self_sha256"| == 27 && |"supervisor_event_ids"| == 20
  {}

  /** What the application writes for a stage tells what it should. */
  lemma StageEventTells(p: Application, grant: Record, startedAt: string, stage: nat)
    requires stage < 4
    ensures StageTells(p, grant.Event(), startedAt, stage, StageEvent(p, grant, stage, startedAt, BundleIds(p)))
  {
    hide Get, Put, AccountingTells, EvidenceTells;
    var g := grant.Event();
    AccountingIs(p, g, stage);
    EvidenceIs(p, g, stage);
    PutReads(g.lease, "released_at", Str(startedAt));
  }

  // ---------------------------------------------------------------- what the files say

  /** The row the lease was granted by. */
  ghost predicate GrantIn(p: Application, rows: seq<Record>) {
    1 <= p.grantAt <= |rows|
  }

  /** Row `stage` behind the first `n` is chained to the one before and sealed, and says what it should. */
  ghost predicate RowTells(p: Application, g: Event, startedAt: string, stage: nat, rows: seq<Record>, n: nat)
    requires stage < 4 && 0 < n && n + stage < |rows|
  {
    var k := n + stage;
    && rows[k].body.sequence == k + 1 && rows[k].body.previous == rows[k - 1].eventHash
    && rows[k].eventHash == p.hash(rows[k].body)
    && StageTells(p, g, startedAt, stage, rows[k].Event())
  }

  /** Four sealed rows on top of the ledger as it was. */
  ghost predicate LedgerTells(p: Application, start: seq<Record>, startedAt: string, rows: seq<Record>)
    requires GrantIn(p, start)
  {
    var n, g := |start|, start[p.grantAt - 1].Event();
    && |rows| == n + 4 && rows[..n] == start
    && forall i: nat | i < 4 :: RowTells(p, g, startedAt, i, rows, n)
  }

  /** One event of the bundle: what the transition makes of the state before is in the record and the state after. */
  ghost predicate EventTells(p: Application, log: seq<LogRecord>, n: nat, states: seq<Runtime>, i: nat)
    requires i < |p.events| < |states| && n + i < |log|
  {
    var r, sequence, before, after := log[n + i], n + i + 1, states[i], states[i + 1];
    && r.body == LogBody(p.events[i], sequence, LogHead(log[..n + i]), r.body.payload)
    && r.eventHash == p.logHash(r.body)
    && p.transition(before, p.events[i]) == Some((after.content, r.body.payload))
    && after.sequence == sequence && after.lastHash == r.eventHash && after.lastId == Some(p.events[i].eventId)
  }

  /** The bundle's events, in order, on top of the log as it was, and the state they lead to. */
  ghost predicate SupervisorTells(p: Application, start: Disk, d: Disk) {
    var n := |start.log|;
    && |d.log| == n + |p.events| && d.log[..n] == start.log
    && exists states: seq<Runtime> ::
         && |states| == |p.events| + 1 && states[0] == start.state && states[|p.events|] == d.state
         && forall i: nat | i < |p.events| :: EventTells(p, d.log, n, states, i)
  }

  /** The files of a finished application. */
  ghost predicate Tells(p: Application, start: Disk, startedAt: string, d: Disk) {
    && SupervisorTells(p, start, d)
    && (p.variant == Role(false) ==> d.ledger == start.ledger)
    && (p.variant != Role(false) ==> GrantIn(p, start.ledger) && LedgerTells(p, start.ledger, startedAt, d.ledger))
  }

  lemma GrantOf(p: Application, rows: seq<Record>)
    requires p.StageCount() == 4 && Admit(p, rows).Ok?
    ensures GrantIn(p, rows) && Admit(p, rows).value == Some(rows[p.grantAt - 1])
  {
    hide Admit, LeaseUsable;
    AdmitParts(p, rows);
  }

  lemma StampedTells(p: Application, start: Disk, startedAt: string)
    requires p.StageCount() == 4 && Admit(p, start.ledger).Ok?
    ensures GrantIn(p, start.ledger) && LedgerTells(p, start.ledger, startedAt, Stamped(p, start, startedAt, 4))
  {
    hide Admit, StageEvent, StageTells;
    var n, rows := |start.ledger|, Stamped(p, start, startedAt, 4);
    GrantOf(p, start.ledger);
    var grant := start.ledger[p.grantAt - 1];
    StampedRow(p, start, startedAt, 4, 0);
    forall i: nat | i < 4 ensures RowTells(p, grant.Event(), startedAt, i, rows, n) {
      StampedRow(p, start, startedAt, 4, i);
      assert rows[n + i - 1] == rows[..n + i][n + i - 1];
      StageEventTells(p, grant, startedAt, i);
    }
  }

  lemma PreparedTells(p: Application, start: Disk, d: Disk)
    requires Prepare(p, start.state, |p.events|).Some? && CursorOk(start.log, start.state)
    requires forall i | 0 <= i < |p.events| :: Trimmed(p.events[i]) == p.events[i]
    requires var (records, states) := Prepare(p, start.state, |p.events|).value;
      d.log == start.log + records && states != [] && d.state == states[|states| - 1]
    ensures SupervisorTells(p, start, d)
  {
    hide Prepare, Trimmed, LogHead, Advance, EventTells;
    var (records, states) := Prepare(p, start.state, |p.events|).value;
    PrepareMeaning(p, start.state, |p.events|);
    var n := |start.log|;
    forall i: nat | i < |p.events| ensures EventTells(p, d.log, n, states, i) {
      OneEventTells(p, start, d.log, records, states, i);
    }
  }

  lemma OneEventTells(p: Application, start: Disk, log: seq<LogRecord>, records: seq<LogRecord>, states: seq<Runtime>,
    i: nat)
    requires Projection(p, records, states, |p.events|) && states[0] == start.state && i < |p.events|
    requires CursorOk(start.log, start.state) && log == start.log + records
    requires Trimmed(p.events[i]) == p.events[i]
    ensures EventTells(p, log, |start.log|, states, i)
  {
    hide Trimmed, LogHead, Projection;
    var n := |start.log|;
    ProjectionAt(p, records, states, i);
    CursorBefore(p, start, records, states, i);
    assert log[..n + i] == start.log + records[..i];
    assert log[n + i] == records[i];
  }

  lemma ProjectionAt(p: Application, records: seq<LogRecord>, states: seq<Runtime>, i: nat)
    requires Projection(p, records, states, |p.events|) && i < |p.events|
    ensures |records| == |p.events| && |states| == |p.events| + 1
    ensures Advance(p, states[i], p.events[i]) == Some((records[i], states[i + 1]))
  {
    hide Advance;
  }

  /** Before each event the state's cursor is the end of the log. */
  lemma {:induction false} CursorBefore(p: Application, start: Disk, records: seq<LogRecord>, states: seq<Runtime>,
    i: nat)
    requires Projection(p, records, states, |p.events|) && states[0] == start.state && i <= |p.events|
    requires CursorOk(start.log, start.state)
    ensures states[i].sequence == |start.log| + i && states[i].lastHash == LogHead(start.log + records[..i])
  {
    if i == 0 {
      assert start.log + records[..0] == start.log;
    } else {
      CursorBefore(p, start, records, states, i - 1);
      var log := start.log + records[..i];
      assert log[|log| - 1] == records[i - 1];
      assert Advance(p, states[i - 1], p.events[i - 1]) == Some((records[i - 1], states[i]));
      HeadOfLog(log);
    }
  }

  /**
   What a completed application leaves, however often it was interrupted, under the clock of the first attempt that got
   to write.
   */
  lemma OutcomeTells(p: Application, start: Disk, attempts: seq<Attempt>)
    requires ApplicationValid(p) && Fresh(p, start) && attempts != []
    requires Runs(Applying(p), start, attempts).1.Completed?
    ensures exists i: nat | FirstWriter(attempts, i) ::
      Tells(p, start, attempts[i].now, Runs(Applying(p), start, attempts).0)
  {
    hide Runs, Run, ApplicationValid, Fresh, Final, WritesOf, Next, Tells, StagesClear;
    UniqueOutcome(p, start, attempts);
    var k := CrashConvergence(p, start, attempts);
    CompletedWasClear(p, attempts[k].now, start, WritesOf(attempts));
    var i: nat :| FirstWriter(attempts, i) &&
      LeavesFinal(p, start, attempts[i].now, Runs(Applying(p), start, attempts).0,
        Runs(Applying(p), start, attempts).1);
    FinalTells(p, start, attempts[i].now);
  }

  lemma FinalTells(p: Application, start: Disk, startedAt: string)
    requires p.events != [] && Prepare(p, start.state, |p.events|).Some? && StartClear(p, start)
    requires p.StageCount() == 4 ==> Admit(p, start.ledger).Ok?
    ensures Tells(p, start, startedAt, Final(p, start, startedAt))
  {
    hide Admit, Prepare, LedgerTells, SupervisorTells, Stamped, MayBegin, LogOk, CursorOk, Trimmed;
    var d := Final(p, start, startedAt);
    PrepareMeaning(p, start.state, |p.events|);
    PreparedTells(p, start, d);
    if p.StageCount() == 4 {
      StampedTells(p, start, startedAt);
    } else {
      NothingStamped(p, start, startedAt);
    }
  }

  lemma NothingStamped(p: Application, start: Disk, startedAt: string)
    requires p.StageCount() == 0
    ensures Stamped(p, start, startedAt, 0) == start.ledger
  {}

  /** The same of a run of the program on the files. */
  lemma ProgramTells(p: Application, now: string, first: Disk, writes: nat, d: Disk, res: Outcome<Receipt, AppError>)
    requires ApplicationValid(p) && Fresh(p, first) && S.Applies(p, now, first, writes, d, res) && res.Completed?
    ensures Tells(p, first, now, d) && d.receipt == Some(res.receipt)
  {
    hide Run, ApplicationValid, Fresh, Final, Next, Tells, StartClear, StagesClear;
    FreshShape(p, first);
    CompletedWasClear(p, now, first, writes);
    assert StartClear(p, first);
    StartExact(p, first, now);
    var last := RunExact(p, now, first, first, Idle, now, writes);
    FinalIs(p, first, d, last, now);
    assert StartClear(p, first) ==> Prepare(p, first.state, |p.events|).Some? by { ClearPrepares(p, first); }
    FinalTells(p, first, now);
  }

  lemma ClearPrepares(p: Application, start: Disk)
    ensures StartClear(p, start) ==> Prepare(p, start.state, |p.events|).Some?
  {
    hide Prepare, MayBegin, LogOk, CursorOk, EventsClear;
  }

  /** With rows of other leases in between the four rows say the same. */
  ghost predicate RowsTell(p: Application, start: Disk, d: Disk) {
    && GrantIn(p, start.ledger) && d.recovery.Some?
    && var g, startedAt := start.ledger[p.grantAt - 1].Event(), d.recovery.value.startedAt;
       forall i: nat | i < 4 ::
         RowOf(p, d, i).Some? && StageTells(p, g, startedAt, i, RowOf(p, d, i).value.Event())
  }

  lemma OutcomeTellsAmidOthers(p: Application, disks: seq<Disk>, now: string)
    requires ApplicationValid(p) && Reachable(p, disks) && Next(p, now, disks[|disks| - 1]).Done?
    requires p.StageCount() == 4
    ensures RowsTell(p, disks[0], disks[|disks| - 1])
  {
    hide Next, ApplicationValid, Admit, StageEvent, StageTells, RowOf, Fresh, Follows, Trimmed;
    var start, d := disks[0], disks[|disks| - 1];
    OutcomeAmidOthers(p, disks, now);
    GrantOf(p, start.ledger);
    forall i: nat | i < 4
      ensures RowOf(p, d, i).Some?
      ensures StageTells(p, start.ledger[p.grantAt - 1].Event(), d.recovery.value.startedAt, i,
        RowOf(p, d, i).value.Event())
    {
      StageEventTells(p, start.ledger[p.grantAt - 1], d.recovery.value.startedAt, i);
    }
  }

  // ---------------------------------------------------------------- when it may run

  predicate OfThisLease(p: Application, r: Record) {
    Get(r.Event().lease, "lease_id") == Some(Str(p.leaseId))
  }

  /** No row of this lease has this type. */
  ghost predicate NoneOf(p: Application, rows: seq<Record>, eventType: string) {
    forall r | r in rows && OfThisLease(p, r) :: r.Type() != eventType
  }

  /** The lease has one release row, and it was written for this very manifest. */
  ghost predicate ReleasedByThis(p: Application, rows: seq<Record>) {
    exists i: nat | i < |rows| && Releases(p, rows[i]) ::
      && Get(rows[i].Event().evidence, "schedule_manifest_sha256") == Some(Str(p.manifestSha))
      && forall j | 0 <= j < |rows| && Releases(p, rows[j]) :: j == i
  }

  predicate Releases(p: Application, r: Record) {
    OfThisLease(p, r) && r.Type() == "lease_released"
  }

  /** The lease is active, under the fence it was granted with. */
  ghost predicate HeldUnderFence(p: Application, rows: seq<Record>) {
    exists i: nat ::
      && LatestLiveGrant(rows, p.leaseId, i)
      && Get(rows[i].Event().lease, "fencing_token") == Get(p.lease, "fencing_token")
  }

  /** A verified ledger in which the grant stands where the manifest says and the lease may still be used. */
  ghost predicate Admissible(p: Application, rows: seq<Record>) {
    WellChained(p.hash, rows) && GrantStands(p, rows) && LeaseInForce(p, rows)
  }

  lemma {:induction false} MatchingNone(p: Application, rows: seq<Record>, eventType: string)
    ensures Matching(p, rows, eventType) == [] <==> NoneOf(p, rows, eventType)
  {
    if rows != [] {
      var n := |rows| - 1;
      MatchingNone(p, rows[..n], eventType);
      assert rows == rows[..n] + [rows[n]];
    }
  }

  lemma {:induction false} MatchingOne(p: Application, rows: seq<Record>, eventType: string, i: nat)
    requires i < |rows| && OfThisLease(p, rows[i]) && rows[i].Type() == eventType
    requires forall j | 0 <= j < |rows| && OfThisLease(p, rows[j]) && rows[j].Type() == eventType :: j == i
    ensures Matching(p, rows, eventType) == [rows[i]]
  {
    var n := |rows| - 1;
    if i == n {
      MatchingNone(p, rows[..n], eventType);
    } else {
      assert forall j | 0 <= j < n :: rows[..n][j] == rows[j];
      MatchingOne(p, rows[..n], eventType, i);
    }
  }

  lemma {:induction false} MatchingHas(p: Application, rows: seq<Record>, eventType: string) returns (i: nat)
    requires |Matching(p, rows, eventType)| == 1
    ensures i < |rows| && OfThisLease(p, rows[i]) && rows[i].Type() == eventType
    ensures Matching(p, rows, eventType) == [rows[i]]
    ensures forall j | 0 <= j < |rows| && OfThisLease(p, rows[j]) && rows[j].Type() == eventType :: j == i
  {
    var n := |rows| - 1;
    if Mine(p, rows[n], eventType) {
      i := n;
      assert Matching(p, rows[..n], eventType) == [];
      MatchingNone(p, rows[..n], eventType);
      forall j | 0 <= j < n ensures !(OfThisLease(p, rows[j]) && rows[j].Type() == eventType) {
        assert rows[..n][j] in rows[..n];
      }
    } else {
      i := MatchingHas(p, rows[..n], eventType);
      forall j | 0 <= j < |rows| && OfThisLease(p, rows[j]) && rows[j].Type() == eventType ensures j == i {
        assert j < n && rows[..n][j] == rows[j];
      }
    }
  }

  ghost predicate GrantStands(p: Application, rows: seq<Record>) {
    && GrantIn(p, rows)
    && rows[p.grantAt - 1].body.previous == p.headBefore && rows[p.grantAt - 1].eventHash == p.headAfter
    && rows[p.grantAt - 1].Type() == "lease_granted" && rows[p.grantAt - 1].Event().lease == p.lease
    && p.bindsGrant(rows[p.grantAt - 1].Event())
  }

  lemma GrantExactly(p: Application, rows: seq<Record>)
    requires WellChained(p.hash, rows)
    ensures FindGrant(p, rows).Ok? <==> GrantStands(p, rows)
  {
    hide WellChained;
    if GrantIn(p, rows) {
      PreviousIs(p, rows);
    }
  }

  ghost predicate LeaseInForce(p: Application, rows: seq<Record>) {
    && NoneOf(p, rows, "execution_unknown") && NoneOf(p, rows, "lease_expired") && NoneOf(p, rows, "lease_recovered")
    && (ReleasedByThis(p, rows) || (NoneOf(p, rows, "lease_released") && HeldUnderFence(p, rows)))
  }

  lemma UsableExactly(p: Application, rows: seq<Record>)
    ensures LeaseUsable(p, rows).Ok? <==> LeaseInForce(p, rows)
  {
    hide Matching, NoneOf, ActiveLease, ReleasedByThis, HeldUnderFence, Manifested, Get;
    MatchingNone(p, rows, "execution_unknown");
    MatchingNone(p, rows, "lease_expired");
    MatchingNone(p, rows, "lease_recovered");
    MatchingNone(p, rows, "lease_released");
    ReleasedMeans(p, rows);
    FenceMeans(p, rows);
  }

  /** `_verify_ledger` admits exactly the admissible ledgers. */
  lemma AdmitsExactly(p: Application, rows: seq<Record>)
    requires p.StageCount() == 4
    ensures Admit(p, rows).Ok? <==> Admissible(p, rows)
  {
    hide Admit, WellChained, FindGrant, LeaseUsable, GrantStands, LeaseInForce;
    AdmitParts(p, rows);
    UsableExactly(p, rows);
    if WellChained(p.hash, rows) {
      GrantExactly(p, rows);
    }
  }

  lemma PreviousIs(p: Application, rows: seq<Record>)
    requires WellChained(p.hash, rows) && GrantIn(p, rows)
    ensures rows[p.grantAt - 1].body.previous
      == if p.grantAt == 1 then ZERO_HASH else rows[p.grantAt - 2].eventHash
  {
    assert Linked(p.hash, rows, p.grantAt - 1);
  }

  lemma ReleasedMeans(p: Application, rows: seq<Record>)
    ensures var released := Matching(p, rows, "lease_released");
      ReleasedByThis(p, rows) <==> |released| == 1 && Manifested(p, released[0])
  {
    hide Matching;
    if ReleasedByThis(p, rows) {
      var i: nat :| i < |rows| && Releases(p, rows[i])
        && Get(rows[i].Event().evidence, "schedule_manifest_sha256") == Some(Str(p.manifestSha))
        && forall j | 0 <= j < |rows| && Releases(p, rows[j]) :: j == i;
      MatchingOne(p, rows, "lease_released", i);
    }
    if |Matching(p, rows, "lease_released")| == 1 {
      var i := MatchingHas(p, rows, "lease_released");
    }
  }

  lemma LiveGrantStands(rows: seq<Record>, id: string)
    ensures forall i: nat | LatestLiveGrant(rows, id, i) :: i < |rows|
  {}

  lemma FenceMeans(p: Application, rows: seq<Record>)
    ensures var active := ActiveLease(rows, p.leaseId);
      HeldUnderFence(p, rows) <==>
        active.Some? && Get(active.value.Event().lease, "fencing_token") == Get(p.lease, "fencing_token")
  {
    hide ActiveLease, LatestLiveGrant, Get;
    var active := ActiveLease(rows, p.leaseId);
    LiveGrantStands(rows, p.leaseId);
    forall i: nat | LatestLiveGrant(rows, p.leaseId, i) ensures active == Some(rows[i]) {
      ActiveLeaseMeaning(rows, p.leaseId, rows[i]);
    }
    if active.Some? {
      ActiveLeaseMeaning(rows, p.leaseId, active.value);
    }
  }

  /** The record an event makes of a state, and the state after it. */
  ghost predicate Advances(p: Application, before: Runtime, e: SupervisorEvent, r: LogRecord, after: Runtime) {
    && r.body == LogBody(e, before.sequence + 1, before.lastHash, r.body.payload)
    && r.eventHash == p.logHash(r.body)
    && p.transition(before, Trimmed(e)) == Some((after.content, r.body.payload))
    && after == Runtime(before.sequence + 1, r.eventHash, Some(e.eventId), after.content)
  }

  /** The first `n` events of the bundle carried out in thought. */
  ghost predicate Projects(p: Application, start: Runtime, records: seq<LogRecord>, states: seq<Runtime>, n: nat)
    requires n <= |p.events|
  {
    && |records| == n && |states| == n + 1 && states[0] == start
    && forall i | 0 <= i < n :: Advances(p, states[i], p.events[i], records[i], states[i + 1])
  }

  lemma AdvanceIs(p: Application, before: Runtime, e: SupervisorEvent, r: LogRecord, after: Runtime)
    ensures Advance(p, before, e) == Some((r, after)) <==> Advances(p, before, e, r, after)
  {
    hide Trimmed;
  }

  /** `_prepare_supervisor_recovery` finds exactly the projection. */
  lemma {:induction false} PrepareExactly(p: Application, start: Runtime, records: seq<LogRecord>, states: seq<Runtime>,
    n: nat)
    requires n <= |p.events|
    ensures Prepare(p, start, n) == Some((records, states)) <==> Projects(p, start, records, states, n)
  {
    hide Advance, Advances;
    if n == 0 {
      assert Projects(p, start, records, states, 0) ==> states == [start];
    } else {
      if Projects(p, start, records, states, n) {
        PrepareExactly(p, start, records[..n - 1], states[..n], n - 1);
        AdvanceIs(p, states[n - 1], p.events[n - 1], records[n - 1], states[n]);
        assert records == records[..n - 1] + [records[n - 1]] && states == states[..n] + [states[n]];
      }
      if Prepare(p, start, n) == Some((records, states)) {
        PrepareMeaning(p, start, n);
        forall i | 0 <= i < n ensures Advances(p, states[i], p.events[i], records[i], states[i + 1]) {
          AdvanceIs(p, states[i], p.events[i], records[i], states[i + 1]);
        }
      }
    }
  }

  ghost predicate Accepts(p: Application, start: Runtime) {
    exists records, states :: Projects(p, start, records, states, |p.events|)
  }

  lemma AcceptsIs(p: Application, start: Runtime)
    ensures Prepare(p, start, |p.events|).Some? <==> Accepts(p, start)
  {
    hide Prepare, Projects;
    if Accepts(p, start) {
      var records, states :| Projects(p, start, records, states, |p.events|);
      PrepareExactly(p, start, records, states, |p.events|);
    }
    if Prepare(p, start, |p.events|).Some? {
      var (records, states) := Prepare(p, start, |p.events|).value;
      PrepareExactly(p, start, records, states, |p.events|);
    }
  }

  /** Another application's record, or one whose projection does not come out again, is refused; every other is not. */
  lemma RecoveryAccepted(p: Application, rec: Recovery)
    requires p.events != []
    ensures CheckRecovery(p, rec).Ok? <==>
      && rec.applicationId == p.applicationId && |rec.stageSequences| == 4
      && rec.snapshots != [] && Projects(p, rec.snapshots[0], rec.expected, rec.snapshots, |p.events|)
  {
    hide Prepare, Advances;
    if rec.snapshots != [] {
      PrepareExactly(p, rec.snapshots[0], rec.expected, rec.snapshots, |p.events|);
    }
  }

  /** Everything a first run asks for before it writes. */
  ghost predicate Startable(p: Application, d: Disk) {
    && (p.variant != Role(false) ==> d.readable && Admissible(p, d.ledger))
    && LogOk(p, d.log) && p.bindsState(d.state) && Accepts(p, d.state)
    && (p.variant.Scheduled? ==>
          && d.receipt.None? && CursorOk(d.log, d.state)
          && forall i: nat | i < 4 :: NoneOf(p, d.ledger, StageName(i)))
  }

  /** Without a recovery record a run writes one exactly then, and nothing else. */
  lemma BeginsExactly(p: Application, now: string, d: Disk)
    requires d.recovery.None?
    ensures Next(p, now, d).Write? <==> Startable(p, d)
    ensures Next(p, now, d).Write? ==>
      && Next(p, now, d).disk.recovery.Some? && Next(p, now, d).disk == d.(recovery := Next(p, now, d).disk.recovery)
      && var rec := Next(p, now, d).disk.recovery.value;
         && rec.applicationId == p.applicationId && rec.startedAt == now && rec.sequenceBefore == |d.log|
         && Projects(p, d.state, rec.expected, rec.snapshots, |p.events|)
         && rec.eventCount == 0 && rec.stageSequences == [None, None, None, None] && !rec.receiptCreated
  {
    hide Admissible, Admit, LogOk, CursorOk, Prepare, Accepts, Projects, NoneOf, StageRow;
    AcceptsIs(p, d.state);
    if p.StageCount() == 4 {
      AdmitsExactly(p, d.ledger);
    } else {
      NothingToAdmit(p, d.ledger);
    }
    NoStageRowsIs(p, d.ledger, 0);
    if Prepare(p, d.state, |p.events|).Some? {
      var (records, states) := Prepare(p, d.state, |p.events|).value;
      PrepareExactly(p, d.state, records, states, |p.events|);
    }
  }

  lemma NothingToAdmit(p: Application, rows: seq<Record>)
    requires p.StageCount() == 0
    ensures Admit(p, rows) == Ok(None)
  {}

  lemma {:induction false} NoStageRowsIs(p: Application, rows: seq<Record>, stage: nat)
    requires stage <= 4
    ensures NoStageRows(p, rows, stage).Ok? <==> forall i: nat | stage <= i < 4 :: NoneOf(p, rows, StageName(i))
    decreases 4 - stage
  {
    hide NoneOf, Matching;
    if stage < 4 {
      MatchingNone(p, rows, StageName(stage));
      NoStageRowsIs(p, rows, stage + 1);
    }
  }

  /** No blank at either end. */
  predicate Edged(s: string) {
    s == "" || (!IsSpace(s[0]) && !IsSpace(s[|s| - 1]))
  }

  lemma EdgedExactly(s: string)
    ensures Strip(s) == s <==> Edged(s)
  {
    var front, back := StripExactly(s);
  }

  /** The file step leaves an event as it is exactly if none of its four texts has a blank at either end. */
  lemma TrimmedExactly(e: SupervisorEvent)
    ensures Trimmed(e) == e <==> Edged(e.eventId) && Edged(e.timestamp) && Edged(e.eventType) && Edged(e.laneId)
  {
    hide Strip;
    EdgedExactly(e.eventId);
    EdgedExactly(e.timestamp);
    EdgedExactly(e.eventType);
    EdgedExactly(e.laneId);
  }
}
