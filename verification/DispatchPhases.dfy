/**
 What every crash leaves behind. The disks an application can leave form a line of phases, and whatever a run does next
 on one of them is the one durable write that leads to the next phase.
 */
module DispatchPhases {
  import opened Common
  import opened JsonText
  import opened Ledger
  import opened LedgerFile
  import opened LedgerReplay
  import opened Resumption
  import opened DispatchApplication
  import opened DispatchRows

  // ---------------------------------------------------------------- phases

  /** How far an application got. */
  datatype Phase =
    | Idle
    | Active(logged: nat, stale: bool, counted: nat, marked: nat, recorded: nat, receipted: bool, closed: bool)

  /** The phase after the next durable write. */
  function Succ(p: Application, ph: Phase): Option<Phase> {
    if ph.Idle? then Some(Active(0, false, 0, 0, 0, false, false))
    else if ph.stale then Some(ph.(stale := false))
    else if ph.counted != ph.logged then Some(ph.(counted := ph.logged))
    else if ph.logged < |p.events| then Some(ph.(logged := ph.logged + 1, stale := true))
    else if ph.recorded < ph.marked then Some(ph.(recorded := ph.recorded + 1))
    else if ph.marked < p.StageCount() then Some(ph.(marked := ph.marked + 1))
    else if !ph.receipted then Some(ph.(receipted := true))
    else if !ph.closed then Some(ph.(closed := true))
    else None
  }

  /** The phases a run passes: Supervisor records first, then stage rows one by one, then the receipt. */
  predicate Sound(p: Application, ph: Phase) {
    ph.Idle? ||
    (&& ph.logged <= |p.events| && ph.marked <= p.StageCount()
     && ph.counted <= ph.logged <= ph.counted + 1 && (ph.stale ==> ph.logged == ph.counted + 1)
     && ph.recorded <= ph.marked <= ph.recorded + 1
     && (ph.marked > 0 || ph.receipted ==> ph.counted == |p.events|)
     && (ph.receipted ==> ph.recorded == p.StageCount())
     && (ph.closed ==> ph.receipted))
  }

  /** The recovery record was made from this starting disk. */
  ghost predicate FromStart(p: Application, start: Disk, rec: Recovery) {
    && CheckRecovery(p, rec).Ok? && |rec.expected| == |p.events|
    && rec.snapshots[0] == start.state
    && rec.sequenceBefore == |start.log| && rec.headBefore == LogHead(start.log)
    && (p.variant.Scheduled? ==> CursorOk(start.log, start.state))
  }

  ghost predicate SupervisorAt(p: Application, start: Disk, d: Disk, rec: Recovery, ph: Phase)
    requires ph.Active? && Sound(p, ph) && FromStart(p, start, rec)
  {
    && LogOk(p, d.log)
    && d.log == start.log + rec.expected[..ph.logged]
    && d.state == rec.snapshots[if ph.stale then ph.logged - 1 else ph.logged]
    && rec.eventCount == ph.counted
    && forall i | 0 <= i < ph.logged :: Trimmed(p.events[i]) == p.events[i]
  }

  ghost predicate StagesAt(rec: Recovery, marks: seq<Record>, recorded: nat)
    requires |rec.stageSequences| == 4
  {
    forall i | 0 <= i < 4 ::
      rec.stageSequences[i] == if i < recorded && i < |marks| then Some(marks[i].Sequence()) else None
  }

  /** What the recovery record says of the phase. */
  function StatusAt(p: Application, ph: Phase): Status
    requires ph.Active?
  {
    if ph.closed then Receipted
    else if ph.recorded == 4 then LeaseReleased
    else if ph.recorded > 0 then LedgerFinalizing
    else if ph.counted == |p.events| then SupervisorApplied
    else if ph.counted > 0 then SupervisorApplying
    else Prepared
  }

  ghost predicate ReceiptAt(p: Application, d: Disk, rec: Recovery, ph: Phase)
    requires ph.Active? && rec.expected != []
  {
    && d.receipt == (if ph.receipted then Some(Summary(p, d.ledger, rec)) else None)
    && rec.receiptCreated == ph.closed && rec.status == StatusAt(p, ph)
  }

  /** The disk in a phase. */
  ghost predicate At(p: Application, start: Disk, d: Disk, ph: Phase) {
    var marks := MarksOf(p, start.ledger, d.ledger);
    && Sound(p, ph)
    && RowsAt(p, start.ledger, d.ledger, d.recovery, marks)
    && if ph.Idle? then marks == [] && d == start.(ledger := d.ledger, readable := d.readable) && d.recovery.None? else
       && d.recovery.Some?
       && FromStart(p, start, d.recovery.value)
       && SupervisorAt(p, start, d, d.recovery.value, ph)
       && |marks| == ph.marked
       && StagesAt(d.recovery.value, marks, ph.recorded)
       && ReceiptAt(p, d, d.recovery.value, ph)
  }

  lemma ProjectionOf(p: Application, rec: Recovery)
    requires CheckRecovery(p, rec).Ok?
    ensures Projection(p, rec.expected, rec.snapshots, |p.events|)
  {
    PrepareMeaning(p, rec.snapshots[0], |p.events|);
  }

  lemma RecoveryShape(p: Application, rec: Recovery)
    requires CheckRecovery(p, rec).Ok?
    ensures rec.expected != [] && |rec.stageSequences| == 4 && |rec.snapshots| == |rec.expected| + 1
  {}

  // ---------------------------------------------------------------- the Supervisor part

  lemma {:induction false} SnapshotSequence(p: Application, records: seq<LogRecord>, states: seq<Runtime>, n: nat,
    i: nat)
    requires n <= |p.events| && Projection(p, records, states, n) && i <= n
    ensures states[i].sequence == states[0].sequence + i
  {
    if i > 0 {
      SnapshotSequence(p, records, states, n, i - 1);
      assert Advance(p, states[i - 1], p.events[i - 1]) == Some((records[i - 1], states[i]));
    }
  }

  lemma SuffixOf(start: seq<LogRecord>, more: seq<LogRecord>)
    ensures (start + more)[|start|..] == more && (start + more)[..|start|] == start
  {}

  /** Reconciliation accepts the disk of every phase and reads its position back. */
  lemma ReconcileAt(p: Application, start: Disk, d: Disk, rec: Recovery, ph: Phase)
    requires ph.Active? && Sound(p, ph) && FromStart(p, start, rec) && SupervisorAt(p, start, d, rec, ph)
    ensures Reconcile(p, d, rec) == Ok((ph.logged, ph.stale))
  {
    ProjectionOf(p, rec);
    SuffixOf(start.log, rec.expected[..ph.logged]);
    if ph.stale {
      SnapshotSequence(p, rec.expected, rec.snapshots, |p.events|, ph.logged - 1);
      SnapshotSequence(p, rec.expected, rec.snapshots, |p.events|, ph.logged);
    }
  }

  /** The cursor check after reconciliation is implied as soon as one event is logged, and by the first check before. */
  lemma CursorAt(p: Application, start: Disk, d: Disk, rec: Recovery, ph: Phase)
    requires ph.Active? && Sound(p, ph) && FromStart(p, start, rec) && SupervisorAt(p, start, d, rec, ph) && !ph.stale
    ensures CursorOk(d.log, d.state) <==> ph.logged > 0 || CursorOk(start.log, start.state)
  {
    hide InLog, CheckRecovery, Trimmed;
    var k := ph.logged;
    if k > 0 {
      ExpectedNext(p, rec, k - 1);
      assert d.log[|d.log| - 1] == rec.expected[k - 1];
    } else {
      assert d.log == start.log;
    }
  }

  lemma LogGrows(p: Application, log: seq<LogRecord>, r: LogRecord)
    requires LogOk(p, log) && !InLog(log, r.Id())
    requires r.body.sequence == |log| + 1 && r.body.previous == LogHead(log) && r.eventHash == p.logHash(r.body)
    ensures LogOk(p, log + [r])
  {
    assert (log + [r])[..|log|] == log;
  }

  /**
   The file step trims the event before it applies it: the same state comes out, but the record is the trimmed event's.
   */
  lemma TrimmedAdvance(p: Application, s: Runtime, e: SupervisorEvent)
    requires Advance(p, s, e).Some?
    ensures Advance(p, s, Trimmed(e)).Some?
    ensures var (r, _), (t, _) := Advance(p, s, e).value, Advance(p, s, Trimmed(e)).value;
      && t == LogRecord(r.body.(event := Trimmed(e)), p.logHash(r.body.(event := Trimmed(e))))
      && r.body.event == e && (t == r <==> Trimmed(e) == e)
  {
    TrimmedTwice(e);
  }

  /**
   Applying the next event logs exactly the expected record and leads to exactly the next snapshot, exactly when the
   event has no blanks to trim.
   */
  lemma ApplyAt(p: Application, start: Disk, d: Disk, rec: Recovery, ph: Phase)
    requires ph.Active? && Sound(p, ph) && FromStart(p, start, rec) && SupervisorAt(p, start, d, rec, ph)
    requires !ph.stale && ph.counted == ph.logged < |p.events| && CursorOk(d.log, d.state)
    ensures Advance(p, d.state, Trimmed(p.events[ph.logged])).Some?
    ensures var e, advanced := p.events[ph.logged], Advance(p, d.state, Trimmed(p.events[ph.logged])).value;
      && rec.expected[ph.logged].Id() == e.eventId
      && (advanced == (rec.expected[ph.logged], rec.snapshots[ph.logged + 1]) <==> Trimmed(e) == e)
      && (Trimmed(e) == e && !InLog(d.log, e.eventId) ==>
            SupervisorAt(p, start, d.(log := d.log + [advanced.0]), rec, Succ(p, ph).value))
      && (Trimmed(e) != e && !InLog(d.log, Trimmed(e).eventId) ==>
            StraysAt(p, start, d.log + [advanced.0], rec, ph.logged))
  {
    hide Trimmed, LogOk, CheckRecovery;
    var e, r := p.events[ph.logged], rec.expected[ph.logged];
    ExpectedNext(p, rec, ph.logged);
    TrimmedAdvance(p, d.state, e);
    var t := Advance(p, d.state, Trimmed(e)).value.0;
    if !InLog(d.log, Trimmed(e).eventId) {
      LogGrows(p, d.log, t);
      assert start.log + rec.expected[..ph.logged] + [r] == start.log + rec.expected[..ph.logged + 1];
    }
  }

  lemma ExpectedNext(p: Application, rec: Recovery, k: nat)
    requires CheckRecovery(p, rec).Ok? && k < |p.events|
    ensures |rec.expected| == |p.events| && |rec.snapshots| == |p.events| + 1
    ensures Advance(p, rec.snapshots[k], p.events[k]) == Some((rec.expected[k], rec.snapshots[k + 1]))
  {
    ProjectionOf(p, rec);
  }

  /** The log ends in the trimmed form of the event after the first `k`, which is not the record expected there. */
  ghost predicate StraysAt(p: Application, start: Disk, log: seq<LogRecord>, rec: Recovery, k: nat)
    requires FromStart(p, start, rec)
  {
    && k < |p.events| && Trimmed(p.events[k]) != p.events[k]
    && LogOk(p, log) && |log| == |start.log| + k + 1
    && log[..|start.log|] == start.log
    && log[|start.log| + k].body.event == Trimmed(p.events[k])
  }

  /** A disk no run can finish: the log holds a record other than the expected one. */
  ghost predicate Astray(p: Application, start: Disk, d: Disk) {
    && RowsAt(p, start.ledger, d.ledger, d.recovery, [])
    && d.receipt.None? && d.recovery.Some? && FromStart(p, start, d.recovery.value)
    && exists k: nat :: StraysAt(p, start, d.log, d.recovery.value, k)
  }

  /** From there every run ends the same way, without a write. */
  lemma AstrayForever(p: Application, now: string, start: Disk, d: Disk)
    requires Fresh(p, start) && Astray(p, start, d)
    ensures Next(p, now, d) == Fail(if p.StageCount() == 4 && !d.readable then LedgerInvalid else EventSuffix)
  {
    hide Ours, Bare, Prepare, Trimmed, CheckLedger;
    var rec := d.recovery.value;
    ProjectionOf(p, rec);
    var k: nat :| StraysAt(p, start, d.log, rec, k);
    var suffix := d.log[rec.sequenceBefore..];
    assert suffix[k] == d.log[|start.log| + k];
    assert Advance(p, rec.snapshots[k], p.events[k]) == Some((rec.expected[k], rec.snapshots[k + 1]));
    assert !(suffix <= rec.expected);
  }

  // ---------------------------------------------------------------- the ledger part

  ghost predicate Finishing(p: Application, start: Disk, d: Disk, rec: Recovery, marks: seq<Record>, recorded: nat) {
    && ApplicationValid(p) && Fresh(p, start)
    && CheckRecovery(p, rec).Ok?
    && RowsAt(p, start.ledger, d.ledger, Some(rec), marks)
    && recorded <= |marks| && |marks| <= p.StageCount()
    && StagesAt(rec, marks, recorded)
  }

  lemma MarkIsEvent(p: Application, start: Disk, d: Disk, rec: Recovery, marks: seq<Record>, recorded: nat, stage: nat)
    requires Finishing(p, start, d, rec, marks, recorded) && stage < |marks|
    ensures marks[stage].Event() == NextEvent(p, start.ledger, rec, stage)
    ensures marks[stage].Event().timestamp == rec.startedAt
  {
    hide Admit, Ours, Get, Put, StageAccounting, StageEvidence, CheckRecovery, ApplicationValid, Fresh;
  }

  /** Stages that are in the ledger and in the recovery record are passed over. */
  lemma {:induction false} StagesPassed(p: Application, start: Disk, d: Disk, rec: Recovery, marks: seq<Record>,
    recorded: nat, stage: nat)
    requires Finishing(p, start, d, rec, marks, recorded) && stage <= recorded
    ensures NextStage(p, d, rec, Admit(p, start.ledger).value, stage)
      == NextStage(p, d, rec, Admit(p, start.ledger).value, recorded)
    decreases recorded - stage
  {
    hide Admit, Ours, StageRow, StageEvent, RowsAt, NextReceipt, EventOk, HasId, ApplicationValid, IsTimestamp, WithRow;
    if stage < recorded {
      StagesPassed(p, start, d, rec, marks, recorded, stage + 1);
      StageRowAt(p, start.ledger, d.ledger, Some(rec), marks, stage);
      MarkIsEvent(p, start, d, rec, marks, recorded, stage);
    }
  }

  /** Where finalization stands: a row to record, a row to append, or the receipt. */
  lemma StageAt(p: Application, start: Disk, d: Disk, rec: Recovery, marks: seq<Record>, recorded: nat)
    requires Finishing(p, start, d, rec, marks, recorded)
    ensures var step := NextStage(p, d, rec, Admit(p, start.ledger).value, 0);
      if recorded < |marks| then step == Write(d.(recovery := Some(AtStage(rec, recorded, marks[recorded].Sequence()))))
      else if recorded < p.StageCount() then
        var e := NextEvent(p, start.ledger, rec, recorded);
        step == if HasId(d.ledger, e.eventId) || !IsTimestamp(rec.startedAt) then Fail(FinalizationFailed(recorded))
                else Write(WithRow(d, Seal(p.hash, d.ledger, e)))
      else step == NextReceipt(p, d, rec)
  {
    hide Admit, Ours, StageRow, StageEvent, RowsAt, NextReceipt, EventOk, HasId, ApplicationValid, IsTimestamp, WithRow;
    StagesPassed(p, start, d, rec, marks, recorded, 0);
    if recorded < p.StageCount() {
      StageRowAt(p, start.ledger, d.ledger, Some(rec), marks, recorded);
      NextEventShape(p, start.ledger, rec, recorded);
      if recorded < |marks| {
        MarkIsEvent(p, start, d, rec, marks, recorded, recorded);
      }
    }
  }

  /** The receipt is a function of the stage rows, wherever other leases' rows lie. */
  lemma SummaryAt(p: Application, start: Disk, rows: seq<Record>, longer: seq<Record>, rec: Recovery,
    marks: seq<Record>)
    requires ApplicationValid(p) && Fresh(p, start) && rec.expected != [] && |marks| == p.StageCount()
    requires RowsAt(p, start.ledger, rows, Some(rec), marks) && RowsAt(p, start.ledger, longer, Some(rec), marks)
    ensures Summary(p, rows, rec) == Summary(p, longer, rec)
  {
    hide Admit, Ours, StageRow, RowsAt, ApplicationValid;
    if p.StageCount() == 4 {
      forall i: nat | i < 4 ensures StageRow(p, rows, i) == StageRow(p, longer, i) {
        StageRowAt(p, start.ledger, rows, Some(rec), marks, i);
        StageRowAt(p, start.ledger, longer, Some(rec), marks, i);
      }
    }
  }

  // ---------------------------------------------------------------- one durable write is one phase

  /** The next write is the log append of an event that is not written as it was announced. */
  predicate GoesAstray(p: Application, ph: Phase) {
    && ph.Active? && !ph.stale && ph.counted == ph.logged < |p.events|
    && Trimmed(p.events[ph.logged]) != p.events[ph.logged]
  }

  /** The only reasons a run may refuse to go on. */
  ghost predicate Blocked(p: Application, start: Disk, d: Disk, ph: Phase)
    requires p.StageCount() == 4 ==> Admit(p, start.ledger).Ok?
  {
    if p.StageCount() == 4 && !d.readable then true
    else if ph.Idle? then
      MayBegin(p, d).Err? || Prepare(p, d.state, |p.events|).None? || (p.variant.Role? && !LogOk(p, d.log))
    else if ph.stale || ph.recorded < ph.marked then false
    else if ph.logged == 0 && !CursorOk(start.log, start.state) then true
    else if ph.counted != ph.logged then false
    else if ph.logged < |p.events| then p.recoveryControlled || InLog(d.log, Trimmed(p.events[ph.logged]).eventId)
    else
      && ph.marked < p.StageCount() && d.recovery.Some?
      && (|| HasId(d.ledger, NextEvent(p, start.ledger, d.recovery.value, ph.marked).eventId)
          || !IsTimestamp(d.recovery.value.startedAt))
  }

  ghost predicate Steps(p: Application, start: Disk, d: Disk, ph: Phase, action: Action)
    requires p.StageCount() == 4 ==> Admit(p, start.ledger).Ok?
  {
    match action
    case Fail(_) => Blocked(p, start, d, ph)
    case Write(after) =>
      && Succ(p, ph).Some? && !Blocked(p, start, d, ph)
      && if GoesAstray(p, ph) then Astray(p, start, after) else At(p, start, after, Succ(p, ph).value)
    case Done(r) => Succ(p, ph).None? && d.receipt == Some(r) && (p.StageCount() == 4 ==> d.readable)
  }

  lemma SameAdmission(p: Application, start: Disk, d: Disk, ph: Phase)
    requires Fresh(p, start) && At(p, start, d, ph)
    ensures Admit(p, d.ledger) == Admit(p, start.ledger)
  {
    hide CheckLedger;
  }

  lemma BeginStep(p: Application, now: string, start: Disk, d: Disk)
    requires ApplicationValid(p) && Fresh(p, start) && At(p, start, d, Idle)
    ensures Steps(p, start, d, Idle, Next(p, now, d))
  {
    hide Admit, Ours, LogOk, InLog, Prepare, Bare, NoStageRows, ApplicationValid;
    SameAdmission(p, start, d, Idle);
    if Next(p, now, d).Write? {
      var (records, states) := Prepare(p, d.state, |p.events|).value;
      PrepareMeaning(p, d.state, |p.events|);
      assert p.events != [] by { EventsExist(p); }
      var after := Next(p, now, d).disk;
      assert start.log + records[..0] == start.log;
      assert RowsAt(p, start.ledger, after.ledger, after.recovery, []);
      assert MarksOf(p, start.ledger, after.ledger) == [];
      assert LogOk(p, d.log);
      assert FromStart(p, start, after.recovery.value);
    }
  }

  lemma EventsExist(p: Application)
    requires ApplicationValid(p)
    ensures p.events != [] && p.leaseId != ""
  {}

  ghost predicate Running(p: Application, start: Disk, d: Disk, ph: Phase) {
    ApplicationValid(p) && Fresh(p, start) && ph.Active? && At(p, start, d, ph)
  }

  lemma NextIsResume(p: Application, now: string, start: Disk, d: Disk, ph: Phase)
    requires Running(p, start, d, ph) && (p.StageCount() == 4 ==> d.readable)
    ensures CheckRecovery(p, d.recovery.value).Ok?
    ensures Next(p, now, d) == Resume(p, d, d.recovery.value, Admit(p, start.ledger).value)
  {
    hide Admit, Ours, LogOk, Prepare, Bare, Begin, Resume, CheckRecovery, ApplicationValid, CursorOk;
    SameAdmission(p, start, d, ph);
  }

  /** A ledger that cannot be read stops every run at once. */
  lemma UnreadableStops(p: Application, now: string, start: Disk, d: Disk, ph: Phase)
    requires Fresh(p, start) && p.StageCount() == 4 && !d.readable
    ensures Steps(p, start, d, ph, Next(p, now, d))
  {}

  /** Until every event is logged and counted, the next write belongs to the Supervisor part. */
  lemma SupervisorStep(p: Application, now: string, start: Disk, d: Disk, ph: Phase)
    requires Running(p, start, d, ph) && ph.counted < |p.events| && (p.StageCount() == 4 ==> d.readable)
    ensures Steps(p, start, d, ph, Next(p, now, d))
  {
    hide Admit, Ours, LogOk, InLog, Prepare, Bare, NoStageRows, ApplicationValid, CursorOk, Advance, Reconcile,
      NextStage, Trimmed, StraysAt, RowsAt, MarksOf, StagesAt;
    var rec := d.recovery.value;
    NextIsResume(p, now, start, d, ph);
    ReconcileAt(p, start, d, rec, ph);
    if !ph.stale {
      CursorAt(p, start, d, rec, ph);
      if ph.logged < |p.events| && CursorOk(d.log, d.state) && ph.counted == ph.logged {
        ApplyAt(p, start, d, rec, ph);
      }
    }
    if Next(p, now, d).Write? {
      if GoesAstray(p, ph) {
        StrayWrite(p, start, d, ph, Next(p, now, d).disk);
      } else {
        SupervisorWrite(p, start, d, ph, Next(p, now, d).disk);
      }
    }
  }

  lemma StrayWrite(p: Application, start: Disk, d: Disk, ph: Phase, after: Disk)
    requires Running(p, start, d, ph) && GoesAstray(p, ph)
    requires after == d.(log := after.log) && StraysAt(p, start, after.log, d.recovery.value, ph.logged)
    ensures Astray(p, start, after)
  {
    hide Admit, Ours, LogOk, Prepare, Bare, ApplicationValid, CheckRecovery, CursorOk, StageEvent, Summary, Trimmed;
    assert ph.marked == 0 && !ph.receipted;
  }

  /** A write of the Supervisor part leaves ledger, stage record and receipt alone. */
  lemma SupervisorWrite(p: Application, start: Disk, d: Disk, ph: Phase, after: Disk)
    requires Running(p, start, d, ph) && ph.counted < |p.events| && Succ(p, ph).Some?
    requires after.ledger == d.ledger && after.receipt == d.receipt && after.recovery.Some?
    requires var rec, next := d.recovery.value, after.recovery.value;
      && next == rec.(eventCount := next.eventCount, status := next.status)
      && FromStart(p, start, next) && SupervisorAt(p, start, after, next, Succ(p, ph).value)
      && next.status == StatusAt(p, Succ(p, ph).value)
    ensures At(p, start, after, Succ(p, ph).value)
  {
    hide Admit, Ours, LogOk, Prepare, Bare, ApplicationValid, CheckRecovery, CursorOk, StageEvent, Summary;
    assert MarksOf(p, start.ledger, after.ledger) == MarksOf(p, start.ledger, d.ledger);
    assert EventIds(after.recovery.value) == EventIds(d.recovery.value);
    assert ph.marked == 0 && !ph.receipted;
  }

  /** Once every event is counted, the next write records a row, appends a row, or concerns the receipt. */
  lemma FinishStep(p: Application, now: string, start: Disk, d: Disk, ph: Phase)
    requires Running(p, start, d, ph) && ph.counted == |p.events| && (p.StageCount() == 4 ==> d.readable)
    ensures Steps(p, start, d, ph, Next(p, now, d))
  {
    hide Admit, Ours, LogOk, InLog, Prepare, Bare, NoStageRows, ApplicationValid, CheckRecovery, CursorOk, Advance,
      Reconcile, NextStage, StageEvent, Summary, EventOk, HasId, RowsAt, MarksOf, IsTimestamp, WithRow;
    var rec := d.recovery.value;
    var marks := MarksOf(p, start.ledger, d.ledger);
    NextIsResume(p, now, start, d, ph);
    RecoveryShape(p, rec);
    ReconcileAt(p, start, d, rec, ph);
    CursorAt(p, start, d, rec, ph);
    EventsExist(p);
    StageAt(p, start, d, rec, marks, ph.recorded);
    if ph.recorded < ph.marked {
      var next := AtStage(rec, ph.recorded, marks[ph.recorded].Sequence());
      RecordStep(p, start, d, ph, marks, next);
    } else if ph.marked < p.StageCount() {
      if !HasId(d.ledger, NextEvent(p, start.ledger, rec, ph.marked).eventId) && IsTimestamp(rec.startedAt) {
        NextMark(p, start.ledger, d.ledger, rec, marks);
        AppendStep(p, start, d, ph, marks, Seal(p.hash, d.ledger, NextEvent(p, start.ledger, rec, ph.marked)));
      }
    } else {
      ReceiptStep(p, start, d, ph);
    }
  }

  ghost predicate Reaches(p: Application, start: Disk, after: Disk, ph: Phase) {
    Succ(p, ph).Some? && At(p, start, after, Succ(p, ph).value)
  }

  lemma RecordStep(p: Application, start: Disk, d: Disk, ph: Phase, marks: seq<Record>, next: Recovery)
    requires Running(p, start, d, ph) && ph.recorded < ph.marked && marks == MarksOf(p, start.ledger, d.ledger)
    requires d.recovery.Some? && |next.stageSequences| == 4 && StagesAt(next, marks, ph.recorded + 1)
    requires next == d.recovery.value.(stageSequences := next.stageSequences, status := next.status)
    requires next.status == if ph.recorded == 3 then LeaseReleased else LedgerFinalizing
    ensures Reaches(p, start, d.(recovery := Some(next)), ph)
  {
    hide Admit, Ours, LogOk, Prepare, Bare, ApplicationValid, CursorOk, StageEvent, Summary, MarksOf;
    assert EventIds(next) == EventIds(d.recovery.value);
    assert AreMarks(p, Admit(p, start.ledger).value.value, next, marks);
  }

  lemma AppendStep(p: Application, start: Disk, d: Disk, ph: Phase, marks: seq<Record>, r: Record)
    requires Running(p, start, d, ph) && ph.counted == |p.events| && ph.recorded == ph.marked < p.StageCount()
    requires marks == MarksOf(p, start.ledger, d.ledger)
    requires RowsAt(p, start.ledger, d.ledger + [r], d.recovery, marks + [r])
    ensures Reaches(p, start, WithRow(d, r), ph)
  {
    hide Admit, Ours, LogOk, Prepare, Bare, ApplicationValid, CursorOk, StageEvent, Summary, MarksOf, CheckRecovery,
      RowsAt;
    RowsAtMarks(p, start.ledger, d.ledger + [r], d.recovery, marks + [r]);
  }

  lemma SameMarks(p: Application, grant: Record, rec: Recovery, next: Recovery, marks: seq<Record>)
    requires AreMarks(p, grant, rec, marks) && next.startedAt == rec.startedAt && EventIds(next) == EventIds(rec)
    ensures AreMarks(p, grant, next, marks)
  {
    hide StageEvent;
  }

  ghost predicate Finished(p: Application, start: Disk, d: Disk, ph: Phase) {
    && Running(p, start, d, ph) && ph.counted == |p.events| && ph.recorded == ph.marked == p.StageCount()
  }

  lemma ReceiptWritten(p: Application, start: Disk, d: Disk, ph: Phase)
    requires Finished(p, start, d, ph) && !ph.receipted
    ensures d.recovery.value.expected != []
    ensures Reaches(p, start, d.(receipt := Some(Summary(p, d.ledger, d.recovery.value))), ph)
  {
    hide Admit, Ours, LogOk, Prepare, Bare, ApplicationValid, CursorOk, StageEvent, MarksOf, Trimmed, RowsAt, Summary;
  }

  function Closed(rec: Recovery): Recovery {
    rec.(status := Receipted, receiptCreated := true)
  }

  lemma ReceiptClosed(p: Application, start: Disk, d: Disk, ph: Phase)
    requires Finished(p, start, d, ph) && ph.receipted && !ph.closed
    ensures Reaches(p, start, d.(recovery := Some(Closed(d.recovery.value))), ph)
  {
    hide Admit, Ours, LogOk, Prepare, Bare, ApplicationValid, CursorOk, StageEvent, MarksOf, Trimmed, AreMarks,
      WellChained, StageRow;
    var rec := d.recovery.value;
    assert EventIds(Closed(rec)) == EventIds(rec);
    if p.StageCount() == 4 {
      SameMarks(p, Admit(p, start.ledger).value.value, rec, Closed(rec), MarksOf(p, start.ledger, d.ledger));
    }
  }

  lemma ReceiptIs(p: Application, start: Disk, d: Disk, ph: Phase)
    requires Finished(p, start, d, ph)
    ensures d.recovery.Some? && d.recovery.value.expected != [] && ReceiptAt(p, d, d.recovery.value, ph)
    ensures Sound(p, ph)
  {}

  lemma ReceiptStep(p: Application, start: Disk, d: Disk, ph: Phase)
    requires Finished(p, start, d, ph) && (p.StageCount() == 4 ==> d.readable)
    ensures d.recovery.value.expected != []
    ensures Steps(p, start, d, ph, NextReceipt(p, d, d.recovery.value))
  {
    hide At, Admit, ApplicationValid, Trimmed, Summary, CursorOk;
    ReceiptIs(p, start, d, ph);
    EventsExist(p);
    if !ph.receipted {
      ReceiptWritten(p, start, d, ph);
    } else if !ph.closed {
      ReceiptClosed(p, start, d, ph);
    }
  }

  /** Every action a run may take on a disk of some phase is the one durable write that leads to the next phase. */
  lemma StepAt(p: Application, now: string, start: Disk, d: Disk, ph: Phase)
    requires ApplicationValid(p) && Fresh(p, start) && At(p, start, d, ph)
    ensures Steps(p, start, d, ph, Next(p, now, d))
  {
    hide Next, Admit, RowsAt, MarksOf, FromStart, SupervisorAt, StagesAt, ReceiptAt, Steps, Bare, Ours,
      ApplicationValid;
    if p.StageCount() == 4 && !d.readable {
      UnreadableStops(p, now, start, d, ph);
    } else if ph.Idle? {
      BeginStep(p, now, start, d);
    } else if ph.counted < |p.events| {
      SupervisorStep(p, now, start, d, ph);
    } else {
      FinishStep(p, now, start, d, ph);
    }
  }
}
