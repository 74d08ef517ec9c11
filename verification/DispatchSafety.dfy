/**
 The guarantees of an application: what every reachable disk satisfies, when a run completes, after how many writes,
 and what it leaves.
 */
module DispatchSafety {
  import opened Common
  import opened JsonText
  import opened Ledger
  import opened LedgerFile
  import opened LedgerFraming
  import opened LedgerReplay
  import opened Resumption
  import opened DispatchApplication
  import opened DispatchRows
  import opened DispatchPhases

  // ---------------------------------------------------------------- reachable disks

  /** What the scheduler lock lets others do between two runs: append verified rows of other leases. */
  ghost predicate ForeignAppend(p: Application, before: Disk, after: Disk) {
    && before.ledger <= after.ledger
    && after == before.(ledger := after.ledger, readable := before.readable
      && AllOneLine(after.ledger[|before.ledger|..]))
    && WellChained(p.hash, after.ledger)
    && forall i | |before.ledger| <= i < |after.ledger| :: !OfLease(p, after.ledger[i])
  }

  /** The disks of a history: crashes, reruns under any clock, and appends by other leases in any order. */
  ghost predicate Reachable(p: Application, disks: seq<Disk>) {
    && disks != [] && Fresh(p, disks[0])
    && forall i | 0 < i < |disks| :: Follows(p, disks[i - 1], disks[i])
  }

  ghost predicate Follows(p: Application, before: Disk, after: Disk) {
    || ForeignAppend(p, before, after)
    || StrayState(p, before, after)
    || exists now :: Next(p, now, before) == Action.Write(after)
  }

  /**
   The file step replaces the state after it logged a record, before it is noticed that the record is not the expected
   one.
   */
  ghost predicate StrayState(p: Application, before: Disk, after: Disk) {
    && before.recovery.Some? && CheckRecovery(p, before.recovery.value).Ok?
    && Reconcile(p, before, before.recovery.value) == Err(EventSuffix)
    && after == before.(state := after.state)
  }

  lemma ForeignStep(p: Application, start: Disk, d: Disk, after: Disk, ph: Phase)
    requires ApplicationValid(p) && Fresh(p, start) && At(p, start, d, ph) && ForeignAppend(p, d, after)
    ensures At(p, start, after, ph)
  {
    hide Admit, Ours, LogOk, Prepare, Bare, CursorOk, StageEvent, Summary, MarksOf, CheckRecovery, RowsAt, WellChained,
      OneLine, Trimmed;
    var marks := MarksOf(p, start.ledger, d.ledger);
    ForeignRows(p, start.ledger, d.ledger, d.recovery, marks, after.ledger);
    RowsAtMarks(p, start.ledger, after.ledger, d.recovery, marks);
    if ph.Active? && ph.receipted {
      SummaryAt(p, start, d.ledger, after.ledger, d.recovery.value, marks);
    }
  }

  lemma ForeignAstray(p: Application, start: Disk, d: Disk, after: Disk)
    requires ApplicationValid(p) && Fresh(p, start) && Astray(p, start, d) && ForeignAppend(p, d, after)
    ensures Astray(p, start, after)
  {
    hide Admit, Ours, LogOk, Bare, RowsAt, WellChained, OneLine, Trimmed;
    ForeignRows(p, start.ledger, d.ledger, d.recovery, [], after.ledger);
  }

  /** On the disk of a phase the log is never other than expected. */
  lemma NotStray(p: Application, start: Disk, d: Disk, after: Disk, ph: Phase)
    requires At(p, start, d, ph)
    ensures !StrayState(p, d, after)
  {
    hide RowsAt, MarksOf, LogOk, Reconcile, Summary, Prepare, CheckRecovery, StagesAt;
    if ph.Active? {
      ReconcileAt(p, start, d, d.recovery.value, ph);
    }
  }

  lemma StartAt(p: Application, start: Disk)
    requires Fresh(p, start)
    ensures At(p, start, start, Idle)
  {
    hide Admit, Ours, Bare, MarksOf, RowsAt, Fresh;
    StartRows(p, start);
    RowsAtMarks(p, start.ledger, start.ledger, None, []);
    assert start.recovery.None? by { FreshShape(p, start); }
  }

  lemma FreshShape(p: Application, start: Disk)
    requires Fresh(p, start)
    ensures start.recovery.None? && start.receipt.None? && Admit(p, start.ledger).Ok? && Bare(Ours(p, start.ledger))
  {}

  /** Every reachable disk is the disk of some phase, or one that went astray. */
  lemma {:induction false} Reached(p: Application, disks: seq<Disk>) returns (ph: Phase)
    requires ApplicationValid(p) && Reachable(p, disks)
    ensures At(p, disks[0], disks[|disks| - 1], ph) || Astray(p, disks[0], disks[|disks| - 1])
  {
    hide Fresh, Next, At, ApplicationValid, ForeignAppend, Astray, StrayState;
    var n := |disks| - 1;
    if n == 0 {
      ph := Idle;
      StartAt(p, disks[0]);
    } else {
      assert Follows(p, disks[n - 1], disks[n]);
      assert disks[..n][n - 1] == disks[n - 1];
      ph := Reached(p, disks[..n]);
      if Astray(p, disks[0], disks[n - 1]) {
        AstrayStays(p, disks[0], disks[n - 1], disks[n]);
      } else {
        NotStray(p, disks[0], disks[n - 1], disks[n], ph);
        if ForeignAppend(p, disks[n - 1], disks[n]) {
          ForeignStep(p, disks[0], disks[n - 1], disks[n], ph);
        } else {
          var now :| Next(p, now, disks[n - 1]) == Action.Write(disks[n]);
          FreshShape(p, disks[0]);
          StepAt(p, now, disks[0], disks[n - 1], ph);
          ph := Succ(p, ph).value;
        }
      }
    }
  }

  /** Nothing anybody may do leads back. */
  lemma AstrayStays(p: Application, start: Disk, d: Disk, after: Disk)
    requires ApplicationValid(p) && Fresh(p, start) && Astray(p, start, d) && Follows(p, d, after)
    ensures Astray(p, start, after)
  {
    hide Fresh, Next, ApplicationValid, RowsAt, FromStart, StraysAt, ForeignAppend, Reconcile, CheckRecovery;
    if ForeignAppend(p, d, after) {
      ForeignAstray(p, start, d, after);
    } else if !StrayState(p, d, after) {
      var now :| Next(p, now, d) == Action.Write(after);
      AstrayForever(p, now, start, d);
    }
  }

  // ---------------------------------------------------------------- the order of writes

  function RowOf(p: Application, d: Disk, stage: nat): Option<Record>
    requires stage < 4
  {
    match StageRow(p, d.ledger, stage)
    case Ok(row) => row
    case Err(_) => None
  }

  /** What the Supervisor log holds once every event was applied. */
  ghost predicate FullyApplied(p: Application, start: Disk, d: Disk) {
    match Prepare(p, start.state, |p.events|)
    case None => false
    case Some((records, states)) =>
      d.log == start.log + records && |states| == |p.events| + 1 && d.state == states[|p.events|]
  }

  ghost predicate Ordered(p: Application, start: Disk, d: Disk) {
    && (forall i: nat | i < 4 :: StageRow(p, d.ledger, i).Ok?)
    && (forall i: nat, j: nat | i < j < 4 && RowOf(p, d, j).Some? ::
          RowOf(p, d, i).Some? && RowOf(p, d, i).value.Sequence() < RowOf(p, d, j).value.Sequence())
    && ((exists i: nat :: i < 4 && RowOf(p, d, i).Some?) ==> FullyApplied(p, start, d))
    && (d.receipt.Some? ==> forall i: nat | i < 4 :: RowOf(p, d, i).Some?)
    && (ActiveLease(d.ledger, p.leaseId).Some? <==> RowOf(p, d, 3).None?)
  }

  lemma {:induction false} OursIncreasing(p: Application, rows: seq<Record>)
    requires WellChained(p.hash, rows)
    ensures forall r | r in Ours(p, rows) :: r.Sequence() <= |rows|
    ensures forall i, j | 0 <= i < j < |Ours(p, rows)| :: Ours(p, rows)[i].Sequence() < Ours(p, rows)[j].Sequence()
  {
    if rows != [] {
      var n := |rows| - 1;
      PrefixWellChained(p.hash, rows, n);
      OursIncreasing(p, rows[..n]);
      assert Linked(p.hash, rows, n);
    }
  }

  lemma LastEnds(p: Application, own: seq<Record>)
    requires own != [] && Ends(own[|own| - 1], p.leaseId) && !Grants(own[|own| - 1], p.leaseId)
    ensures ActiveLease(own, p.leaseId).None?
  {}

  /** The lease is active until its release row is there. */
  lemma LeaseUntilRelease(p: Application, start: Disk, d: Disk, rec: Option<Recovery>, marks: seq<Record>)
    requires ApplicationValid(p) && Fresh(p, start) && p.StageCount() == 4
    requires RowsAt(p, start.ledger, d.ledger, rec, marks)
    ensures ActiveLease(d.ledger, p.leaseId).Some? <==> |marks| < 4
  {
    hide Admit, Bare, Ours, LeaseUsable, OfType, StageEvent, WellChained, Get, ActiveLease, OfLease, Fresh,
      ApplicationValid;
    EventsExist(p);
    var own := Ours(p, d.ledger);
    AdmitParts(p, d.ledger);
    UsableOurs(p, d.ledger, own);
    ActiveOurs(p, d.ledger);
    FreshShape(p, start);
    MarksTyped(p, start.ledger, d.ledger, rec, marks);
    MarkOfStage(Ours(p, start.ledger), marks, 3);
    StageNames(3);
    if |marks| == 4 {
      assert own[|own| - 1] == marks[3] && marks[3].Type() == "lease_released";
      OursAreOurs(p, d.ledger);
      assert OfLease(p, marks[3]);
      ReleaseEnds(p, marks[3]);
      LastEnds(p, own);
    }
  }

  lemma ReleaseEnds(p: Application, r: Record)
    requires r.Type() == "lease_released" && OfLease(p, r) && p.leaseId != ""
    ensures Ends(r, p.leaseId) && !Grants(r, p.leaseId)
  {
    assert |"lease_released"| == 14 && |"lease_granted"| == 13;
  }

  /**
   Write order: on every reachable disk the stage rows of this lease are a prefix of the four stages, each once, with
   increasing sequences; a stage row implies the whole Supervisor part; the receipt implies all four rows; and replay
   keeps the lease active exactly until the release row.
   */
  lemma WriteOrder(p: Application, disks: seq<Disk>)
    requires ApplicationValid(p) && Reachable(p, disks) && p.StageCount() == 4
    ensures Ordered(p, disks[0], disks[|disks| - 1])
  {
    hide At, ApplicationValid, Fresh, Ordered, Follows, Astray;
    var ph := Reached(p, disks);
    if Astray(p, disks[0], disks[|disks| - 1]) {
      AstrayOrdered(p, disks[0], disks[|disks| - 1]);
    } else {
      PhaseOrdered(p, disks[0], disks[|disks| - 1], ph);
    }
  }

  lemma AstrayOrdered(p: Application, start: Disk, d: Disk)
    requires ApplicationValid(p) && Fresh(p, start) && Astray(p, start, d) && p.StageCount() == 4
    ensures Ordered(p, start, d)
  {
    hide ApplicationValid, Fresh, RowsAt, FullyApplied, ActiveLease, MarksInPlace, Ordered, FromStart, StraysAt;
    MarksFound(p, start, d.ledger, d.recovery, []);
    LeaseUntilRelease(p, start, d, d.recovery, []);
    OrderOfMarks(p, start, d, []);
  }

  /** The marks found as stage rows, in increasing order. */
  ghost predicate MarksInPlace(p: Application, rows: seq<Record>, marks: seq<Record>) {
    && |marks| <= 4
    && (forall i: nat | i < 4 :: StageRow(p, rows, i) == Ok(if i < |marks| then Some(marks[i]) else None))
    && (forall i: nat, j: nat | i < j < |marks| :: marks[i].Sequence() < marks[j].Sequence())
  }

  lemma MarksFound(p: Application, start: Disk, rows: seq<Record>, rec: Option<Recovery>, marks: seq<Record>)
    requires ApplicationValid(p) && Fresh(p, start) && p.StageCount() == 4 && RowsAt(p, start.ledger, rows, rec, marks)
    ensures MarksInPlace(p, rows, marks)
  {
    hide Admit, Bare, Ours, StageRow, ApplicationValid, Fresh, StageEvent, WellChained;
    FreshShape(p, start);
    MarksTyped(p, start.ledger, rows, rec, marks);
    forall i: nat | i < 4 ensures StageRow(p, rows, i) == Ok(if i < |marks| then Some(marks[i]) else None) {
      StageRowAt(p, start.ledger, rows, rec, marks, i);
    }
    OursIncreasing(p, rows);
    forall i: nat, j: nat | i < j < |marks| ensures marks[i].Sequence() < marks[j].Sequence() {
      var base := |Ours(p, start.ledger)|;
      assert marks[i] == Ours(p, rows)[base + i] && marks[j] == Ours(p, rows)[base + j];
    }
  }

  lemma AppliedByThen(p: Application, start: Disk, d: Disk, ph: Phase)
    requires At(p, start, d, ph) && ph.Active? && ph.marked > 0
    ensures FullyApplied(p, start, d)
  {
    hide RowsAt, MarksOf, LogOk, CursorOk, Summary, Prepare, StagesAt;
    var rec := d.recovery.value;
    assert rec.expected[..ph.logged] == rec.expected;
  }

  lemma MarksAt(p: Application, start: Disk, d: Disk, ph: Phase)
    requires At(p, start, d, ph) && p.StageCount() == 4 && start.receipt.None?
    ensures RowsAt(p, start.ledger, d.ledger, d.recovery, MarksOf(p, start.ledger, d.ledger))
    ensures |MarksOf(p, start.ledger, d.ledger)| == if ph.Idle? then 0 else ph.marked
    ensures d.receipt.Some? ==> ph.Active? && ph.marked == 4
  {
    hide RowsAt, MarksOf, FromStart, SupervisorAt, StagesAt, Summary;
  }

  lemma OrderOfMarks(p: Application, start: Disk, d: Disk, marks: seq<Record>)
    requires MarksInPlace(p, d.ledger, marks)
    requires marks != [] ==> FullyApplied(p, start, d)
    requires d.receipt.Some? ==> |marks| == 4
    requires ActiveLease(d.ledger, p.leaseId).Some? <==> |marks| < 4
    ensures Ordered(p, start, d)
  {
    hide StageRow, FullyApplied, ActiveLease;
    forall i: nat | i < 4 ensures RowOf(p, d, i) == if i < |marks| then Some(marks[i]) else None {
      assert StageRow(p, d.ledger, i) == Ok(if i < |marks| then Some(marks[i]) else None);
    }
  }

  lemma PhaseOrdered(p: Application, start: Disk, d: Disk, ph: Phase)
    requires ApplicationValid(p) && Fresh(p, start) && At(p, start, d, ph) && p.StageCount() == 4
    ensures Ordered(p, start, d)
  {
    hide ApplicationValid, Fresh, At, RowsAt, MarksOf, FullyApplied, ActiveLease, MarksInPlace, Ordered;
    var marks := MarksOf(p, start.ledger, d.ledger);
    FreshShape(p, start);
    MarksAt(p, start, d, ph);
    MarksFound(p, start, d.ledger, d.recovery, marks);
    LeaseUntilRelease(p, start, d, d.recovery, marks);
    assert |marks| <= 4 by { MarksTyped(p, start.ledger, d.ledger, d.recovery, marks); }
    if marks != [] {
      AppliedByThen(p, start, d, ph);
    }
    OrderOfMarks(p, start, d, marks);
  }

  // ---------------------------------------------------------------- completion

  lemma RunStep(p: Application, now: string, d: Disk, left: nat)
    ensures Next(p, now, d).Done? ==> Run(Applying(p), now, d, left) == (d, Completed(Next(p, now, d).receipt))
    ensures Next(p, now, d).Fail? ==> Run(Applying(p), now, d, left) == (d, Failed(Next(p, now, d).error))
    ensures Next(p, now, d).Write? && left == 0 ==>
      Run(Applying(p), now, d, left) == (d, Outcome<Receipt, AppError>.Crashed)
    ensures Next(p, now, d).Write? && left > 0 ==>
      Run(Applying(p), now, d, left) == Run(Applying(p), now, Next(p, now, d).disk, left - 1)
  {
    hide Next;
  }

  /** The durable writes still to come: at most 3n + 11 for n events. */
  function Work(p: Application, ph: Phase): nat
    requires Sound(p, ph)
  {
    var stages := 2 * p.StageCount() + 2;
    if ph.Idle? then 1 + 3 * |p.events| + stages else
    3 * (|p.events| - ph.logged) + (ph.logged - ph.counted) + (if ph.stale then 1 else 0)
    + (p.StageCount() - ph.marked) + (p.StageCount() - ph.recorded)
    + (if ph.receipted then 0 else 1) + (if ph.closed then 0 else 1)
  }

  lemma SuccWork(p: Application, ph: Phase)
    requires Sound(p, ph)
    ensures Succ(p, ph).None? <==> Work(p, ph) == 0
    ensures Succ(p, ph).Some? ==> Sound(p, Succ(p, ph).value) && Work(p, Succ(p, ph).value) == Work(p, ph) - 1
  {}

  function StageId(p: Application, start: Disk, stage: nat): string
    requires p.StageCount() == 4 && Admit(p, start.ledger).Ok? && stage < 4
  {
    p.markId(STAGES[stage], Admit(p, start.ledger).value.value.Id(), p.manifestSha)
  }

  ghost predicate StartClear(p: Application, start: Disk) {
    && MayBegin(p, start).Ok? && Prepare(p, start.state, |p.events|).Some?
    && LogOk(p, start.log) && CursorOk(start.log, start.state)
    && EventsClear(p, start) && !p.recoveryControlled
  }

  /** No event is known or occurs twice, and none has blanks to trim. */
  ghost predicate EventsClear(p: Application, start: Disk) {
    && (forall i | 0 <= i < |p.events| :: Trimmed(p.events[i]) == p.events[i])
    && (forall i | 0 <= i < |p.events| :: !InLog(start.log, p.events[i].eventId))
    && (forall i, j | 0 <= i < j < |p.events| :: p.events[i].eventId != p.events[j].eventId)
  }

  /** The clock the stage rows of an application carry: that of the run that started it. */
  function StartedAt(d: Disk, now: string): string {
    if d.recovery.Some? then d.recovery.value.startedAt else now
  }

  function BundleIds(p: Application): seq<string> {
    seq(|p.events|, i requires 0 <= i < |p.events| => p.events[i].eventId)
  }

  /** The event of a stage under this clock. */
  function Due(p: Application, start: Disk, startedAt: string, stage: nat): Event
    requires p.StageCount() == 4 && Admit(p, start.ledger).Ok? && stage < 4
  {
    StageEvent(p, Admit(p, start.ledger).value.value, stage, startedAt, BundleIds(p))
  }

  /**
   No stage identity is used twice, none still to be written is taken, the ledger can be read, the clock is a timestamp,
   and no row still to be written holds a line separator.
   */
  ghost predicate StagesClear(p: Application, start: Disk, d: Disk, now: string)
    requires p.StageCount() == 4 ==> Admit(p, start.ledger).Ok?
  {
    p.StageCount() == 4 ==>
      && d.readable && IsTimestamp(StartedAt(d, now))
      && (forall i: nat, j: nat | i < j < 4 :: StageId(p, start, i) != StageId(p, start, j))
      && (forall i: nat | i < 4 && RowOf(p, d, i).None? ::
            !HasId(d.ledger, StageId(p, start, i)) && !EventSeparated(Due(p, start, StartedAt(d, now), i)))
  }

  lemma BeginIgnoresLedger(p: Application, start: Disk, d: Disk)
    requires ApplicationValid(p) && Fresh(p, start) && At(p, start, d, Idle)
    ensures MayBegin(p, d) == MayBegin(p, start)
  {
    hide Admit, Bare, Ours, LogOk, CursorOk, StageRow, RowsAt, ApplicationValid, Prepare;
    if p.StageCount() == 4 {
      forall i: nat | i < 4 ensures StageRow(p, d.ledger, i) == Ok(None) == StageRow(p, start.ledger, i) {
        StartRows(p, start);
        StageRowAt(p, start.ledger, d.ledger, None, [], i);
        StageRowAt(p, start.ledger, start.ledger, None, [], i);
      }
      StagesAbsent(p, d.ledger, 0);
      StagesAbsent(p, start.ledger, 0);
    }
  }

  lemma {:induction false} StagesAbsent(p: Application, rows: seq<Record>, stage: nat)
    requires stage <= 4 && forall i: nat | stage <= i < 4 :: StageRow(p, rows, i) == Ok(None)
    ensures NoStageRows(p, rows, stage).Ok?
    decreases 4 - stage
  {
    hide StageRow;
    if stage < 4 {
      StagesAbsent(p, rows, stage + 1);
    }
  }

  lemma IdLogged(p: Application, start: Disk, d: Disk, rec: Recovery, ph: Phase, id: string)
    requires ph.Active? && Sound(p, ph) && FromStart(p, start, rec) && SupervisorAt(p, start, d, rec, ph)
    ensures InLog(d.log, id) <==> InLog(start.log, id) || exists i | 0 <= i < ph.logged :: p.events[i].eventId == id
  {
    hide LogOk, CheckRecovery, InLog;
    assert d.log == start.log + rec.expected[..ph.logged];
    IdInConcat(start.log, rec.expected[..ph.logged], id);
    IdExpected(p, rec, ph.logged, id);
  }

  lemma IdInConcat(front: seq<LogRecord>, back: seq<LogRecord>, id: string)
    ensures InLog(front + back, id) <==> InLog(front, id) || InLog(back, id)
  {
    var all := front + back;
    assert forall i | 0 <= i < |front| :: all[i] == front[i];
    assert forall i | 0 <= i < |back| :: all[|front| + i] == back[i];
  }

  lemma IdExpected(p: Application, rec: Recovery, n: nat, id: string)
    requires CheckRecovery(p, rec).Ok? && n <= |p.events| && n <= |rec.expected|
    ensures InLog(rec.expected[..n], id) <==> exists i | 0 <= i < n :: p.events[i].eventId == id
  {
    hide CheckRecovery;
    ExpectedIds(p, rec);
    if i :| 0 <= i < n && p.events[i].eventId == id {
      assert rec.expected[..n][i].Id() == id;
    }
  }

  lemma NextIdIs(p: Application, start: Disk, rec: Recovery, stage: nat)
    requires p.StageCount() == 4 && Admit(p, start.ledger).Ok? && stage < 4
    ensures NextEvent(p, start.ledger, rec, stage).eventId == StageId(p, start, stage)
  {
    hide Admit, StageAccounting, StageEvidence, Put;
  }

  /** Nothing stands in the way of an application whose identities are all free. */
  lemma ClearGoesOn(p: Application, now: string, start: Disk, d: Disk, ph: Phase)
    requires ApplicationValid(p) && Fresh(p, start) && At(p, start, d, ph)
    requires StartClear(p, start) && StagesClear(p, start, d, now)
    ensures !Blocked(p, start, d, ph) && !GoesAstray(p, ph)
  {
    hide Admit, Bare, Ours, LogOk, CursorOk, StageRow, RowsAt, Prepare, InLog, HasId, StageEvent, ApplicationValid,
      MarksOf, Summary, Trimmed, EventSeparated, IsTimestamp;
    if ph.Idle? {
      BeginIgnoresLedger(p, start, d);
    } else {
      var rec := d.recovery.value;
      if ph.logged < |p.events| {
        IdLogged(p, start, d, rec, ph, p.events[ph.logged].eventId);
      }
      if ph.marked < p.StageCount() {
        FreshShape(p, start);
        StageRowAt(p, start.ledger, d.ledger, d.recovery, MarksOf(p, start.ledger, d.ledger), ph.marked);
        NextIdIs(p, start, rec, ph.marked);
      }
    }
  }

  /** A write keeps the remaining rows free and readable. */
  lemma ClearStays(p: Application, now: string, start: Disk, d: Disk, ph: Phase)
    requires ApplicationValid(p) && Fresh(p, start) && At(p, start, d, ph) && StagesClear(p, start, d, now)
    requires Next(p, now, d).Write? && !GoesAstray(p, ph)
    ensures StagesClear(p, start, Next(p, now, d).disk, now)
  {
    hide Admit, Bare, Ours, LogOk, CursorOk, StageRow, RowsAt, Prepare, InLog, HasId, ApplicationValid, MarksOf,
      Summary, Next, Fresh, EventSeparated, OneLine, IsTimestamp, StageEvent, At;
    StepAt(p, now, start, d, ph);
    FreshShape(p, start);
    StartedAtStays(p, now, start, d, ph);
    SoundAt(p, start, d, ph);
    if p.StageCount() == 4 {
      var after := Next(p, now, d).disk;
      LedgerStep(p, now, start, d, ph);
      if after.ledger == d.ledger {
        assert forall i: nat | i < 4 :: RowOf(p, after, i) == RowOf(p, d, i);
      } else {
        RowStays(p, now, start, d, ph, after);
      }
    }
  }

  /** The ledger write of a run: the row of the next stage, which is due. */
  lemma RowStays(p: Application, now: string, start: Disk, d: Disk, ph: Phase, after: Disk)
    requires ApplicationValid(p) && Fresh(p, start) && At(p, start, d, ph) && StagesClear(p, start, d, now)
    requires ph.Active? && p.StageCount() == 4 && ph.marked < 4 && Admit(p, start.ledger).Ok?
    requires d.recovery.Some? && after.recovery.Some?
    requires after.recovery.value.startedAt == d.recovery.value.startedAt
    requires Succ(p, ph).Some? && At(p, start, after, Succ(p, ph).value)
    requires Succ(p, ph).value.Active? && Succ(p, ph).value.marked == ph.marked + 1
    requires var row := Seal(p.hash, d.ledger, NextEvent(p, start.ledger, d.recovery.value, ph.marked));
      after.ledger == WithRow(d, row).ledger && after.readable == WithRow(d, row).readable
    ensures StagesClear(p, start, after, now)
  {
    hide Bare, Ours, LogOk, CursorOk, StageRow, RowsAt, Prepare, InLog, HasId, ApplicationValid, MarksOf, Summary,
      Fresh, EventSeparated, OneLine, IsTimestamp, StageEvent, At, Admit, Succ;
    var row := Seal(p.hash, d.ledger, NextEvent(p, start.ledger, d.recovery.value, ph.marked));
    MarksOfPhase(p, start, d, ph);
    MarksOfPhase(p, start, after, Succ(p, ph).value);
    NextIdIs(p, start, d.recovery.value, ph.marked);
    RecoveryAt(p, start, d, ph);
    IdsOfBundle(p, d.recovery.value);
    SealOneLine(p.hash, d.ledger, NextEvent(p, start.ledger, d.recovery.value, ph.marked)) by { PlainHashes(p); }
    IdsGrow(d.ledger, row);
    assert RowOf(p, d, ph.marked).None?;
  }

  lemma PlainHashes(p: Application)
    requires ApplicationValid(p)
    ensures HexHash(p.hash)
  {}

  /** On the disk of a phase the stage rows found are the marks. */
  lemma MarksOfPhase(p: Application, start: Disk, d: Disk, ph: Phase)
    requires ApplicationValid(p) && Fresh(p, start) && p.StageCount() == 4 && At(p, start, d, ph) && ph.Active?
    ensures WellChained(p.hash, d.ledger)
    ensures forall i: nat | i < 4 :: RowOf(p, d, i).Some? <==> i < ph.marked
  {
    hide Admit, Ours, StageRow, ApplicationValid, WellChained, Summary, Prepare, LogOk, CheckRecovery, MarksOf;
    FreshShape(p, start);
    var marks := MarksOf(p, start.ledger, d.ledger);
    forall i: nat | i < 4 ensures RowOf(p, d, i).Some? <==> i < ph.marked {
      StageRowAt(p, start.ledger, d.ledger, d.recovery, marks, i);
    }
  }

  ghost predicate LedgerMoves(p: Application, start: Disk, d: Disk, ph: Phase, after: Disk)
    requires p.StageCount() == 4 ==> Admit(p, start.ledger).Ok?
  {
    if ph.Active? && ph.counted == |p.events| && ph.recorded == ph.marked < p.StageCount() then
      && d.recovery.Some?
      && var grown := WithRow(d, Seal(p.hash, d.ledger, NextEvent(p, start.ledger, d.recovery.value, ph.marked)));
         after.ledger == grown.ledger && after.readable == grown.readable
    else after.ledger == d.ledger && after.readable == d.readable
  }

  /** The only ledger write of a run is the next stage row. */
  lemma LedgerStep(p: Application, now: string, start: Disk, d: Disk, ph: Phase)
    requires ApplicationValid(p) && Fresh(p, start) && At(p, start, d, ph) && Next(p, now, d).Write?
    ensures LedgerMoves(p, start, d, ph, Next(p, now, d).disk)
  {
    hide Admit, Bare, Ours, LogOk, CursorOk, StageRow, Prepare, InLog, HasId, ApplicationValid, Summary, StageEvent,
      EventOk, NextStage, Reconcile, MarksOf, RowsAt, OneLine, Trimmed, IsTimestamp;
    if ph.Active? {
      var rec := d.recovery.value;
      NextIsResume(p, now, start, d, ph);
      ReconcileAt(p, start, d, rec, ph);
      if ph.counted == |p.events| {
        EventsExist(p);
        StageAt(p, start, d, rec, MarksOf(p, start.ledger, d.ledger), ph.recorded);
      }
    }
  }

  /** The recovery record keeps the clock of the run that created it. */
  lemma StartedAtStays(p: Application, now: string, start: Disk, d: Disk, ph: Phase)
    requires ApplicationValid(p) && Fresh(p, start) && At(p, start, d, ph) && Next(p, now, d).Write?
    ensures var after := Next(p, now, d).disk.recovery;
      after.Some? && after.value.startedAt == if ph.Idle? then now else d.recovery.value.startedAt
  {
    hide Admit, Bare, Ours, LogOk, CursorOk, StageRow, Prepare, InLog, HasId, ApplicationValid, Summary, StageEvent,
      EventOk, NextStage, Reconcile, MarksOf, RowsAt, OneLine, Trimmed, IsTimestamp;
    if ph.Active? {
      var rec := d.recovery.value;
      NextIsResume(p, now, start, d, ph);
      ReconcileAt(p, start, d, rec, ph);
      if ph.counted == |p.events| {
        EventsExist(p);
        StageAt(p, start, d, rec, MarksOf(p, start.ledger, d.ledger), ph.recorded);
      }
    }
  }

  /** With free identities a run completes exactly when it is allowed the remaining writes. */
  lemma {:induction false} CompletesAfter(p: Application, now: string, start: Disk, d: Disk, ph: Phase, writes: nat)
    requires ApplicationValid(p) && Fresh(p, start) && At(p, start, d, ph)
    requires StartClear(p, start) && StagesClear(p, start, d, now)
    ensures Run(Applying(p), now, d, writes).1.Completed? <==> writes >= Work(p, ph)
    ensures Run(Applying(p), now, d, writes).1.Crashed? <==> writes < Work(p, ph)
    decreases writes
  {
    hide At, Fresh, Blocked, StartClear, StagesClear, ApplicationValid, Next;
    StepAt(p, now, start, d, ph);
    ClearGoesOn(p, now, start, d, ph);
    assert Sound(p, ph) by { SoundAt(p, start, d, ph); }
    SuccWork(p, ph);
    if Next(p, now, d).Write? && writes > 0 {
      ClearStays(p, now, start, d, ph);
      CompletesAfter(p, now, start, Next(p, now, d).disk, Succ(p, ph).value, writes - 1);
    }
  }

  lemma SoundAt(p: Application, start: Disk, d: Disk, ph: Phase)
    requires At(p, start, d, ph)
    ensures Sound(p, ph)
    ensures ph.Active? <==> d.recovery.Some?
  {}

  /**
   Where an uninterfered run stops: on the disk of some phase, with the ledger it built and the clock it started under.
   */
  ghost predicate Exact(p: Application, start: Disk, d: Disk, ph: Phase, startedAt: string)
    requires p.StageCount() == 4 ==> Admit(p, start.ledger).Ok?
  {
    && At(p, start, d, ph)
    && (ph.Active? ==> d.recovery.Some? && d.recovery.value.startedAt == startedAt && ph.marked <= p.StageCount())
    && d.ledger == Stamped(p, start, startedAt, if ph.Idle? then 0 else ph.marked)
    && d.readable == (start.readable && AllOneLine(d.ledger[|start.ledger|..]))
  }

  /** The ledger with the first `n` stage rows sealed on top, all stamped with the starting clock. */
  function Stamped(p: Application, start: Disk, startedAt: string, n: nat): (rows: seq<Record>)
    requires p.StageCount() == 4 ==> Admit(p, start.ledger).Ok?
    requires n <= p.StageCount()
    ensures |rows| == |start.ledger| + n
  {
    if n == 0 then start.ledger else
    var rows := Stamped(p, start, startedAt, n - 1);
    rows + [Seal(p.hash, rows, Due(p, start, startedAt, n - 1))]
  }

  lemma IdsOfBundle(p: Application, rec: Recovery)
    requires CheckRecovery(p, rec).Ok?
    ensures EventIds(rec) == BundleIds(p)
  {
    ProjectionOf(p, rec);
    forall i | 0 <= i < |p.events| ensures rec.expected[i].Id() == p.events[i].eventId {
      assert Advance(p, rec.snapshots[i], p.events[i]) == Some((rec.expected[i], rec.snapshots[i + 1]));
    }
  }

  lemma ExactStep(p: Application, now: string, start: Disk, d: Disk, ph: Phase, startedAt: string)
    requires ApplicationValid(p) && Fresh(p, start) && Exact(p, start, d, ph, startedAt)
    requires Next(p, now, d).Write? && (ph.Idle? ==> startedAt == now) && !GoesAstray(p, ph)
    ensures Succ(p, ph).Some? && Exact(p, start, Next(p, now, d).disk, Succ(p, ph).value, startedAt)
  {
    hide ApplicationValid, At, Next, Admit, Blocked, CheckRecovery, OneLine, Fresh, StageEvent, Stamped, AllOneLine,
      WithRow, Astray;
    FreshShape(p, start);
    StepAt(p, now, start, d, ph);
    SoundAt(p, start, d, ph);
    StartedAtStays(p, now, start, d, ph);
    LedgerStep(p, now, start, d, ph);
    var after := Next(p, now, d).disk;
    if ph.Active? && ph.counted == |p.events| && ph.recorded == ph.marked < p.StageCount() {
      RecoveryAt(p, start, d, ph);
      IdsOfBundle(p, d.recovery.value);
      NextIsDue(p, start, d.recovery.value, ph.marked);
      StampsGrow(p, start, startedAt, ph.marked, d, after);
    }
  }

  lemma NextIsDue(p: Application, start: Disk, rec: Recovery, stage: nat)
    requires p.StageCount() == 4 && Admit(p, start.ledger).Ok? && stage < 4 && EventIds(rec) == BundleIds(p)
    ensures NextEvent(p, start.ledger, rec, stage) == Due(p, start, rec.startedAt, stage)
  {
    hide Admit, StageEvent;
  }

  lemma StampsGrow(p: Application, start: Disk, startedAt: string, n: nat, d: Disk, after: Disk)
    requires p.StageCount() == 4 && Admit(p, start.ledger).Ok? && n < 4 && d.ledger == Stamped(p, start, startedAt, n)
    requires d.readable == (start.readable && AllOneLine(d.ledger[|start.ledger|..]))
    requires var row := Seal(p.hash, d.ledger, Due(p, start, startedAt, n));
      after.ledger == WithRow(d, row).ledger && after.readable == WithRow(d, row).readable
    ensures after.ledger == Stamped(p, start, startedAt, n + 1)
    ensures after.readable == (start.readable && AllOneLine(after.ledger[|start.ledger|..]))
  {
    hide Admit, StageEvent, OneLine, Due;
    var k, r := |start.ledger|, after.ledger[|d.ledger|];
    assert after.ledger[k..] == d.ledger[k..] + [r];
    assert r in after.ledger[k..] by { assert (d.ledger[k..] + [r])[|d.ledger| - k] == r; }
    assert forall x | x in d.ledger[k..] :: x in d.ledger[k..] + [r];
    assert forall x | x in after.ledger[k..] :: x in d.ledger[k..] || x == r;
  }

  lemma RecoveryAt(p: Application, start: Disk, d: Disk, ph: Phase)
    requires At(p, start, d, ph) && ph.Active?
    ensures d.recovery.Some? && CheckRecovery(p, d.recovery.value).Ok? && FromStart(p, start, d.recovery.value)
  {}

  /** The run from `start` ended on `d` in the last phase with this receipt, and the ledger can be read. */
  ghost predicate EndsExactly(p: Application, start: Disk, startedAt: string, d: Disk, receipt: Receipt, last: Phase)
    requires p.StageCount() == 4 ==> Admit(p, start.ledger).Ok?
  {
    && Exact(p, start, d, last, startedAt) && Succ(p, last).None? && d.receipt == Some(receipt)
    && (p.StageCount() == 4 ==> d.readable)
  }

  /** A run that completes passes from phase to phase and never goes astray. */
  lemma {:induction false} RunExact(p: Application, now: string, start: Disk, d: Disk, ph: Phase, startedAt: string,
    writes: nat)
    returns (last: Phase)
    requires ApplicationValid(p) && Fresh(p, start) && Exact(p, start, d, ph, startedAt)
    requires ph.Idle? ==> startedAt == now
    requires Run(Applying(p), now, d, writes).1.Completed?
    ensures EndsExactly(p, start, startedAt, Run(Applying(p), now, d, writes).0,
      Run(Applying(p), now, d, writes).1.receipt, last)
    decreases writes
  {
    hide At, Fresh, Blocked, ApplicationValid, Next, Stamped, Run, Exact, Astray;
    FreshShape(p, start);
    assert At(p, start, d, ph) by { ExactAt(p, start, d, ph, startedAt); }
    StepAt(p, now, start, d, ph);
    RunStep(p, now, d, writes);
    last := ph;
    if Next(p, now, d).Write? {
      var after := Next(p, now, d).disk;
      if GoesAstray(p, ph) {
        AstrayForever(p, now, start, after);
        RunStep(p, now, after, writes - 1);
        assert false;
      } else {
        ExactStep(p, now, start, d, ph, startedAt);
        SuccActive(p, ph);
        last := RunExact(p, now, start, after, Succ(p, ph).value, startedAt, writes - 1);
      }
    }
  }

  lemma ExactAt(p: Application, start: Disk, d: Disk, ph: Phase, startedAt: string)
    requires p.StageCount() == 4 ==> Admit(p, start.ledger).Ok?
    requires Exact(p, start, d, ph, startedAt)
    ensures At(p, start, d, ph)
  {}

  lemma SuccActive(p: Application, ph: Phase)
    requires Succ(p, ph).Some?
    ensures Succ(p, ph).value.Active?
  {}

  // ---------------------------------------------------------------- the outcome

  lemma {:induction false} StampedAt(p: Application, start: Disk, startedAt: string, n: nat, i: nat)
    requires p.StageCount() == 4 && Admit(p, start.ledger).Ok? && i < n <= 4
    ensures var r := Stamped(p, start, startedAt, n)[|start.ledger| + i];
      r.Sequence() == |start.ledger| + i + 1 && r.Id() == StageId(p, start, i)
  {
    hide Admit, StageAccounting, StageEvidence, Put;
    if i < n - 1 {
      StampedAt(p, start, startedAt, n - 1, i);
    }
  }

  lemma StampIsOurs(p: Application, start: Disk, startedAt: string, stage: nat)
    requires ApplicationValid(p) && p.StageCount() == 4 && Admit(p, start.ledger).Ok? && stage < 4
    ensures Get(Due(p, start, startedAt, stage).lease, "lease_id") == Some(Str(p.leaseId))
  {
    hide StageEvent, ApplicationValid, Get, LeaseUsable, WellChained;
    AdmitParts(p, start.ledger);
    StageEventShape(p, Admit(p, start.ledger).value.value, stage, startedAt, BundleIds(p));
  }

  lemma {:induction false} StampedOurs(p: Application, start: Disk, startedAt: string, n: nat)
    requires ApplicationValid(p) && p.StageCount() == 4 && Admit(p, start.ledger).Ok? && n <= 4
    ensures start.ledger <= Stamped(p, start, startedAt, n)
    ensures Ours(p, Stamped(p, start, startedAt, n))
      == Ours(p, start.ledger) + Stamped(p, start, startedAt, n)[|start.ledger|..]
  {
    hide Admit, StageEvent, ApplicationValid, Get, Ours;
    var base := Ours(p, start.ledger);
    if n == 0 {
      assert base + [] == base;
    } else {
      StampedOurs(p, start, startedAt, n - 1);
      var rows := Stamped(p, start, startedAt, n - 1);
      var e := Due(p, start, startedAt, n - 1);
      var r := Seal(p.hash, rows, e);
      StampIsOurs(p, start, startedAt, n - 1);
      assert OfLease(p, r);
      OursGrows(p, rows, r);
      assert (rows + [r])[|start.ledger|..] == rows[|start.ledger|..] + [r];
      Assoc(base, rows[|start.ledger|..], [r]);
    }
  }

  /** The disk of a finished application, spelled out: everything is determined by the start and one clock. */
  ghost function Final(p: Application, start: Disk, startedAt: string): Disk
    requires p.events != [] && Prepare(p, start.state, |p.events|).Some?
    requires p.StageCount() == 4 ==> Admit(p, start.ledger).Ok?
  {
    PrepareMeaning(p, start.state, |p.events|);
    var (records, states) := Prepare(p, start.state, |p.events|).value;
    var n, rows := |start.ledger|, Stamped(p, start, startedAt, p.StageCount());
    var ledgered := p.StageCount() == 4;
    var sequences := if ledgered then [Some(n + 1), Some(n + 2), Some(n + 3), Some(n + 4)]
      else [None, None, None, None];
    Disk(
      start.log + records, states[|p.events|], rows, start.readable,
      Some(Recovery(p.applicationId, startedAt, Receipted, |start.log|, LogHead(start.log), records, states,
                    |p.events|, sequences, true)),
      Some(Receipt(
        p.manifestSha,
        if p.variant.Role? then Some(startedAt) else None,
        if ledgered then Some(LedgerSummary(n + 1, n + 2, n + 3, Head(rows))) else None,
        BundleIds(p), |start.log|, |start.log| + |p.events|, LogHead(start.log + records))))
  }

  lemma {:induction false} LogPositions(p: Application, log: seq<LogRecord>, i: nat)
    requires LogOk(p, log) && i < |log|
    ensures log[i].body.sequence == i + 1
    ensures forall j: nat | j < i :: log[j].Id() != log[i].Id()
  {
    var n := |log| - 1;
    if i < n {
      LogPositions(p, log[..n], i);
      forall j: nat | j < i ensures log[j].Id() != log[i].Id() {
        assert log[..n][j] == log[j] && log[..n][i] == log[i];
      }
    } else {
      forall j: nat | j < i ensures log[j].Id() != log[i].Id() {
        assert log[..n][j].Id() == log[j].Id();
      }
    }
  }

  lemma FinalSupervisor(p: Application, start: Disk, d: Disk, rec: Recovery, ph: Phase)
    requires ph.Active? && Sound(p, ph) && FromStart(p, start, rec) && SupervisorAt(p, start, d, rec, ph)
    requires ph.counted == |p.events|
    ensures Prepare(p, start.state, |p.events|) == Some((rec.expected, rec.snapshots))
    ensures d.log == start.log + rec.expected && d.state == rec.snapshots[|p.events|] && rec.eventCount == |p.events|
    ensures rec.expected[|p.events| - 1].body.sequence == |start.log| + |p.events|
    ensures rec.expected[|p.events| - 1].eventHash == LogHead(d.log)
  {
    hide Prepare, LogOk, LogHead;
    assert rec.expected[..ph.logged] == rec.expected;
    assert d.log[|d.log| - 1] == rec.expected[|p.events| - 1];
    LogPositions(p, d.log, |d.log| - 1);
    HeadOfLog(d.log);
  }

  lemma HeadOfLog(log: seq<LogRecord>)
    requires log != []
    ensures LogHead(log) == log[|log| - 1].eventHash
  {}

  lemma SuffixIs<T>(front: seq<T>, back: seq<T>)
    ensures (front + back)[|front|..] == back
  {}

  lemma FinalStages(p: Application, start: Disk, d: Disk, rec: Recovery, marks: seq<Record>, startedAt: string)
    requires ApplicationValid(p) && Fresh(p, start) && p.StageCount() == 4 && CheckRecovery(p, rec).Ok?
    requires RowsAt(p, start.ledger, d.ledger, Some(rec), marks) && StagesAt(rec, marks, 4) && |marks| == 4
    requires d.ledger == Stamped(p, start, startedAt, 4)
    ensures var n := |start.ledger|;
      && rec.stageSequences == [Some(n + 1), Some(n + 2), Some(n + 3), Some(n + 4)]
      && Summary(p, d.ledger, rec).ledger == Some(LedgerSummary(n + 1, n + 2, n + 3, Head(d.ledger)))
  {
    hide Admit, StageEvent, ApplicationValid, Ours, Bare, StageRow, Stamped, Fresh, Prepare, AreMarks;
    FreshShape(p, start);
    var n := |start.ledger|;
    StampedOurs(p, start, startedAt, 4);
    SuffixIs(Ours(p, start.ledger), marks);
    SuffixIs(Ours(p, start.ledger), d.ledger[n..]);
    assert marks == d.ledger[n..];
    StampedAt(p, start, startedAt, 4, 0);
    StampedAt(p, start, startedAt, 4, 1);
    StampedAt(p, start, startedAt, 4, 2);
    StampedAt(p, start, startedAt, 4, 3);
    StageRowAt(p, start.ledger, d.ledger, Some(rec), marks, 0);
    StageRowAt(p, start.ledger, d.ledger, Some(rec), marks, 1);
    StageRowAt(p, start.ledger, d.ledger, Some(rec), marks, 2);
    StageRowAt(p, start.ledger, d.ledger, Some(rec), marks, 3);
  }

  lemma FinalIs(p: Application, start: Disk, d: Disk, ph: Phase, startedAt: string)
    requires ApplicationValid(p) && Fresh(p, start) && Exact(p, start, d, ph, startedAt) && Succ(p, ph).None?
    requires p.StageCount() == 4 ==> d.readable
    ensures p.events != [] && Prepare(p, start.state, |p.events|).Some? && d == Final(p, start, startedAt)
  {
    hide Admit, StageEvent, ApplicationValid, Ours, Bare, StageRow, Stamped, Fresh, Prepare, AreMarks, RowsAt,
      SupervisorAt, MarksOf, LogHead;
    EventsExist(p);
    FreshShape(p, start);
    var rec := d.recovery.value;
    var marks := MarksOf(p, start.ledger, d.ledger);
    FinalSupervisor(p, start, d, rec, ph);
    IdsOfBundle(p, rec);
    if p.StageCount() == 4 {
      FinalStages(p, start, d, rec, marks, startedAt);
    } else {
      assert rec.stageSequences == [None, None, None, None];
    }
    assert d.recovery == Final(p, start, startedAt).recovery;
    assert d.receipt == Final(p, start, startedAt).receipt;
  }

  /** The final disk under this clock, and the receipt on it as the answer. */
  ghost predicate LeavesFinal(p: Application, start: Disk, now: string, d: Disk, outcome: Outcome<Receipt, AppError>) {
    && p.events != [] && Prepare(p, start.state, |p.events|).Some?
    && (p.StageCount() == 4 ==> Admit(p, start.ledger).Ok?)
    && d == Final(p, start, now) && outcome.Completed? && d.receipt == Some(outcome.receipt)
  }

  ghost predicate FirstWriter(attempts: seq<Attempt>, i: nat) {
    i < |attempts| && attempts[i].writes > 0 && forall j | 0 <= j < i :: attempts[j].writes == 0
  }

  /**
   The outcome of an application, interrupted or not: a completed attempt leaves exactly one disk, determined by the
   starting disk and the clock of the first attempt that performed a write, and returns the receipt on it.
   */
  lemma {:induction false} UniqueOutcome(p: Application, start: Disk, attempts: seq<Attempt>)
    requires ApplicationValid(p) && Fresh(p, start) && attempts != []
    requires Runs(Applying(p), start, attempts).1.Completed?
    ensures exists i: nat | FirstWriter(attempts, i) ::
      LeavesFinal(p, start, attempts[i].now, Runs(Applying(p), start, attempts).0, Runs(Applying(p), start, attempts).1)
  {
    hide Runs, Run, ApplicationValid, Fresh, Exact, Final, WritesOf, Next, At;
    FreshShape(p, start);
    var i := CrashConvergence(p, start, attempts);
    StartExact(p, start, attempts[i].now);
    StartAt(p, start);
    FirstStep(p, attempts[i].now, start, start, Idle, WritesOf(attempts));
    var last := RunExact(p, attempts[i].now, start, start, Idle, attempts[i].now, WritesOf(attempts));
    FinalIs(p, start, Runs(Applying(p), start, attempts).0, last, attempts[i].now);
    assert FirstWriter(attempts, i);
    assert LeavesFinal(p, start, attempts[i].now, Runs(Applying(p), start, attempts).0,
      Runs(Applying(p), start, attempts).1);
  }

  /** The finished disk when other leases wrote in between: their rows lie anywhere, everything else is determined. */
  ghost predicate FinalAmid(p: Application, start: Disk, d: Disk)
    requires p.StageCount() == 4 ==> Admit(p, start.ledger).Ok?
  {
    && d.recovery.Some? && start.ledger <= d.ledger && FullyApplied(p, start, d)
    && var startedAt := d.recovery.value.startedAt;
       var rows := (i: nat) requires i < 4 => RowOf(p, d, i);
       && (p.StageCount() == 4 ==>
         forall i: nat | i < 4 :: rows(i).Some? && rows(i).value.Event() == Due(p, start, startedAt, i))
       && d.receipt == Some(Receipt(
            p.manifestSha,
            if p.variant.Role? then Some(startedAt) else None,
            if p.StageCount() == 0 then None else Some(LedgerSummary(
              rows(0).value.Sequence(), rows(1).value.Sequence(), rows(2).value.Sequence(), rows(3).value.eventHash)),
            BundleIds(p), |start.log|, |start.log| + |p.events|, LogHead(d.log)))
  }

  lemma OutcomeAmidOthers(p: Application, disks: seq<Disk>, now: string)
    requires ApplicationValid(p) && Reachable(p, disks) && Next(p, now, disks[|disks| - 1]).Done?
    ensures p.StageCount() == 4 ==> Admit(p, disks[0].ledger).Ok?
    ensures FinalAmid(p, disks[0], disks[|disks| - 1])
  {
    hide At, ApplicationValid, Fresh, Follows, Astray, Next, FinalAmid, Succ;
    var start, d := disks[0], disks[|disks| - 1];
    var ph := Reached(p, disks);
    FreshShape(p, start);
    if Astray(p, start, d) {
      AstrayForever(p, now, start, d);
      assert false;
    }
    StepAt(p, now, start, d, ph);
    FinishedAmid(p, start, d, ph);
  }

  lemma FinishedAmid(p: Application, start: Disk, d: Disk, ph: Phase)
    requires ApplicationValid(p) && Fresh(p, start) && At(p, start, d, ph) && Succ(p, ph).None?
    ensures p.StageCount() == 4 ==> Admit(p, start.ledger).Ok?
    ensures FinalAmid(p, start, d)
  {
    hide Admit, StageEvent, ApplicationValid, Ours, Bare, StageRow, Fresh, Prepare, MarksOf, LogHead, LogOk, CursorOk,
      Due;
    EventsExist(p);
    FreshShape(p, start);
    var rec := d.recovery.value;
    FinalSupervisor(p, start, d, rec, ph);
    IdsOfBundle(p, rec);
    assert FullyApplied(p, start, d);
    if p.StageCount() == 4 {
      var marks := MarksOf(p, start.ledger, d.ledger);
      MarksFound(p, start, d.ledger, d.recovery, marks);
      forall i: nat | i < 4 ensures RowOf(p, d, i) == Some(marks[i])
        && marks[i].Event() == Due(p, start, rec.startedAt, i)
      {
        NextIsDue(p, start, rec, i);
      }
    }
  }

  lemma StartExact(p: Application, start: Disk, now: string)
    requires Fresh(p, start)
    ensures Exact(p, start, start, Idle, now)
  {
    StartAt(p, start);
  }

  // ---------------------------------------------------------------- exactly when an application completes

  /** A completed run proves that nothing stood in its way. */
  lemma CompletedWasClear(p: Application, now: string, start: Disk, writes: nat)
    requires ApplicationValid(p) && Fresh(p, start) && Run(Applying(p), now, start, writes).1.Completed?
    ensures StartClear(p, start)
    ensures StagesClear(p, start, start, now)
  {
    hide Run, ApplicationValid, Fresh, Exact, Final, StartClear, StagesClear;
    StartExact(p, start, now);
    var last := RunExact(p, now, start, start, Idle, now, writes);
    var d := Run(Applying(p), now, start, writes).0;
    FinalClear(p, start, d, last, now);
    FirstSteps(p, now, start, writes);
    FinalEvents(p, start, d, last, now);
    assert StartClear(p, start) by { ClearParts(p, start); }
  }

  lemma ClearParts(p: Application, start: Disk)
    requires MayBegin(p, start).Ok? && Prepare(p, start.state, |p.events|).Some?
    requires LogOk(p, start.log) && CursorOk(start.log, start.state) && EventsClear(p, start) && !p.recoveryControlled
    ensures StartClear(p, start)
  {}

  /** A run that completes later begins with a write that was not blocked. */
  lemma FirstStep(p: Application, now: string, start: Disk, d: Disk, ph: Phase, writes: nat)
    requires ApplicationValid(p) && Fresh(p, start) && At(p, start, d, ph) && Succ(p, ph).Some?
    requires Run(Applying(p), now, d, writes).1.Completed?
    ensures Admit(p, start.ledger).Ok? && !Blocked(p, start, d, ph) && Next(p, now, d).Write? && writes > 0
    ensures !GoesAstray(p, ph) ==> At(p, start, Next(p, now, d).disk, Succ(p, ph).value)
    ensures Run(Applying(p), now, Next(p, now, d).disk, writes - 1).1.Completed?
  {
    hide ApplicationValid, Fresh, At, Next, Blocked, Run, Succ, GoesAstray, Astray;
    FreshShape(p, start);
    StepAt(p, now, start, d, ph);
    RunStep(p, now, d, writes);
  }

  /** The first two actions of a completed run were writes. */
  lemma FirstSteps(p: Application, now: string, start: Disk, writes: nat)
    requires ApplicationValid(p) && Fresh(p, start) && Run(Applying(p), now, start, writes).1.Completed?
    ensures MayBegin(p, start).Ok? && Prepare(p, start.state, |p.events|).Some?
    ensures LogOk(p, start.log) && CursorOk(start.log, start.state) && !p.recoveryControlled
  {
    hide ApplicationValid, Fresh, At, Next, MayBegin, Prepare, LogOk, InLog, CursorOk, HasId, Run, Admit;
    EventsExist(p);
    StartAt(p, start);
    var begun := Active(0, false, 0, 0, 0, false, false);
    FirstStep(p, now, start, start, Idle, writes);
    var after := Next(p, now, start).disk;
    FirstStep(p, now, start, after, begun, writes - 1);
    RecoveryAt(p, start, after, begun);
    StartLogOk(p, start, after);
  }

  lemma StartLogOk(p: Application, start: Disk, d: Disk)
    requires At(p, start, d, Active(0, false, 0, 0, 0, false, false)) && CheckRecovery(p, d.recovery.value).Ok?
    ensures LogOk(p, start.log)
  {
    hide RowsAt, MarksOf, LogOk, CheckRecovery, CursorOk;
    assert start.log + d.recovery.value.expected[..0] == start.log;
  }

  lemma FinalEvents(p: Application, start: Disk, d: Disk, ph: Phase, startedAt: string)
    requires ApplicationValid(p) && Fresh(p, start) && Exact(p, start, d, ph, startedAt) && Succ(p, ph).None?
    ensures EventsClear(p, start)
  {
    hide Admit, ApplicationValid, Fresh, LogOk, InLog, RowsAt, MarksOf, Stamped, CursorOk, CheckRecovery, ReceiptAt,
      StagesAt, Trimmed;
    var rec := d.recovery.value;
    var n := |start.log|;
    assert rec.expected[..ph.logged] == rec.expected;
    ExpectedIds(p, rec);
    assert forall i | 0 <= i < |p.events| :: Trimmed(p.events[i]) == p.events[i];
    forall i | 0 <= i < |p.events| ensures !InLog(start.log, p.events[i].eventId) {
      LogPositions(p, d.log, n + i);
      assert d.log[n + i] == rec.expected[i];
      assert forall j: nat | j < n :: d.log[j] == start.log[j];
      NotInLog(start.log, p.events[i].eventId);
    }
    forall i, j | 0 <= i < j < |p.events| ensures p.events[i].eventId != p.events[j].eventId {
      LogPositions(p, d.log, n + j);
      assert d.log[n + i] == rec.expected[i] && d.log[n + j] == rec.expected[j];
    }
  }

  lemma NotInLog(log: seq<LogRecord>, id: string)
    requires forall j: nat | j < |log| :: log[j].Id() != id
    ensures !InLog(log, id)
  {}

  lemma ExpectedIds(p: Application, rec: Recovery)
    requires CheckRecovery(p, rec).Ok?
    ensures |rec.expected| == |p.events| && forall i | 0 <= i < |p.events| ::
      rec.expected[i].Id() == p.events[i].eventId
  {
    ProjectionOf(p, rec);
    forall i | 0 <= i < |p.events| ensures rec.expected[i].Id() == p.events[i].eventId {
      assert Advance(p, rec.snapshots[i], p.events[i]) == Some((rec.expected[i], rec.snapshots[i + 1]));
    }
  }

  lemma FinalClear(p: Application, start: Disk, d: Disk, ph: Phase, startedAt: string)
    requires ApplicationValid(p) && Fresh(p, start) && Exact(p, start, d, ph, startedAt) && Succ(p, ph).None?
    requires p.StageCount() == 4 ==> d.readable
    ensures StagesClear(p, start, start, startedAt)
  {
    hide Admit, ApplicationValid, LogOk, InLog, MarksOf, Stamped, CursorOk, CheckRecovery, ReceiptAt, StagesAt,
      SupervisorAt, HasId, IsTimestamp, EventSeparated, OneLine, StageEvent, Due;
    FreshShape(p, start);
    if p.StageCount() == 4 {
      var n := |start.ledger|;
      assert WellChained(p.hash, d.ledger);
      forall i: nat | i < 4
        ensures d.ledger[n + i].Id() == StageId(p, start, i) && !HasId(start.ledger, StageId(p, start, i))
        ensures !EventSeparated(Due(p, start, startedAt, i))
      {
        StampedAt(p, start, startedAt, 4, i);
        NotInRows(start.ledger, d.ledger, n + i);
        StampedReads(p, start, startedAt, d.ledger, i);
      }
      StampedReads(p, start, startedAt, d.ledger, 0);
      forall i: nat, j: nat | i < j < 4 ensures StageId(p, start, i) != StageId(p, start, j) {
        assert d.ledger[n + i].Id() != d.ledger[n + j].Id();
      }
    }
  }

  /** A stamped row that reads back holds no separator, and its timestamp is one. */
  lemma StampedReads(p: Application, start: Disk, startedAt: string, rows: seq<Record>, i: nat)
    requires ApplicationValid(p) && p.StageCount() == 4 && Admit(p, start.ledger).Ok? && i < 4
    requires rows == Stamped(p, start, startedAt, 4) && WellChained(p.hash, rows) && AllOneLine(rows[|start.ledger|..])
    ensures !EventSeparated(Due(p, start, startedAt, i)) && IsTimestamp(startedAt)
  {
    hide Admit, ApplicationValid, IsTimestamp, EventSeparated, OneLine, StageAccounting, StageEvidence, Put,
      WellChained;
    var n := |start.ledger|;
    StampedRow(p, start, startedAt, 4, i);
    var before := Stamped(p, start, startedAt, i);
    assert rows[n + i] in rows[n..] by { assert rows[n..][i] == rows[n + i]; }
    PrefixWellChained(p.hash, rows, n + i);
    assert HexHash(p.hash) by { PlainHashes(p); }
    SealOneLine(p.hash, before, Due(p, start, startedAt, i));
    assert EventOk(rows[n + i].Event()) by { LinkedAt(p.hash, rows, n + i); }
  }

  lemma LinkedAt(hash: Hash, rows: seq<Record>, i: nat)
    requires WellChained(hash, rows) && i < |rows|
    ensures EventOk(rows[i].Event())
  {
    assert Linked(hash, rows, i);
  }

  lemma {:induction false} StampedRow(p: Application, start: Disk, startedAt: string, n: nat, i: nat)
    requires p.StageCount() == 4 && Admit(p, start.ledger).Ok? && i < n <= 4
    ensures var rows := Stamped(p, start, startedAt, n);
      && rows[..|start.ledger| + i] == Stamped(p, start, startedAt, i)
      && rows[|start.ledger| + i] == Seal(p.hash, Stamped(p, start, startedAt, i), Due(p, start, startedAt, i))
  {
    hide Admit, StageEvent, Due;
    if i < n - 1 {
      StampedRow(p, start, startedAt, n - 1, i);
      assert Stamped(p, start, startedAt, n)[..|start.ledger| + i]
        == Stamped(p, start, startedAt, n - 1)[..|start.ledger| + i];
    }
  }

  lemma NotInRows(rows: seq<Record>, longer: seq<Record>, k: nat)
    requires rows <= longer && |rows| <= k < |longer|
    requires forall i, j | 0 <= i < j < |longer| :: longer[i].Id() != longer[j].Id()
    ensures !HasId(rows, longer[k].Id())
  {}

  /**
   An application completes exactly when it may begin, the Supervisor takes events without a recovery control, no event
   or stage identity is taken or repeated, no event has blanks to trim, its clock is a timestamp, the ledger can be
   read, and no stage row holds a line separator; then it takes at most 3n + 11 durable writes, however they are spread
   over attempts.
   */
  lemma CompletesIff(p: Application, now: string, start: Disk, writes: nat)
    requires ApplicationValid(p) && Fresh(p, start) && writes >= Work(p, Idle)
    ensures p.StageCount() == 4 ==> Admit(p, start.ledger).Ok?
    ensures Run(Applying(p), now, start, writes).1.Completed? <==>
      StartClear(p, start) && StagesClear(p, start, start, now)
    ensures Work(p, Idle) <= 3 * |p.events| + 11
  {
    hide Run, ApplicationValid, Fresh, StartClear, StagesClear;
    FreshShape(p, start);
    StartAt(p, start);
    if Run(Applying(p), now, start, writes).1.Completed? {
      CompletedWasClear(p, now, start, writes);
    }
    if StartClear(p, start) && StagesClear(p, start, start, now) {
      CompletesAfter(p, now, start, start, Idle, writes);
    }
  }

  /**
   From any crash state, other leases' rows included, one more run with enough writes finishes the same transaction.
   */
  lemma ResumesToTheEnd(p: Application, disks: seq<Disk>, now: string, writes: nat)
    requires ApplicationValid(p) && Reachable(p, disks) && writes >= 3 * |p.events| + 11
    requires StartClear(p, disks[0]) && StagesClear(p, disks[0], disks[|disks| - 1], now)
    ensures Run(Applying(p), now, disks[|disks| - 1], writes).1.Completed?
  {
    hide Run, ApplicationValid, Fresh, StagesClear, At, Follows, LogOk, CursorOk, Prepare, InLog, RowsAt, FromStart,
      MayBegin, Trimmed;
    var ph := Reached(p, disks);
    SoundAt(p, disks[0], disks[|disks| - 1], ph);
    CompletesAfter(p, now, disks[0], disks[|disks| - 1], ph, writes);
  }

  // ---------------------------------------------------------------- what reconciliation accepts

  /** The disk is `k` events into the recovery record's projection, its state there or one behind. */
  ghost predicate Trails(d: Disk, rec: Recovery, k: nat, stale: bool)
    requires |rec.snapshots| == |rec.expected| + 1
  {
    && 0 <= rec.sequenceBefore <= |d.log|
    && LogHead(d.log[..rec.sequenceBefore]) == rec.headBefore
    && k <= |rec.expected| && d.log[rec.sequenceBefore..] == rec.expected[..k]
    && (stale ==> k > 0) && d.state == rec.snapshots[if stale then k - 1 else k]
  }

  /**
   Reconciliation accepts exactly a verified log whose suffix is a prefix of the projection, with the state there or one
   behind.
   */
  lemma ReconcileExact(p: Application, d: Disk, rec: Recovery, k: nat, stale: bool)
    requires CheckRecovery(p, rec).Ok?
    ensures Reconcile(p, d, rec) == Ok((k, stale)) <==> LogOk(p, d.log) && Trails(d, rec, k, stale)
  {
    hide LogOk, LogHead, CheckRecovery;
    RecoveryShape(p, rec);
    if LogOk(p, d.log) && Trails(d, rec, k, stale) {
      assert |d.log[rec.sequenceBefore..]| == k;
      if stale {
        SnapshotsDiffer(p, rec, k);
      }
    }
  }

  lemma SnapshotsDiffer(p: Application, rec: Recovery, k: nat)
    requires CheckRecovery(p, rec).Ok? && 0 < k < |rec.snapshots|
    ensures rec.snapshots[k - 1] != rec.snapshots[k]
  {
    hide Prepare;
    ProjectionOf(p, rec);
    SnapshotSequence(p, rec.expected, rec.snapshots, |p.events|, k - 1);
    SnapshotSequence(p, rec.expected, rec.snapshots, |p.events|, k);
  }
}
