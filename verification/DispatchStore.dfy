/**
 The application as the program performs it: files changed step by step, each change possibly the last one before the
 process dies. Every run is shown to be the run of the step semantics.
 */
module DispatchStore {
  import opened Common
  import opened JsonText
  import opened Ledger
  import opened LedgerFile
  import opened LedgerFraming
  import opened Resumption
  import opened DispatchApplication
  import opened DispatchRows
  import opened DispatchPhases
  import opened DispatchSafety

  // ---------------------------------------------------------------- facts about single disks

  lemma CountingNext(p: Application, now: string, d: Disk, rec: Recovery, k: nat, stale: bool)
    requires Resuming(p, d, rec) && d.receipt.None? && Reconcile(p, d, rec) == Ok((k, stale))
    ensures stale ==> Next(p, now, d) == Write(d.(state := rec.snapshots[k]))
    ensures !stale && !CursorOk(d.log, d.state) ==> Next(p, now, d) == Fail(RuntimeCursor)
    ensures !stale && CursorOk(d.log, d.state) && rec.eventCount != k ==>
      Next(p, now, d) == Write(d.(recovery := Some(AtCount(p, rec, k))))
  {
    hide Admit, LogOk, CheckRecovery, Reconcile, NextStage, CursorOk, ApplyNext;
    NextResumes(p, now, d, rec);
  }

  lemma ApplyingNext(p: Application, now: string, d: Disk, rec: Recovery, k: nat)
    requires Counted(p, d, rec, k) && k < |p.events|
    ensures Next(p, now, d) == ApplyNext(p, d, k)
  {
    hide Admit, LogOk, CheckRecovery, Reconcile, NextStage, CursorOk, ApplyNext;
    NextResumes(p, now, d, rec);
  }

  lemma FailingNext(p: Application, now: string, d: Disk, rec: Recovery)
    requires Resuming(p, d, rec) && d.receipt.None? && Reconcile(p, d, rec).Err?
    ensures Next(p, now, d) == Fail(Reconcile(p, d, rec).error)
  {
    hide Admit, LogOk, CheckRecovery, Reconcile, NextStage, CursorOk, ApplyNext;
    NextResumes(p, now, d, rec);
  }

  /** A run that is about to resume: the ledger admits it and the recovery record is its own. */
  ghost predicate Resuming(p: Application, d: Disk, rec: Recovery) {
    && Admit(p, d.ledger).Ok? && d.recovery == Some(rec) && CheckRecovery(p, rec).Ok?
    && (p.StageCount() == 4 ==> d.readable) && (p.variant.Role? ==> LogOk(p, d.log))
  }

  lemma NextResumes(p: Application, now: string, d: Disk, rec: Recovery)
    requires Resuming(p, d, rec)
    ensures Next(p, now, d) == Resume(p, d, rec, Admit(p, d.ledger).value)
  {
    hide Admit, LogOk, Resume, CheckRecovery, Begin;
  }

  lemma NewRecoveryChecks(p: Application, now: string, d: Disk)
    requires p.events != [] && Prepare(p, d.state, |p.events|).Some?
    ensures var (records, states) := Prepare(p, d.state, |p.events|).value;
      CheckRecovery(p, NewRecovery(p, now, d, records, states)).Ok?
  {
    PrepareMeaning(p, d.state, |p.events|);
  }

  /** Bookkeeping in the recovery record changes neither its validity nor reconciliation. */
  lemma Bookkeeping(p: Application, d: Disk, rec: Recovery, next: Recovery)
    requires CheckRecovery(p, rec).Ok? && |next.stageSequences| == 4
    requires next == rec.(eventCount := next.eventCount, status := next.status,
                          stageSequences := next.stageSequences, receiptCreated := next.receiptCreated)
    ensures CheckRecovery(p, next).Ok? && EventIds(next) == EventIds(rec)
    ensures Reconcile(p, d.(recovery := Some(next)), next) == Reconcile(p, d, rec)
  {
    hide LogOk, Prepare;
  }

  /** Reconciled and counted up to `k`. */
  ghost predicate Counted(p: Application, d: Disk, rec: Recovery, k: nat) {
    && Resuming(p, d, rec) && d.receipt.None? && rec.eventCount == k
    && Reconcile(p, d, rec) == Ok((k, false)) && CursorOk(d.log, d.state)
  }

  /** One event applied: with nothing to trim the record is the expected one and the state the next snapshot. */
  lemma ApplyOne(p: Application, d: Disk, rec: Recovery, k: nat)
    requires Counted(p, d, rec, k) && k < |p.events| && Trimmed(p.events[k]) == p.events[k]
      && !InLog(d.log, p.events[k].eventId)
    ensures Advance(p, d.state, p.events[k]).Some?
    ensures var (record, state) := Advance(p, d.state, p.events[k]).value;
      && k + 1 < |rec.snapshots| && state == rec.snapshots[k + 1]
      && LogOk(p, d.log + [record])
      && Reconcile(p, d.(log := d.log + [record]), rec) == Ok((k + 1, true))
      && Reconcile(p, d.(log := d.log + [record], state := state), rec) == Ok((k + 1, false))
      && CursorOk(d.log + [record], state)
  {
    hide LogOk, Prepare, Admit, Reconcile, InLog, LogHead, CheckRecovery;
    ReconcileExact(p, d, rec, k, false);
    ExpectedNext(p, rec, k);
    var log := d.log + [rec.expected[k]];
    LogGrows(p, d.log, rec.expected[k]);
    assert log[rec.sequenceBefore..] == rec.expected[..k + 1];
    assert log[..rec.sequenceBefore] == d.log[..rec.sequenceBefore];
    HeadOfLog(log);
    ReconcileExact(p, d.(log := log), rec, k + 1, true);
    ReconcileExact(p, d.(log := log, state := rec.snapshots[k + 1]), rec, k + 1, false);
  }

  /** With something to trim the record is another one, and reconciliation refuses the log whatever the state. */
  lemma ApplyStray(p: Application, d: Disk, rec: Recovery, k: nat, state: Runtime)
    requires Counted(p, d, rec, k) && k < |p.events| && Trimmed(p.events[k]) != p.events[k]
    requires !InLog(d.log, Trimmed(p.events[k]).eventId)
    ensures Advance(p, d.state, Trimmed(p.events[k])).Some?
    ensures var record := Advance(p, d.state, Trimmed(p.events[k])).value.0;
      LogOk(p, d.log + [record]) && Reconcile(p, d.(log := d.log + [record], state := state), rec) == Err(EventSuffix)
  {
    hide LogOk, Prepare, Admit, InLog, LogHead, CheckRecovery, Trimmed;
    ExpectedNext(p, rec, k);
    TrimmedAdvance(p, rec.snapshots[k], p.events[k]);
    var record := Advance(p, d.state, Trimmed(p.events[k])).value.0;
    var log := d.log + [record];
    assert d.log[rec.sequenceBefore..] == rec.expected[..k];
    LogGrows(p, d.log, record);
    assert log[..rec.sequenceBefore] == d.log[..rec.sequenceBefore];
    assert log[rec.sequenceBefore..][k] == record;
  }

  lemma StateRepaired(p: Application, d: Disk, rec: Recovery, k: nat, stale: bool)
    requires CheckRecovery(p, rec).Ok? && Reconcile(p, d, rec) == Ok((k, stale))
    ensures Reconcile(p, d.(state := rec.snapshots[k]), rec) == Ok((k, false))
    ensures !stale ==> d.(state := rec.snapshots[k]) == d
  {
    hide LogOk, Prepare;
  }

  /** The Supervisor part is over, or the receipt already says so. */
  ghost predicate Finalizing(p: Application, d: Disk, rec: Recovery) {
    && Resuming(p, d, rec) && rec.eventCount == |p.events|
    && (d.receipt.None? ==> Reconcile(p, d, rec) == Ok((|p.events|, false)) && CursorOk(d.log, d.state))
  }

  lemma NextFinalizes(p: Application, now: string, d: Disk, rec: Recovery)
    requires Finalizing(p, d, rec)
    ensures Next(p, now, d) == NextStage(p, d, rec, Admit(p, d.ledger).value, 0)
  {
    hide Admit, LogOk, CheckRecovery, Reconcile, NextStage, CursorOk;
    NextResumes(p, now, d, rec);
    assert rec.expected != [] && |rec.stageSequences| == 4 by { RecoveryShape(p, rec); }
  }

  lemma FinalizingShape(p: Application, d: Disk, rec: Recovery)
    requires Finalizing(p, d, rec)
    ensures rec.expected != [] && |rec.stageSequences| == 4
  {}

  // ---------------------------------------------------------------- stages out of order

  predicate Missing(p: Application, rows: seq<Record>, stage: nat)
    requires stage < 4
  {
    StageRow(p, rows, stage) == Ok(None)
  }

  predicate Present(p: Application, rows: seq<Record>, stage: nat)
    requires stage < 4
  {
    StageRow(p, rows, stage).Ok? && StageRow(p, rows, stage).value.Some?
  }

  /** No stage row stands after a missing one. */
  ghost predicate InOrder(p: Application, rows: seq<Record>) {
    forall i: nat, j: nat | i < j < 4 && Missing(p, rows, i) :: !Present(p, rows, j)
  }

  /** The first missing stages are those from `i` to before `j`, and `j` is there. */
  ghost predicate FirstGap(p: Application, rows: seq<Record>, i: nat, j: nat) {
    && i < j < 4 && Present(p, rows, j)
    && (forall k: nat | k < i :: Present(p, rows, k))
    && (forall k: nat | i <= k < j :: Missing(p, rows, k))
  }

  /** What finalization would append, or did. */
  function DueNow(p: Application, rec: Recovery, grant: Record, stage: nat): Event
    requires stage < 4
  {
    StageEvent(p, grant, stage, rec.startedAt, EventIds(rec))
  }

  /** A row that is there is this application's; one that is missing can be appended and read back. */
  ghost predicate Passes(p: Application, rows: seq<Record>, rec: Recovery, grant: Record, stage: nat)
    requires stage < 4
  {
    if Present(p, rows, stage) then
      var row := StageRow(p, rows, stage).value.value;
      row.Event() == StageEvent(p, grant, stage, row.Event().timestamp, EventIds(rec))
    else
      var due := DueNow(p, rec, grant, stage);
      Missing(p, rows, stage) && EventOk(due) && !HasId(rows, due.eventId) && !EventSeparated(due)
  }

  /**
   Exactly when finalization is refused at stage `j`: everything before passes, with a gap, and `j` is there already.
   */
  ghost predicate Refused(p: Application, rows: seq<Record>, rec: Recovery, grant: Record, j: nat) {
    && j < 4 && (exists i: nat :: FirstGap(p, rows, i, j))
    && (forall k: nat | k < j :: Passes(p, rows, rec, grant, k))
    && (forall k: nat, l: nat | k < l < j && Missing(p, rows, k) && Missing(p, rows, l) ::
          DueNow(p, rec, grant, k).eventId != DueNow(p, rec, grant, l).eventId)
  }

  /** A refusal at `j` fills the gap before it and leaves the later stages as they were. */
  ghost predicate Fills(p: Application, rows: seq<Record>, after: seq<Record>, j: nat) {
    && (exists i: nat :: FirstGap(p, rows, i, j))
    && (forall k: nat | k < j :: Present(p, after, k))
    && (forall k: nat | j <= k < 4 :: StageRow(p, after, k) == StageRow(p, rows, k))
  }

  ghost predicate StagePassed(p: Application, rows: seq<Record>, rec: Recovery, grant: Record, stage: nat)
    requires stage < 4 && |rec.stageSequences| == 4
  {
    && StageRow(p, rows, stage).Ok? && StageRow(p, rows, stage).value.Some?
    && var row := StageRow(p, rows, stage).value.value;
       && row.Event() == StageEvent(p, grant, stage, row.Event().timestamp, EventIds(rec))
       && rec.stageSequences[stage] == Some(row.Sequence())
  }

  /** Every stage before `stage` is in the ledger and in the recovery record. */
  ghost predicate PassedTo(p: Application, rows: seq<Record>, rec: Recovery, grant: Record, stage: nat) {
    |rec.stageSequences| == 4 && forall i: nat | i < stage && i < 4 :: StagePassed(p, rows, rec, grant, i)
  }

  lemma {:induction false} PassedNext(p: Application, d: Disk, rec: Recovery, grant: Record, from: nat, stage: nat)
    requires p.StageCount() == 4 && from <= stage <= 4 && rec.expected != [] && PassedTo(p, d.ledger, rec, grant, stage)
    ensures NextStage(p, d, rec, Some(grant), from) == NextStage(p, d, rec, Some(grant), stage)
    decreases stage - from
  {
    hide StageRow, StageEvent, NextReceipt, EventOk, HasId;
    if from < stage {
      assert StagePassed(p, d.ledger, rec, grant, from);
      PassedNext(p, d, rec, grant, from + 1, stage);
    }
  }

  /** Appending a missing stage row keeps the admission and every other stage. */
  lemma AppendStage(p: Application, rows: seq<Record>, stage: nat, e: Event)
    requires ApplicationValid(p) && p.StageCount() == 4 && Admit(p, rows).Ok? && stage < 4
    requires StageRow(p, rows, stage) == Ok(None) && EventOk(e) && !HasId(rows, e.eventId)
    requires e.eventType == STAGES[stage] && Get(e.lease, "lease_id") == Some(Str(p.leaseId))
    requires Get(e.evidence, "schedule_manifest_sha256") == Some(Str(p.manifestSha))
    ensures var r := Seal(p.hash, rows, e);
      && Admit(p, rows + [r]) == Admit(p, rows)
      && StageRow(p, rows + [r], stage) == Ok(Some(r))
      && forall i: nat | i < 4 && i != stage :: StageRow(p, rows + [r], i) == StageRow(p, rows, i)
  {
    hide Admit, Ours, LeaseUsable, Get, EventOk, HasId, ApplicationValid, Usable, WellChained, Matching, OfType;
    var r := Seal(p.hash, rows, e);
    assert OfLease(p, r) && Manifested(p, r) && r.Type() == STAGES[stage];
    EventsExist(p);
    AdmitParts(p, rows);
    SealExtends(p.hash, rows, e);
    MatchingOurs(p, rows, STAGES[stage]);
    SameGrantOwn(p, rows, r, stage);
    forall i: nat | i < 4 ensures Matching(p, rows + [r], STAGES[i]) == Matching(p, rows, STAGES[i]) + if i == stage
      then [r] else []
    {
      MatchingOurs(p, rows, STAGES[i]);
      MatchingOurs(p, rows + [r], STAGES[i]);
      OfTypeGrows(Ours(p, rows), r, STAGES[i]);
      StagesDiffer(i, stage);
    }
    forall i: nat | i < 4 && i != stage ensures StageRow(p, rows + [r], i) == StageRow(p, rows, i) {
      assert Matching(p, rows, STAGES[i]) + [] == Matching(p, rows, STAGES[i]);
    }
    assert [] + [r] == [r];
  }

  /** One stage row found, or appended: the other stages stay, and the only new identity is the due one. */
  ghost predicate Grown(p: Application, before: seq<Record>, after: seq<Record>, rec: Recovery, grant: Record,
    stage: nat)
    requires stage < 4
  {
    && before <= after && Present(p, after, stage)
    && (forall i: nat | i < 4 && i != stage :: StageRow(p, after, i) == StageRow(p, before, i))
    && (forall id ::
      HasId(after, id) <==>
      HasId(before, id) || (Missing(p, before, stage) && id == DueNow(p, rec, grant, stage).eventId))
  }

  /** The first missing stages start at `i`, as far as stage `j`. */
  ghost predicate Split(p: Application, rows: seq<Record>, i: nat, j: nat) {
    && i < j <= 4
    && (forall k: nat | k < i :: Present(p, rows, k))
    && (forall k: nat | i <= k < j :: Missing(p, rows, k))
  }

  /** The finalization loop before stage `stage`, having started on `start`. */
  ghost predicate Before(p: Application, start: seq<Record>, rows: seq<Record>, rec: Recovery, grant: Record,
    stage: nat, seen: bool)
  {
    && stage <= 4
    && (forall k: nat | k < stage :: Present(p, rows, k) && Passes(p, start, rec, grant, k))
    && (forall k: nat | stage <= k < 4 :: StageRow(p, rows, k) == StageRow(p, start, k))
    && (if seen then exists i: nat :: Split(p, start, i, stage) else forall k: nat | k < stage :: Present(p, start, k))
    && DueApart(p, start, rec, grant, stage)
    && (forall id :: HasId(rows, id) <==> HasId(start, id) || Appended(p, start, rec, grant, stage, id))
  }

  ghost predicate DueApart(p: Application, rows: seq<Record>, rec: Recovery, grant: Record, stage: nat) {
    forall k: nat, l: nat | k < l < stage && l < 4 && Missing(p, rows, k) && Missing(p, rows, l) ::
      DueNow(p, rec, grant, k).eventId != DueNow(p, rec, grant, l).eventId
  }

  ghost predicate Appended(p: Application, rows: seq<Record>, rec: Recovery, grant: Record, stage: nat, id: string) {
    exists l: nat :: l < stage && l < 4 && Missing(p, rows, l) && DueNow(p, rec, grant, l).eventId == id
  }

  lemma StartsBefore(p: Application, start: seq<Record>, rec: Recovery, grant: Record)
    ensures Before(p, start, start, rec, grant, 0, false)
  {}

  lemma MissingOrPresent(p: Application, rows: seq<Record>, stage: nat)
    requires stage < 4
    ensures StageRow(p, rows, stage) == Ok(None) <==> Missing(p, rows, stage)
    ensures StageRow(p, rows, stage).Ok? && StageRow(p, rows, stage) != Ok(None) <==> Present(p, rows, stage)
    ensures !(Missing(p, rows, stage) && Present(p, rows, stage))
  {
    hide StageRow;
  }

  lemma RefusesHere(p: Application, start: seq<Record>, rows: seq<Record>, rec: Recovery, grant: Record, stage: nat)
    requires stage < 4 && Before(p, start, rows, rec, grant, stage, true) && Present(p, rows, stage)
    ensures Refused(p, start, rec, grant, stage) && Fills(p, start, rows, stage)
    ensures forall j: nat :: Refused(p, start, rec, grant, j) ==> j == stage
  {
    hide StageRow, Passes, DueNow, HasId;
    var i: nat :| Split(p, start, i, stage);
    assert FirstGap(p, start, i, stage);
    forall j: nat | Refused(p, start, rec, grant, j) ensures j == stage {
      var other: nat :| FirstGap(p, start, other, j);
      OneGap(p, start, i, stage, other, j);
    }
  }

  /** There is one first gap. */
  lemma OneGap(p: Application, rows: seq<Record>, i: nat, j: nat, k: nat, l: nat)
    requires FirstGap(p, rows, i, j) && FirstGap(p, rows, k, l)
    ensures i == k && j == l
  {
    hide StageRow;
    assert Missing(p, rows, i) && Missing(p, rows, k) && Present(p, rows, j) && Present(p, rows, l);
    assert !Present(p, rows, i) && !Present(p, rows, k) && !Missing(p, rows, j) && !Missing(p, rows, l);
  }

  /** A refusal to come lies ahead. */
  lemma RefusalAhead(p: Application, start: seq<Record>, stage: nat, seen: bool, i: nat, j: nat)
    requires stage < 4 && FirstGap(p, start, i, j) && !(seen && Present(p, start, stage))
    requires if seen then exists k: nat ::
      Split(p, start, k, stage) else forall k: nat | k < stage :: Present(p, start, k)
    ensures stage < j
  {
    hide StageRow;
    assert Missing(p, start, i) && Present(p, start, j);
    if seen {
      var first: nat :| Split(p, start, first, stage);
      assert i < first ==> Present(p, start, i);
      assert first <= j < stage ==> Missing(p, start, j);
    } else {
      assert i < stage ==> Present(p, start, i);
    }
  }

  /** Finalization is refused at no stage behind, and if it will be at one ahead then this stage passes. */
  lemma StopsHere(p: Application, start: seq<Record>, rows: seq<Record>, rec: Recovery, current: Recovery,
    grant: Record, stage: nat, seen: bool, j: nat)
    requires stage < 4 && Before(p, start, rows, rec, grant, stage, seen) && !(seen && Present(p, rows, stage))
    requires EventIds(current) == EventIds(rec) && current.startedAt == rec.startedAt
    requires Refused(p, start, rec, grant, j)
    ensures j > stage && Passes(p, rows, current, grant, stage)
  {
    hide StageRow, HasId, EventOk, EventSeparated, StageEvent, Split, FirstGap;
    var i: nat :| FirstGap(p, start, i, j);
    RefusalAhead(p, start, stage, seen, i, j);
    assert Passes(p, start, rec, grant, stage);
    assert DueNow(p, current, grant, stage) == DueNow(p, rec, grant, stage);
    assert Missing(p, start, stage) ==> !Appended(p, start, rec, grant, stage, DueNow(p, rec, grant, stage).eventId);
  }

  lemma GoesOn(p: Application, start: seq<Record>, rows: seq<Record>, after: seq<Record>, rec: Recovery,
    current: Recovery, grant: Record, stage: nat, seen: bool)
    requires stage < 4 && Before(p, start, rows, rec, grant, stage, seen) && !(seen && Present(p, rows, stage))
    requires EventIds(current) == EventIds(rec) && current.startedAt == rec.startedAt
    requires Passes(p, rows, current, grant, stage) && Grown(p, rows, after, current, grant, stage)
    ensures Before(p, start, after, rec, grant, stage + 1, seen || Missing(p, rows, stage))
  {
    hide StageRow, HasId, EventOk, EventSeparated, StageEvent, DueNow;
    assert DueNow(p, current, grant, stage)
      == DueNow(p, rec, grant, stage) by { SameDue(p, current, rec, grant, stage); }
    assert Missing(p, start, stage) <==> Missing(p, rows, stage);
    PassedBefore(p, start, rows, rec, current, grant, stage, seen);
    SplitNext(p, start, stage, seen);
    forall k: nat | k < stage ensures Present(p, after, k) {
      assert Present(p, rows, k);
    }
    forall k: nat | k < stage && Missing(p, start, k) && Missing(p, start, stage)
      ensures DueNow(p, rec, grant, k).eventId != DueNow(p, rec, grant, stage).eventId
    {
      assert Appended(p, start, rec, grant, stage, DueNow(p, rec, grant, k).eventId);
    }
    forall id ensures HasId(after, id) <==> HasId(start, id) || Appended(p, start, rec, grant, stage + 1, id) {
      AppendedNext(p, start, rec, grant, stage, id);
    }
  }

  lemma SameDue(p: Application, rec: Recovery, other: Recovery, grant: Record, stage: nat)
    requires stage < 4 && EventIds(other) == EventIds(rec) && other.startedAt == rec.startedAt
    ensures DueNow(p, rec, grant, stage) == DueNow(p, other, grant, stage)
  {}

  lemma PassedBefore(p: Application, start: seq<Record>, rows: seq<Record>, rec: Recovery, current: Recovery,
    grant: Record, stage: nat, seen: bool)
    requires stage < 4 && Before(p, start, rows, rec, grant, stage, seen) && Passes(p, rows, current, grant, stage)
    requires EventIds(current) == EventIds(rec) && current.startedAt == rec.startedAt
    ensures Passes(p, start, rec, grant, stage)
  {
    hide StageRow, HasId, EventOk, EventSeparated, StageEvent, Split, DueNow;
    SameDue(p, current, rec, grant, stage);
  }

  lemma SplitNext(p: Application, start: seq<Record>, stage: nat, seen: bool)
    requires stage < 4 && (Missing(p, start, stage) || (Present(p, start, stage) && !seen))
    requires if seen then exists i: nat ::
      Split(p, start, i, stage) else forall k: nat | k < stage :: Present(p, start, k)
    ensures var next := stage + 1;
      if seen || Missing(p, start, stage) then exists i: nat :: Split(p, start, i, next)
      else forall k: nat | k < next :: Present(p, start, k)
  {
    hide StageRow;
    if seen {
      var i: nat :| Split(p, start, i, stage);
      assert Split(p, start, i, stage + 1);
    } else if Missing(p, start, stage) {
      assert Split(p, start, stage, stage + 1);
    }
  }

  lemma AppendedNext(p: Application, rows: seq<Record>, rec: Recovery, grant: Record, stage: nat, id: string)
    requires stage < 4
    ensures Appended(p, rows, rec, grant, stage + 1, id) <==>
      Appended(p, rows, rec, grant, stage, id)
        || (Missing(p, rows, stage) && DueNow(p, rec, grant, stage).eventId == id)
  {
    hide Missing, DueNow;
  }

  lemma OrderedThrough(p: Application, start: seq<Record>, rows: seq<Record>, rec: Recovery, grant: Record, seen: bool)
    requires Before(p, start, rows, rec, grant, 4, seen)
    ensures InOrder(p, start) && forall j: nat :: !Refused(p, start, rec, grant, j)
  {
    hide StageRow, HasId, EventOk, EventSeparated, StageEvent, Passes;
    var first: nat := 4;
    if seen {
      first :| Split(p, start, first, 4);
    }
    forall i: nat | i < 4
      ensures Present(p, start, i) <==> i < first
      ensures Missing(p, start, i) <==> first <= i
    {
      assert i < first ==> Present(p, start, i);
      assert first <= i ==> Missing(p, start, i);
    }
    forall i: nat, j: nat ensures !FirstGap(p, start, i, j) {
      assert i < 4 ==> (Missing(p, start, i) <==> first <= i);
    }
  }

  lemma GrownBy(p: Application, before: seq<Record>, rec: Recovery, grant: Record, stage: nat, row: Record)
    requires stage < 4 && Missing(p, before, stage) && row.Event() == DueNow(p, rec, grant, stage)
    requires StageRow(p, before + [row], stage) == Ok(Some(row))
    requires forall i: nat | i < 4 && i != stage :: StageRow(p, before + [row], i) == StageRow(p, before, i)
    ensures Grown(p, before, before + [row], rec, grant, stage)
  {
    hide StageRow, DueNow, HasId;
    IdsGrow(before, row);
  }

  lemma RowReads(p: Application, rows: seq<Record>, e: Event)
    requires ApplicationValid(p) && p.StageCount() == 4 && Admit(p, rows).Ok?
    ensures OneLine(Seal(p.hash, rows, e)) <==> !EventSeparated(e)
  {
    hide LeaseUsable, WellChained, OneLine, EventSeparated;
    PlainHashes(p);
    AdmitParts(p, rows);
    SealOneLine(p.hash, rows, e);
  }

  lemma UnreadNext(p: Application, now: string, d: Disk)
    requires p.StageCount() == 4 && !d.readable
    ensures Next(p, now, d) == Fail(LedgerInvalid)
  {}

  lemma FinalizingReads(p: Application, d: Disk, rec: Recovery)
    requires Finalizing(p, d, rec) && p.StageCount() == 4
    ensures d.readable
  {}

  lemma FinalizingRecovery(p: Application, d: Disk, rec: Recovery)
    requires Finalizing(p, d, rec)
    ensures d.recovery == Some(rec)
  {}

  /** No crash, rerun or foreign append ever leads to an out-of-order ledger. */
  lemma ReachableInOrder(p: Application, disks: seq<Disk>)
    requires ApplicationValid(p) && Reachable(p, disks) && p.StageCount() == 4
    ensures InOrder(p, disks[|disks| - 1].ledger)
  {
    hide Follows, Fresh, StageRow, FullyApplied;
    WriteOrder(p, disks);
    var d := disks[|disks| - 1];
    forall i: nat, j: nat | i < j < 4 && Missing(p, d.ledger, i) ensures !Present(p, d.ledger, j) {
      assert RowOf(p, d, i).None?;
      assert RowOf(p, d, j).None?;
    }
  }

  // ---------------------------------------------------------------- runs in progress

  /** The run that started on `first` continues as the run from here. */
  ghost predicate Same(p: Application, now: string, first: Disk, writes: nat, d: Disk, left: nat) {
    left <= writes && Run(Applying(p), now, first, writes) == Run(Applying(p), now, d, left)
  }

  /** The run that started on `first` ends here. */
  ghost predicate Stops(p: Application, now: string, first: Disk, writes: nat, d: Disk,
    outcome: Outcome<Receipt, AppError>)
  {
    Run(Applying(p), now, first, writes) == (d, outcome)
  }

  /** What a part of a run reports: a value, a refusal, or the death of the process. */
  type Part<T> = Outcome<T, AppError>

  function Verdict<T>(res: Part<T>): Outcome<Receipt, AppError>
    requires !res.Completed?
  {
    if res.Failed? then Failed(res.error) else Outcome<Receipt, AppError>.Crashed
  }

  predicate RefusedForOrder<T>(res: Part<T>) {
    res.Failed? && res.error.OutOfOrder?
  }

  /**
   An event was logged other than announced; the step semantics stops at once, the program may still replace the state.
   */
  ghost predicate StopsAstray(p: Application, now: string, first: Disk, writes: nat, d: Disk,
    outcome: Outcome<Receipt, AppError>)
  {
    && (outcome == Failed(EventSuffix) || outcome.Crashed?)
    && (exists k: nat :: k < |p.events| && Trimmed(p.events[k]) != p.events[k])
    && exists state :: Stops(p, now, first, writes, d.(state := state), Failed(EventSuffix))
  }

  /**
   The row just appended cannot be read back; a later run says the ledger is invalid, this one that finalization failed.
   */
  ghost predicate StopsUnread(p: Application, now: string, first: Disk, writes: nat, d: Disk,
    outcome: Outcome<Receipt, AppError>)
  {
    && outcome.Failed? && outcome.error.FinalizationFailed? && p.StageCount() == 4 && !d.readable
    && Stops(p, now, first, writes, d, Failed(LedgerInvalid))
  }

  /** A stage row stands after a missing one; the step semantics would go on from here. */
  ghost predicate StopsRefused(p: Application, now: string, first: Disk, writes: nat, d: Disk,
    outcome: Outcome<Receipt, AppError>)
  {
    && outcome.Failed? && outcome.error.OutOfOrder? && p.StageCount() == 4 && d.recovery.Some?
    && exists left: nat :: Same(p, now, first, writes, d, left)
  }

  /** How a run of the program ends, compared with the run of the step semantics. */
  ghost predicate Ends(p: Application, now: string, first: Disk, writes: nat, d: Disk,
    outcome: Outcome<Receipt, AppError>)
  {
    || (Stops(p, now, first, writes, d, outcome) && !(outcome.Failed? && outcome.error.OutOfOrder?))
    || StopsAstray(p, now, first, writes, d, outcome)
    || StopsUnread(p, now, first, writes, d, outcome)
    || StopsRefused(p, now, first, writes, d, outcome)
  }

  /** What a run of the program does, for those who run it again. */
  ghost predicate Applies(p: Application, now: string, first: Disk, writes: nat, d: Disk,
    res: Outcome<Receipt, AppError>)
  {
    && Ends(p, now, first, writes, d, res)
    && first.ledger <= d.ledger
    && (p.StageCount() == 4 && res.Completed? ==> InOrder(p, first.ledger))
    && (forall j: nat :: res == Failed(OutOfOrder(j)) ==> Fills(p, first.ledger, d.ledger, j))
  }

  lemma EndsRefused(p: Application, now: string, first: Disk, writes: nat, d: Disk, outcome: Outcome<Receipt, AppError>)
    requires StopsRefused(p, now, first, writes, d, outcome)
    ensures Ends(p, now, first, writes, d, outcome)
  {}

  class Store {
    var log: seq<LogRecord>
    var state: Runtime
    var ledger: seq<Record>
    var readable: bool
    var recovery: Option<Recovery>
    var receipt: Option<Receipt>
    /** How many more durable writes the process lives for. */
    var writes: nat

    constructor (d: Disk, writes: nat)
      ensures View() == d && this.writes == writes
    {
      log, state, ledger, readable, recovery, receipt := d.log, d.state, d.ledger, d.readable, d.recovery, d.receipt;
      this.writes := writes;
    }

    function View(): Disk
      reads this
    {
      Disk(log, state, ledger, readable, recovery, receipt)
    }

    // -------------------------------------------------------------- durable writes

    method AppendLog(record: LogRecord) returns (alive: bool)
      modifies `log, `writes
      ensures alive <==> old(writes) > 0
      ensures alive ==> log == old(log) + [record] && writes == old(writes) - 1
      ensures !alive ==> log == old(log) && writes == old(writes)
    {
      alive := writes > 0;
      if alive {
        log, writes := log + [record], writes - 1;
      }
    }

    method ReplaceState(next: Runtime) returns (alive: bool)
      modifies `state, `writes
      ensures alive <==> old(writes) > 0
      ensures alive ==> state == next && writes == old(writes) - 1
      ensures !alive ==> state == old(state) && writes == old(writes)
    {
      alive := writes > 0;
      if alive {
        state, writes := next, writes - 1;
      }
    }

    method AppendRow(row: Record) returns (alive: bool)
      modifies `ledger, `readable, `writes
      ensures alive <==> old(writes) > 0
      ensures alive ==> View() == WithRow(old(View()), row) && writes == old(writes) - 1
      ensures !alive ==> View() == old(View()) && writes == old(writes)
    {
      alive := writes > 0;
      if alive {
        ledger, readable, writes := ledger + [row], readable && OneLine(row), writes - 1;
      }
    }

    /** Writing back an identical recovery record leaves no trace and is not counted. */
    method WriteRecovery(rec: Recovery) returns (alive: bool)
      modifies `recovery, `writes
      ensures alive <==> old(recovery) == Some(rec) || old(writes) > 0
      ensures alive ==>
        recovery == Some(rec) && writes == if old(recovery) == Some(rec) then old(writes) else old(writes) - 1
      ensures !alive ==> recovery == old(recovery) && writes == old(writes)
    {
      if recovery == Some(rec) {
        return true;
      }
      alive := writes > 0;
      if alive {
        recovery, writes := Some(rec), writes - 1;
      }
    }

    method CreateReceipt(result: Receipt) returns (alive: bool)
      modifies `receipt, `writes
      ensures alive <==> old(writes) > 0
      ensures alive ==> receipt == Some(result) && writes == old(writes) - 1
      ensures !alive ==> receipt == old(receipt) && writes == old(writes)
    {
      alive := writes > 0;
      if alive {
        receipt, writes := Some(result), writes - 1;
      }
    }

    // -------------------------------------------------------------- the Supervisor part

    /** `_reconcile_supervisor_locked`: repairs a state that trails the log by one event. */
    method ReconcileSupervisor(p: Application, rec: Recovery) returns (res: Part<nat>)
      requires CheckRecovery(p, rec).Ok?
      modifies `state, `writes
      ensures match Reconcile(p, old(View()), rec)
        case Err(e) => res == Failed(e) && View() == old(View()) && writes == old(writes)
        case Ok((k, stale)) =>
          if stale && old(writes) == 0 then res == Crashed && View() == old(View()) && writes == old(writes)
          else
            && View() == old(View()).(state := rec.snapshots[k])
            && writes == (if stale then old(writes) - 1 else old(writes))
            && res == if CursorOk(log, state) then Completed(k) else Failed(RuntimeCursor)
    {
      hide LogOk, LogHead, Prepare;
      ghost var d := View();
      if !LogOk(p, log) {
        return Failed(LogInvalid);
      }
      if !(0 <= rec.sequenceBefore <= |log|) {
        return Failed(EventSequence);
      }
      if LogHead(log[..rec.sequenceBefore]) != rec.headBefore {
        return Failed(EventHead);
      }
      var suffix := log[rec.sequenceBefore..];
      if |suffix| > |rec.expected| || suffix != rec.expected[..|suffix|] {
        return Failed(EventSuffix);
      }
      var prefix := |suffix|;
      if state == rec.snapshots[prefix] {
      } else if prefix > 0 && state == rec.snapshots[prefix - 1] {
        var alive := ReplaceState(rec.snapshots[prefix]);
        if !alive {
          return Crashed;
        }
      } else {
        return Failed(RuntimeState);
      }
      if !CursorOk(log, state) {
        return Failed(RuntimeCursor);
      }
      return Completed(prefix);
    }

    /** `_apply_event_files_unlocked`: the trimmed event into the log, then the state. */
    method LogEvent(p: Application, rec: Recovery, k: nat, ghost now: string, ghost first: Disk, ghost budget: nat)
      returns (res: Part<()>)
      requires k < |p.events| && Counted(p, View(), rec, k) && Same(p, now, first, budget, View(), writes)
      modifies `log, `state, `writes
      ensures !res.Completed? ==> Ends(p, now, first, budget, View(), Verdict(res)) && !RefusedForOrder(res)
      ensures res.Completed? && Trimmed(p.events[k]) == p.events[k] ==>
        && Reconcile(p, View(), rec) == Ok((k + 1, false)) && CursorOk(log, state)
        && Same(p, now, first, budget, View(), writes)
      ensures res.Completed? && Trimmed(p.events[k]) != p.events[k] ==>
        && Reconcile(p, View(), rec) == Err(EventSuffix)
        && StopsAstray(p, now, first, budget, View(), Failed(EventSuffix))
      ensures res.Completed? ==> (p.variant.Role? ==> LogOk(p, log))
    {
      hide LogOk, LogHead, Prepare, CheckRecovery, Reconcile, CursorOk, Run, Next, Admit, Trimmed, Advance, InLog;
      ghost var d0 := View();
      var event := Trimmed(p.events[k]);
      ApplyingNext(p, now, d0, rec, k);
      RunStep(p, now, d0, writes);
      if p.recoveryControlled || InLog(log, event.eventId) {
        return Failed(SupervisorFailed);
      }
      ghost var plain := event == p.events[k];
      if plain {
        ApplyOne(p, d0, rec, k);
      } else {
        ApplyStray(p, d0, rec, k, state);
      }
      var applied := Advance(p, state, event);
      if applied.None? {
        return Failed(SupervisorFailed);
      }
      var (record, updated) := applied.value;
      var alive := AppendLog(record);
      if !alive {
        return Crashed;
      }
      ghost var d1 := View();
      if plain {
        CountingNext(p, now, d1, rec, k + 1, true);
      } else {
        FailingNext(p, now, d1, rec);
      }
      RunStep(p, now, d1, writes);
      alive := ReplaceState(updated);
      if !plain {
        assert View().(state := d1.state) == d1;
        assert StopsAstray(p, now, first, budget, View(), Failed(EventSuffix));
        ApplyStray(p, d0, rec, k, updated);
      }
      if !alive {
        return Crashed;
      }
      return Completed(());
    }

    /** One event and the bookkeeping after it: log, state, then the count in the recovery record. */
    method ApplyEvent(p: Application, rec: Recovery, k: nat, ghost now: string, ghost first: Disk, ghost budget: nat)
      returns (res: Part<Recovery>)
      requires k < |p.events| && Counted(p, View(), rec, k) && Same(p, now, first, budget, View(), writes)
      modifies `log, `state, `recovery, `writes
      ensures !res.Completed? ==> Ends(p, now, first, budget, View(), Verdict(res)) && !RefusedForOrder(res)
      ensures res.Completed? ==> Counted(p, View(), res.receipt, k + 1) && Same(p, now, first, budget, View(), writes)
    {
      hide LogOk, LogHead, Prepare, CheckRecovery, Reconcile, CursorOk, Run, Next, Admit, Trimmed, Advance, InLog,
        StopsAstray;
      var logged := LogEvent(p, rec, k, now, first, budget);
      if logged.Failed? {
        return Failed(logged.error);
      }
      if logged.Crashed? {
        return Crashed;
      }
      ghost var d := View();
      if Trimmed(p.events[k]) == p.events[k] {
        CountingNext(p, now, d, rec, k + 1, false);
        RunStep(p, now, d, writes);
        StateRepaired(p, d, rec, k + 1, false);
      }
      var again := ReconcileSupervisor(p, rec);
      if again.Failed? {
        return Failed(again.error);
      }
      var next := AtCount(p, rec, again.receipt);
      var alive := WriteRecovery(next);
      if !alive {
        return Crashed;
      }
      assert |rec.stageSequences| == 4 by { RecoveryShape(p, rec); }
      Bookkeeping(p, d, rec, next);
      assert View() == d.(recovery := Some(next));
      return Completed(next);
    }

    /** `_apply_supervisor_locked`: reconcile, settle the count, then apply the remaining events one by one. */
    method ApplySupervisor(p: Application, rec: Recovery, ghost now: string, ghost first: Disk, ghost budget: nat)
      returns (res: Part<Recovery>)
      requires Resuming(p, View(), rec) && receipt.None? && Same(p, now, first, budget, View(), writes)
      modifies `log, `state, `recovery, `writes
      ensures !res.Completed? ==> Ends(p, now, first, budget, View(), Verdict(res)) && !RefusedForOrder(res)
      ensures res.Completed? ==>
        Counted(p, View(), res.receipt, |p.events|) && Same(p, now, first, budget, View(), writes)
    {
      hide LogOk, LogHead, Prepare, CheckRecovery, Reconcile, CursorOk, Run, Next, Admit;
      ghost var d0 := View();
      var current := rec;
      if Reconcile(p, d0, rec).Err? {
        FailingNext(p, now, d0, rec);
        RunStep(p, now, d0, writes);
      } else {
        var (k, stale) := Reconcile(p, d0, rec).value;
        CountingNext(p, now, d0, rec, k, stale);
        RunStep(p, now, d0, writes);
        StateRepaired(p, d0, rec, k, stale);
        LogStaysOk(p, d0, rec);
      }
      var reconciled := ReconcileSupervisor(p, rec);
      ghost var d1 := View();
      if reconciled.Crashed? {
        return Crashed;
      }
      if Reconcile(p, d0, rec).Ok? {
        CountingNext(p, now, d1, rec, Reconcile(p, d0, rec).value.0, false);
        RunStep(p, now, d1, writes);
      }
      if reconciled.Failed? {
        return Failed(reconciled.error);
      }
      var prefix := reconciled.receipt;
      if rec.eventCount != prefix {
        current := AtCount(p, rec, prefix);
        var alive := WriteRecovery(current);
        if !alive {
          return Crashed;
        }
        assert |rec.stageSequences| == 4 by { RecoveryShape(p, rec); }
        Bookkeeping(p, d1, rec, current);
        assert View() == d1.(recovery := Some(current));
      }
      assert prefix <= |p.events| by { PrefixBound(p, d1, rec, prefix); }
      for i := prefix to |p.events|
        invariant Counted(p, View(), current, i) && Same(p, now, first, budget, View(), writes)
      {
        res := ApplyEvent(p, current, i, now, first, budget);
        if !res.Completed? {
          return;
        }
        current := res.receipt;
      }
      return Completed(current);
    }

    // -------------------------------------------------------------- the ledger part

    /**
     `_append_or_reuse_stage`: the row of this stage, found and matching, or appended now and read back. It is there
     afterwards exactly when it passes and the process lives.
     */
    method AppendOrReuse(p: Application, rec: Recovery, grant: Record, stage: nat, ghost now: string, ghost first: Disk,
      ghost budget: nat)
      returns (res: Part<Record>)
      requires ApplicationValid(p) && p.StageCount() == 4 && stage < 4
      requires Finalizing(p, View(), rec) && Admit(p, ledger) == Ok(Some(grant))
        && PassedTo(p, ledger, rec, grant, stage)
      requires Same(p, now, first, budget, View(), writes)
      modifies `ledger, `readable, `writes
      ensures old(ledger) <= ledger
      ensures !res.Completed? ==> Ends(p, now, first, budget, View(), Verdict(res)) && !RefusedForOrder(res)
      ensures res.Failed? ==> !Passes(p, old(ledger), rec, grant, stage)
      ensures res.Crashed? ==> old(writes) == 0
      ensures res.Completed? ==>
        && Passes(p, old(ledger), rec, grant, stage)
        && Finalizing(p, View(), rec) && Admit(p, ledger) == Ok(Some(grant))
        && PassedTo(p, ledger, rec, grant, stage) && Same(p, now, first, budget, View(), writes)
        && StageRow(p, ledger, stage) == Ok(Some(res.receipt))
        && res.receipt.Event() == StageEvent(p, grant, stage, res.receipt.Event().timestamp, EventIds(rec))
        && Grown(p, old(ledger), ledger, rec, grant, stage)
        && old(writes) - 1 <= writes
    {
      hide LogOk, LogHead, Prepare, Reconcile, CursorOk, Run, Next, Admit, NextStage, StageRow, EventOk, HasId,
        ApplicationValid, CheckRecovery, StageAccounting, StageEvidence, Put, Get, PassedTo, Finalizing, OneLine,
        EventSeparated;
      ghost var d0 := View();
      FinalizingShape(p, d0, rec);
      NextFinalizes(p, now, d0, rec);
      PassedNext(p, d0, rec, grant, 0, stage);
      StageDecision(p, d0, rec, grant, stage);
      RunStep(p, now, d0, writes);
      var existing := StageRow(p, ledger, stage);
      if existing.Err? {
        return Failed(existing.error);
      }
      if existing.value.Some? {
        var found := existing.value.value;
        if found.Event() != StageEvent(p, grant, stage, found.Event().timestamp, EventIds(rec)) {
          return Failed(StageConflict(stage));
        }
        return Completed(found);
      }
      var event := StageEvent(p, grant, stage, rec.startedAt, EventIds(rec));
      if !EventOk(event) || HasId(ledger, event.eventId) {
        return Failed(FinalizationFailed(stage));
      }
      var row := Seal(p.hash, ledger, event);
      GrantShape(p, ledger);
      StageEventShape(p, grant, stage, rec.startedAt, EventIds(rec));
      AppendStage(p, ledger, stage, event);
      RowReads(p, ledger, event);
      var alive := AppendRow(row);
      if !alive {
        return Crashed;
      }
      assert d0.readable by { FinalizingReads(p, d0, rec); }
      if !readable {
        UnreadNext(p, now, View());
        RunStep(p, now, View(), writes);
        return Failed(FinalizationFailed(stage));
      }
      LedgerOnly(p, d0, View(), rec);
      StillPassed(p, d0.ledger, ledger, rec, grant, stage);
      GrownBy(p, d0.ledger, rec, grant, stage, row);
      return Completed(row);
    }

    /** One pass of the finalization loop: the stage row, then its sequence in the recovery record. */
    method FinalizeStage(p: Application, rec: Recovery, grant: Record, stage: nat, ghost now: string, ghost first: Disk,
      ghost budget: nat)
      returns (res: Part<Recovery>)
      requires ApplicationValid(p) && p.StageCount() == 4 && stage < 4
      requires Finalizing(p, View(), rec) && Admit(p, ledger) == Ok(Some(grant))
        && PassedTo(p, ledger, rec, grant, stage)
      requires Same(p, now, first, budget, View(), writes)
      modifies `ledger, `readable, `recovery, `writes
      ensures old(ledger) <= ledger
      ensures !res.Completed? ==> Ends(p, now, first, budget, View(), Verdict(res)) && !RefusedForOrder(res)
      ensures res.Failed? ==> !Passes(p, old(ledger), rec, grant, stage)
      ensures res.Crashed? ==> old(writes) < 2
      ensures res.Completed? ==>
        && Passes(p, old(ledger), rec, grant, stage)
        && Finalizing(p, View(), res.receipt) && Admit(p, ledger) == Ok(Some(grant))
        && PassedTo(p, ledger, res.receipt, grant, stage + 1)
        && Same(p, now, first, budget, View(), writes)
        && Grown(p, old(ledger), ledger, rec, grant, stage)
        && EventIds(res.receipt) == EventIds(rec) && res.receipt.startedAt == rec.startedAt
        && old(writes) - 2 <= writes
    {
      hide LogOk, LogHead, Prepare, Reconcile, CursorOk, Run, Next, Admit, NextStage, StageRow, ApplicationValid,
        CheckRecovery, StageEvent, PassedTo, Passes;
      var appended := AppendOrReuse(p, rec, grant, stage, now, first, budget);
      if appended.Failed? {
        return Failed(appended.error);
      }
      if appended.Crashed? {
        return Crashed;
      }
      var row := appended.receipt;
      ghost var d := View();
      FinalizingShape(p, d, rec);
      NextFinalizes(p, now, d, rec);
      PassedNext(p, d, rec, grant, 0, stage);
      StageDecision(p, d, rec, grant, stage);
      RunStep(p, now, d, writes);
      var current := rec;
      if rec.stageSequences[stage] != Some(row.Sequence()) {
        current := AtStage(rec, stage, row.Sequence());
        var alive := WriteRecovery(current);
        if !alive {
          return Crashed;
        }
      }
      assert View() == d.(recovery := Some(current));
      Bookkeeping(p, d, rec, current);
      NowPassed(p, d.ledger, rec, current, grant, stage);
      return Completed(current);
    }

    /**
     `_finalize_ledger_locked`. A missing stage is appended before a later stage is found to be there already; such a
     ledger is refused with its first gap filled, and only for its order.
     */
    method FinalizeLedger(p: Application, rec: Recovery, grant: Record, ghost now: string, ghost first: Disk,
      ghost budget: nat)
      returns (res: Part<Recovery>)
      requires ApplicationValid(p) && p.StageCount() == 4
      requires Finalizing(p, View(), rec) && Admit(p, ledger) == Ok(Some(grant))
      requires Same(p, now, first, budget, View(), writes)
      modifies `ledger, `readable, `recovery, `writes
      ensures old(ledger) <= ledger
      ensures !res.Completed? ==> Ends(p, now, first, budget, View(), Verdict(res))
      ensures forall j: nat :: res == Failed(OutOfOrder(j)) ==>
        Refused(p, old(ledger), rec, grant, j) && Fills(p, old(ledger), ledger, j)
      ensures forall j: nat ::
        old(writes) >= 8 && Refused(p, old(ledger), rec, grant, j) ==> res == Failed(OutOfOrder(j))
      ensures res.Completed? ==>
        && InOrder(p, old(ledger))
        && Finalizing(p, View(), res.receipt) && PassedTo(p, ledger, res.receipt, grant, 4)
        && Admit(p, ledger) == Ok(Some(grant))
        && Same(p, now, first, budget, View(), writes)
    {
      hide LogOk, LogHead, Prepare, Reconcile, CursorOk, Run, Next, Admit, NextStage, StageRow, EventOk, HasId,
        ApplicationValid, CheckRecovery, StageEvent, Finalizing, Passes, Grown, DueNow, Present, Missing, Ends, Same,
        Refused, FirstGap, Fills, InOrder;
      var current := rec;
      var seenMissing := false;
      ghost var start := ledger;
      assert PassedTo(p, ledger, current, grant, 0) by { FinalizingShape(p, View(), current); }
      StartsBefore(p, start, rec, grant);
      for stage := 0 to 4
        invariant Finalizing(p, View(), current) && Admit(p, ledger) == Ok(Some(grant))
        invariant PassedTo(p, ledger, current, grant, stage)
        invariant Same(p, now, first, budget, View(), writes)
        invariant EventIds(current) == EventIds(rec) && current.startedAt == rec.startedAt
        invariant start <= ledger && Before(p, start, ledger, rec, grant, stage, seenMissing)
        invariant old(writes) <= writes + 2 * stage
      {
        var existing := StageRow(p, ledger, stage);
        MissingOrPresent(p, ledger, stage);
        if existing == Ok(None) {
        } else if existing.Ok? && seenMissing {
          RefusesHere(p, start, ledger, rec, grant, stage);
          assert recovery.Some? by { FinalizingRecovery(p, View(), current); }
          assert StopsRefused(p, now, first, budget, View(), Failed(OutOfOrder(stage)));
          EndsRefused(p, now, first, budget, View(), Failed(OutOfOrder(stage)));
          return Failed(OutOfOrder(stage));
        }
        ghost var before := ledger;
        forall j: nat | Refused(p, start, rec, grant, j) ensures Passes(p, ledger, current, grant, stage) {
          StopsHere(p, start, ledger, rec, current, grant, stage, seenMissing, j);
        }
        res := FinalizeStage(p, current, grant, stage, now, first, budget);
        if !res.Completed? {
          return;
        }
        GoesOn(p, start, before, ledger, rec, current, grant, stage, seenMissing);
        seenMissing := seenMissing || existing == Ok(None);
        current := res.receipt;
      }
      OrderedThrough(p, start, ledger, rec, grant, seenMissing);
      return Completed(current);
    }

    // -------------------------------------------------------------- the whole run

    /** Writes or compares the receipt, then closes the recovery record. */
    method Conclude(p: Application, rec: Recovery, ghost now: string, ghost first: Disk, ghost budget: nat)
      returns (res: Part<Receipt>)
      requires Receipting(p, View(), rec) && Same(p, now, first, budget, View(), writes)
      modifies `recovery, `receipt, `writes
      ensures Stops(p, now, first, budget, View(), res) && !RefusedForOrder(res)
    {
      hide Run, Next, Admit, StageRow, Receipting, Reconcile, CheckRecovery, Summary;
      NextIsReceipt(p, now, View(), rec);
      RunStep(p, now, View(), writes);
      var result := Summary(p, ledger, rec);
      if receipt.Some? {
        if receipt.value != result {
          return Failed(ReceiptConflict);
        }
      } else {
        ReceiptKeeps(p, View(), rec, result);
        var alive := CreateReceipt(result);
        if !alive {
          return Crashed;
        }
        NextIsReceipt(p, now, View(), rec);
        RunStep(p, now, View(), writes);
      }
      ghost var d := View();
      CloseKeeps(p, d, rec);
      var closed := rec.(status := Receipted, receiptCreated := true);
      assert d.recovery == Some(rec) by { ReceiptingShape(p, d, rec); }
      var alive := WriteRecovery(closed);
      if !alive {
        return Crashed;
      }
      assert View() == d.(recovery := Some(closed));
      NextIsReceipt(p, now, View(), closed);
      RunStep(p, now, View(), writes);
      return Completed(result);
    }

    /**
     `apply_scheduled_dispatch` and `apply_role_lifecycle` under their locks. The run is the run of the step semantics
     but for three ends: an event logged other than announced, a row that cannot be read back, and a refusal because of
     the order of the stage rows, which fills the first gap.
     */
    method Apply(p: Application, now: string) returns (res: Part<Receipt>)
      requires ApplicationValid(p)
      modifies this
      ensures Applies(p, now, old(View()), old(writes), View(), res)
    {
      hide LogOk, LogHead, Prepare, Reconcile, CursorOk, Run, Next, Admit, NextStage, StageRow, EventOk, HasId,
        ApplicationValid, CheckRecovery, StageEvent, Finalizing, Receipting, InOrder, MayBegin, NoStageRows, Refused,
        Fills;
      ghost var first, budget := View(), writes;
      NextCases(p, now, first);
      RunStep(p, now, first, writes);
      if p.StageCount() == 4 && !readable {
        return Failed(LedgerInvalid);
      }
      var admitted := Admit(p, ledger);
      if admitted.Err? {
        return Failed(admitted.error);
      }
      if p.variant.Role? && !LogOk(p, log) {
        return Failed(LogInvalid);
      }
      var rec: Recovery;
      if recovery.Some? {
        rec := recovery.value;
        var checked := CheckRecovery(p, rec);
        if checked.Err? {
          return Failed(checked.error);
        }
      } else {
        var allowed := MayBegin(p, View());
        if allowed.Err? {
          return Failed(allowed.error);
        }
        var prepared := Prepare(p, state, |p.events|);
        if prepared.None? {
          return Failed(PreflightRejected);
        }
        rec := NewRecovery(p, now, View(), prepared.value.0, prepared.value.1);
        EventsExist(p);
        NewRecoveryChecks(p, now, View());
        var alive := WriteRecovery(rec);
        if !alive {
          return Crashed;
        }
      }
      assert Resuming(p, View(), rec);
      NextResumes(p, now, View(), rec);
      RunStep(p, now, View(), writes);
      if receipt.Some? {
        if rec.eventCount != |p.events| {
          return Failed(ReceiptConflict);
        }
      } else {
        var applied := ApplySupervisor(p, rec, now, first, budget);
        if applied.Failed? {
          return Failed(applied.error);
        }
        if applied.Crashed? {
          return Crashed;
        }
        rec := applied.receipt;
      }
      assert Finalizing(p, View(), rec) by { CountedFinalizes(p, View(), rec); }
      if p.StageCount() == 4 {
        FinalizingAdmits(p, View(), rec);
        var grant := Admit(p, ledger).value.value;
        var finalized := FinalizeLedger(p, rec, grant, now, first, budget);
        if finalized.Failed? {
          return Failed(finalized.error);
        }
        if finalized.Crashed? {
          return Crashed;
        }
        rec := finalized.receipt;
      }
      assert Receipting(p, View(), rec) by { FinalizedIsReceipting(p, View(), rec); }
      res := Conclude(p, rec, now, first, budget);
    }
  }

  lemma NextCases(p: Application, now: string, d: Disk)
    ensures p.StageCount() == 4 && !d.readable ==> Next(p, now, d) == Fail(LedgerInvalid)
    ensures (p.StageCount() == 4 ==> d.readable) ==>
      && (Admit(p, d.ledger).Err? ==> Next(p, now, d) == Fail(Admit(p, d.ledger).error))
      && (Admit(p, d.ledger).Ok? && p.variant.Role? && !LogOk(p, d.log) ==> Next(p, now, d) == Fail(LogInvalid))
    ensures (p.StageCount() == 4 ==> d.readable) && Admit(p, d.ledger).Ok? && (p.variant.Role? ==> LogOk(p, d.log)) ==>
      if d.recovery.None? then
        var prepared := Prepare(p, d.state, |p.events|);
        if MayBegin(p, d).Err? then Next(p, now, d) == Fail(MayBegin(p, d).error)
        else if prepared.None? then Next(p, now, d) == Fail(PreflightRejected)
        else Next(p, now, d) == Write(d.(recovery := Some(NewRecovery(p, now, d, prepared.value.0, prepared.value.1))))
      else CheckRecovery(p, d.recovery.value).Err? ==> Next(p, now, d) == Fail(CheckRecovery(p, d.recovery.value).error)
  {
    hide Admit, LogOk, CheckRecovery, MayBegin, Prepare, Resume;
  }

  lemma CountedFinalizes(p: Application, d: Disk, rec: Recovery)
    requires if d.receipt.Some? then Resuming(p, d, rec) && rec.eventCount == |p.events|
      else Counted(p, d, rec, |p.events|)
    ensures Finalizing(p, d, rec)
  {
    hide Admit, LogOk, CheckRecovery, Reconcile, CursorOk;
  }

  lemma FinalizingAdmits(p: Application, d: Disk, rec: Recovery)
    requires Finalizing(p, d, rec) && p.StageCount() == 4
    ensures Admit(p, d.ledger).Ok? && Admit(p, d.ledger).value.Some?
  {
    hide CheckLedger, LogOk, CheckRecovery, Reconcile, CursorOk;
  }

  lemma FinalizedIsReceipting(p: Application, d: Disk, rec: Recovery)
    requires Finalizing(p, d, rec)
    requires p.StageCount() == 4 ==>
      Admit(p, d.ledger).Ok? && PassedTo(p, d.ledger, rec, Admit(p, d.ledger).value.value, 4)
    ensures Receipting(p, d, rec)
  {
    hide Admit, Finalizing, PassedTo;
  }

  lemma ReceiptingShape(p: Application, d: Disk, rec: Recovery)
    requires Receipting(p, d, rec)
    ensures d.recovery == Some(rec)
  {
    hide Admit, LogOk, CheckRecovery, Reconcile, CursorOk;
  }

  /** What finalization does at a stage it reached. */
  ghost predicate Decides(p: Application, d: Disk, rec: Recovery, grant: Record, stage: nat, step: Action)
    requires stage < 4 && |rec.stageSequences| == 4
  {
    var existing := StageRow(p, d.ledger, stage);
    if existing.Err? then step == Fail(existing.error)
    else if existing.value.None? then
      var due := StageEvent(p, grant, stage, rec.startedAt, EventIds(rec));
      if !EventOk(due) || HasId(d.ledger, due.eventId) then step == Fail(FinalizationFailed(stage))
      else step == Write(WithRow(d, Seal(p.hash, d.ledger, due)))
    else
      var row := existing.value.value;
      if row.Event() != StageEvent(p, grant, stage, row.Event().timestamp, EventIds(rec))
        then step == Fail(StageConflict(stage))
      else rec.stageSequences[stage] != Some(row.Sequence()) ==>
        step == Write(d.(recovery := Some(AtStage(rec, stage, row.Sequence()))))
  }

  lemma StageDecision(p: Application, d: Disk, rec: Recovery, grant: Record, stage: nat)
    requires p.StageCount() == 4 && stage < 4 && |rec.stageSequences| == 4 && rec.expected != []
    ensures Decides(p, d, rec, grant, stage, NextStage(p, d, rec, Some(grant), stage))
  {
    hide StageRow, EventOk, HasId, StageEvent;
  }

  lemma GrantShape(p: Application, rows: seq<Record>)
    requires p.StageCount() == 4 && Admit(p, rows).Ok?
    ensures Admit(p, rows).value.Some? && Admit(p, rows).value.value.Event().lease == p.lease
  {
    hide LeaseUsable, WellChained;
    AdmitParts(p, rows);
  }

  lemma LedgerOnly(p: Application, d: Disk, after: Disk, rec: Recovery)
    requires Finalizing(p, d, rec) && after == d.(ledger := after.ledger, readable := after.readable)
    requires Admit(p, after.ledger) == Admit(p, d.ledger) && after.readable
    ensures Finalizing(p, after, rec)
  {
    hide Admit, LogOk, CheckRecovery, CursorOk, Prepare;
  }

  lemma StillPassed(p: Application, rows: seq<Record>, longer: seq<Record>, rec: Recovery, grant: Record, stage: nat)
    requires stage < 4 && PassedTo(p, rows, rec, grant, stage)
    requires forall i: nat | i < stage :: StageRow(p, longer, i) == StageRow(p, rows, i)
    ensures PassedTo(p, longer, rec, grant, stage)
  {
    hide StageRow, StageEvent;
    forall i: nat | i < stage ensures StagePassed(p, longer, rec, grant, i) {
      assert StagePassed(p, rows, rec, grant, i);
    }
  }

  lemma NowPassed(p: Application, rows: seq<Record>, rec: Recovery, current: Recovery, grant: Record, stage: nat)
    requires stage < 4 && PassedTo(p, rows, rec, grant, stage) && |rec.stageSequences| == 4
    requires StageRow(p, rows, stage).Ok? && StageRow(p, rows, stage).value.Some?
    requires var row := StageRow(p, rows, stage).value.value;
      && row.Event() == StageEvent(p, grant, stage, row.Event().timestamp, EventIds(rec))
      && current == if rec.stageSequences[stage] == Some(row.Sequence()) then rec
        else AtStage(rec, stage, row.Sequence())
    ensures PassedTo(p, rows, current, grant, stage + 1)
  {
    hide StageRow, StageEvent;
    assert EventIds(current) == EventIds(rec);
    forall i: nat | i < stage + 1 ensures StagePassed(p, rows, current, grant, i) {
      if i < stage {
        assert StagePassed(p, rows, rec, grant, i);
      }
    }
  }

  // ---------------------------------------------------------------- the receipt

  /** Everything but the receipt is on the disk. */
  ghost predicate Receipting(p: Application, d: Disk, rec: Recovery) {
    Finalizing(p, d, rec) && (p.StageCount() == 4 ==> PassedTo(p, d.ledger, rec, Admit(p, d.ledger).value.value, 4))
  }

  lemma NextIsReceipt(p: Application, now: string, d: Disk, rec: Recovery)
    requires Receipting(p, d, rec)
    ensures rec.expected != [] && Next(p, now, d) == NextReceipt(p, d, rec)
  {
    hide Admit, LogOk, CheckRecovery, Reconcile, CursorOk, StageRow, NextReceipt, StageEvent;
    FinalizingShape(p, d, rec);
    NextFinalizes(p, now, d, rec);
    if p.StageCount() == 4 {
      PassedNext(p, d, rec, Admit(p, d.ledger).value.value, 0, 4);
    }
  }

  lemma ReceiptKeeps(p: Application, d: Disk, rec: Recovery, result: Receipt)
    requires Receipting(p, d, rec)
    ensures Receipting(p, d.(receipt := Some(result)), rec)
  {
    hide Admit, LogOk, CheckRecovery, Reconcile, CursorOk, PassedTo;
  }

  lemma CloseKeeps(p: Application, d: Disk, rec: Recovery)
    requires Receipting(p, d, rec)
    ensures var closed := rec.(status := Receipted, receiptCreated := true);
      rec.expected != [] && Receipting(p, d.(recovery := Some(closed)), closed)
        && Summary(p, d.ledger, closed) == Summary(p, d.ledger, rec)
  {
    hide Admit, LogOk, CheckRecovery, Reconcile, CursorOk, StageRow, StageEvent, Prepare;
    var closed := rec.(status := Receipted, receiptCreated := true);
    FinalizingShape(p, d, rec);
    Bookkeeping(p, d, rec, closed);
    if p.StageCount() == 4 {
      forall i: nat | i < 4 ensures StagePassed(p, d.ledger, closed, Admit(p, d.ledger).value.value, i) {
        assert StagePassed(p, d.ledger, rec, Admit(p, d.ledger).value.value, i);
      }
    }
  }

  lemma LogStaysOk(p: Application, d: Disk, rec: Recovery)
    requires CheckRecovery(p, rec).Ok? && Reconcile(p, d, rec).Ok?
    ensures LogOk(p, d.log)
  {}

  lemma PrefixBound(p: Application, d: Disk, rec: Recovery, k: nat)
    requires CheckRecovery(p, rec).Ok? && Reconcile(p, d, rec) == Ok((k, false))
    ensures k <= |p.events|
  {
    ProjectionOf(p, rec);
  }
}