/**
 Ledgers whose stage rows stand out of order. No run of the program leads to one, but a run that finds one appends the
 missing rows before it refuses; here is what that and the runs after it come to.
 */
module DispatchOrder {
  import opened Common
  import opened JsonText
  import opened Ledger
  import opened LedgerFile
  import opened LedgerFraming
  import opened Resumption
  import opened DispatchApplication
  import opened DispatchRows
  import opened DispatchPhases
  import opened DispatchSafety
  import opened DispatchStore

  // ---------------------------------------------------------------- refusals and reruns

  /** How often a missing stage is followed by one that is there: at most twice among four stages. */
  ghost function Rises(p: Application, rows: seq<Record>): (n: nat)
    ensures n <= 2
  {
    RiseAt(p, rows, 1) + RiseAt(p, rows, 2) + RiseAt(p, rows, 3)
  }

  ghost function RiseAt(p: Application, rows: seq<Record>, stage: nat): nat
    requires 0 < stage < 4
  {
    if Missing(p, rows, stage - 1) && Present(p, rows, stage) then 1 else 0
  }

  /** Every refusal removes one. */
  lemma RefusalProgress(p: Application, rows: seq<Record>, after: seq<Record>, j: nat)
    requires Fills(p, rows, after, j)
    ensures Rises(p, after) == Rises(p, rows) - 1
  {
    hide StageRow;
    var i: nat :| FirstGap(p, rows, i, j);
    assert Missing(p, rows, j - 1) && Present(p, rows, j) && Present(p, after, j - 1);
    forall k: nat | 0 < k < 4 ensures RiseAt(p, after, k) == if k == j then 0 else RiseAt(p, rows, k) {
      assert k < j ==> Present(p, after, k - 1) && Present(p, after, k);
      assert k < j ==> Present(p, rows, k - 1) || Missing(p, rows, k);
      assert k > j ==>
        StageRow(p, after, k - 1) == StageRow(p, rows, k - 1) && StageRow(p, after, k) == StageRow(p, rows, k);
    }
    assert RiseAt(p, rows, j) == 1;
  }

  /** Attempts one after the other, all but the last refused because of the order of the stage rows. */
  ghost predicate Refusals(p: Application, disks: seq<Disk>, clocks: seq<string>,
    results: seq<Outcome<Receipt, AppError>>, writes: nat)
  {
    && |disks| == |results| + 1 == |clocks| + 1 && results != []
    && (forall i | 0 <= i < |results| :: Applies(p, clocks[i], disks[i], writes, disks[i + 1], results[i]))
    && (forall i | 0 <= i < |results| - 1 :: RefusedForOrder(results[i]))
  }

  /**
   What reruns do on an out-of-order ledger: each refusal fills a gap, so at most two attempts are refused, and the one
   after them ends on the disk and with the answer of the one run that does not mind the order.
   */
  lemma {:induction false} RefusalsEnd(p: Application, disks: seq<Disk>, clocks: seq<string>,
    results: seq<Outcome<Receipt, AppError>>, writes: nat)
    requires p.StageCount() == 4 && Refusals(p, disks, clocks, results, writes)
    requires Run(Applying(p), clocks[0], disks[0], writes).1.Completed?
    ensures |results| <= Rises(p, disks[0].ledger) + 1 <= 3
    ensures RefusedForOrder(results[|results| - 1]) ==> |results| <= Rises(p, disks[0].ledger)
    ensures !RefusedForOrder(results[|results| - 1]) ==>
      (disks[|results|], results[|results| - 1]) == Run(Applying(p), clocks[0], disks[0], writes)
    decreases |results|
  {
    hide Run, Rises, Fills, InOrder;
    var now, first, d, res := clocks[0], disks[0], disks[1], results[0];
    assert Applies(p, now, first, writes, d, res);
    if RefusedForOrder(res) {
      RefusalProgress(p, first.ledger, d.ledger, res.error.stage);
      if |results| > 1 {
        var left: nat :| Same(p, now, first, writes, d, left);
        SameDisk(p, now, clocks[1], d, left, writes);
        assert Applies(p, clocks[1], disks[1], writes, disks[2], results[1]);
        RefusalsEnd(p, disks[1..], clocks[1..], results[1..], writes);
      }
    }
  }

  /** Once started, neither the clock nor further writes change what a completed run comes to. */
  lemma SameDisk(p: Application, now: string, later: string, d: Disk, left: nat, writes: nat)
    requires d.recovery.Some? && left <= writes && Run(Applying(p), now, d, left).1.Completed?
    ensures Run(Applying(p), later, d, writes) == Run(Applying(p), now, d, left)
  {
    hide Run, Next;
    ClockRead(p);
    ClockIrrelevant(Applying(p), Started, now, later, d, left);
    RunSettled(Applying(p), later, d, left, writes);
  }

  /**
   A run of the program that is not refused for the order, where the step semantics completes, completes the same way.
   */
  lemma OrderDecides(p: Application, now: string, first: Disk, writes: nat, d: Disk, res: Outcome<Receipt, AppError>)
    requires p.StageCount() == 4 && Applies(p, now, first, writes, d, res)
      && Run(Applying(p), now, first, writes).1.Completed?
    ensures if InOrder(p, first.ledger) then (d, res) == Run(Applying(p), now, first, writes) else RefusedForOrder(res)
  {
    hide Run, StageRow;
    if RefusedForOrder(res) {
      var j := res.error.stage;
      assert Fills(p, first.ledger, d.ledger, j);
      var i: nat :| FirstGap(p, first.ledger, i, j);
      assert Missing(p, first.ledger, i) && Present(p, first.ledger, j);
    }
  }

  // ---------------------------------------------------------------- finalization without the guard

  /** Where finalization stands in the step semantics. */
  ghost predicate StandsAt(p: Application, d: Disk, rec: Recovery, grant: Record, stage: nat) {
    && Finalizing(p, d, rec) && Admit(p, d.ledger) == Ok(Some(grant)) && PassedTo(p, d.ledger, rec, grant, stage)
  }

  /** A stage that passes takes at most two writes. */
  lemma StageRun(p: Application, now: string, d: Disk, rec: Recovery, grant: Record, stage: nat, left: nat)
    returns (after: Disk, current: Recovery, rest: nat)
    requires ApplicationValid(p) && p.StageCount() == 4 && stage < 4 && left >= 2
    requires StandsAt(p, d, rec, grant, stage) && Passes(p, d.ledger, rec, grant, stage)
    ensures Run(Applying(p), now, d, left) == Run(Applying(p), now, after, rest) && left <= rest + 2
    ensures StandsAt(p, after, current, grant, stage + 1) && Grown(p, d.ledger, after.ledger, rec, grant, stage)
    ensures EventIds(current) == EventIds(rec) && current.startedAt == rec.startedAt && after.receipt == d.receipt
  {
    hide LogOk, LogHead, Prepare, Reconcile, CursorOk, Run, Next, Admit, NextStage, StageRow, ApplicationValid,
      CheckRecovery, StageEvent, PassedTo, Finalizing, Grown, Passes, DueNow, EventOk, HasId, OneLine, EventSeparated;
    var filled: Disk;
    filled, rest := RowRun(p, now, d, rec, grant, stage, left);
    after, current := filled, rec;
    FinalizingShape(p, filled, rec);
    FinalizingRecovery(p, filled, rec);
    NextFinalizes(p, now, filled, rec);
    PassedNext(p, filled, rec, grant, 0, stage);
    StageDecision(p, filled, rec, grant, stage);
    RunStep(p, now, filled, rest);
    var row := StageRow(p, filled.ledger, stage).value.value;
    if rec.stageSequences[stage] != Some(row.Sequence()) {
      current := AtStage(rec, stage, row.Sequence());
      after, rest := filled.(recovery := Some(current)), rest - 1;
    }
    assert after == filled.(recovery := Some(current)) && EventIds(current) == EventIds(rec);
    NowPassed(p, filled.ledger, rec, current, grant, stage);
    StillFinalizing(p, filled, rec, current);
  }

  lemma StillFinalizing(p: Application, d: Disk, rec: Recovery, current: Recovery)
    requires Finalizing(p, d, rec) && |current.stageSequences| == 4
    requires current == rec.(status := current.status, stageSequences := current.stageSequences)
    ensures Finalizing(p, d.(recovery := Some(current)), current)
  {
    hide Admit, LogOk, CursorOk, Prepare;
  }

  /** The row first: found, or appended and read back. */
  lemma RowRun(p: Application, now: string, d: Disk, rec: Recovery, grant: Record, stage: nat, left: nat)
    returns (after: Disk, rest: nat)
    requires ApplicationValid(p) && p.StageCount() == 4 && stage < 4 && left >= 1
    requires StandsAt(p, d, rec, grant, stage) && Passes(p, d.ledger, rec, grant, stage)
    ensures Run(Applying(p), now, d, left) == Run(Applying(p), now, after, rest) && left <= rest + 1
    ensures StandsAt(p, after, rec, grant, stage) && Grown(p, d.ledger, after.ledger, rec, grant, stage)
    ensures Present(p, after.ledger, stage) && after.receipt == d.receipt
    ensures var row := StageRow(p, after.ledger, stage).value.value;
      row.Event() == StageEvent(p, grant, stage, row.Event().timestamp, EventIds(rec))
  {
    hide LogOk, LogHead, Prepare, Reconcile, CursorOk, Run, Next, Admit, NextStage, StageRow, ApplicationValid,
      CheckRecovery, PassedTo, Finalizing, EventOk, HasId, OneLine, EventSeparated, StageAccounting, StageEvidence, Put,
        Get;
    after, rest := d, left;
    if Missing(p, d.ledger, stage) {
      FinalizingShape(p, d, rec);
      NextFinalizes(p, now, d, rec);
      PassedNext(p, d, rec, grant, 0, stage);
      StageDecision(p, d, rec, grant, stage);
      RunStep(p, now, d, left);
      var due := DueNow(p, rec, grant, stage);
      var row := Seal(p.hash, d.ledger, due);
      GrantShape(p, d.ledger);
      StageEventShape(p, grant, stage, rec.startedAt, EventIds(rec));
      AppendStage(p, d.ledger, stage, due);
      RowReads(p, d.ledger, due);
      FinalizingReads(p, d, rec);
      after, rest := WithRow(d, row), left - 1;
      LedgerOnly(p, d, after, rec);
      StillPassed(p, d.ledger, after.ledger, rec, grant, stage);
      GrownBy(p, d.ledger, rec, grant, stage, row);
    }
  }

  ghost predicate AllPass(p: Application, rows: seq<Record>, rec: Recovery, grant: Record, stage: nat) {
    && (forall k: nat | stage <= k < 4 :: Passes(p, rows, rec, grant, k))
    && (forall k: nat, l: nat | stage <= k < l < 4 && Missing(p, rows, k) && Missing(p, rows, l) ::
          DueNow(p, rec, grant, k).eventId != DueNow(p, rec, grant, l).eventId)
  }

  lemma StillPass(p: Application, rows: seq<Record>, after: seq<Record>, rec: Recovery, current: Recovery,
    grant: Record, stage: nat)
    requires stage < 4 && AllPass(p, rows, rec, grant, stage) && Grown(p, rows, after, rec, grant, stage)
    requires EventIds(current) == EventIds(rec) && current.startedAt == rec.startedAt
    ensures AllPass(p, after, current, grant, stage + 1)
  {
    hide StageRow, HasId, EventOk, EventSeparated, StageEvent;
    forall k: nat | stage < k < 4 ensures Passes(p, after, current, grant, k) {
      assert Passes(p, rows, rec, grant, k);
      assert Missing(p, rows, k) <==> Missing(p, after, k);
      assert Missing(p, rows, stage) && Missing(p, rows, k) ==>
        DueNow(p, rec, grant, stage).eventId != DueNow(p, rec, grant, k).eventId;
    }
    forall k: nat, l: nat | stage < k < l < 4 && Missing(p, after, k) && Missing(p, after, l)
      ensures DueNow(p, current, grant, k).eventId != DueNow(p, current, grant, l).eventId
    {
      assert Missing(p, rows, k) && Missing(p, rows, l);
      assert DueNow(p, rec, grant, k).eventId != DueNow(p, rec, grant, l).eventId;
    }
  }

  /** Without the guard, finalization completes from any stage on when all remaining stages pass. */
  lemma {:induction false} FinalizeRun(p: Application, now: string, d: Disk, rec: Recovery, grant: Record, stage: nat,
    left: nat)
    requires ApplicationValid(p) && p.StageCount() == 4 && stage <= 4 && d.receipt.None?
    requires StandsAt(p, d, rec, grant, stage) && AllPass(p, d.ledger, rec, grant, stage) && left >= 2 * (4 - stage) + 2
    ensures Run(Applying(p), now, d, left).1.Completed?
    decreases 4 - stage
  {
    hide LogOk, LogHead, Prepare, Reconcile, CursorOk, Run, Next, Admit, NextStage, StageRow, ApplicationValid,
      CheckRecovery, PassedTo, Finalizing, Grown, Passes, AllPass, Summary, NextReceipt, StandsAt;
    if stage < 4 {
      assert Passes(p, d.ledger, rec, grant, stage) by { FirstPasses(p, d.ledger, rec, grant, stage); }
      var after, current, rest := StageRun(p, now, d, rec, grant, stage, left);
      StillPass(p, d.ledger, after.ledger, rec, current, grant, stage);
      FinalizeRun(p, now, after, current, grant, stage + 1, rest);
    } else {
      ReceiptRun(p, now, d, rec, grant, left);
    }
  }

  lemma FirstPasses(p: Application, rows: seq<Record>, rec: Recovery, grant: Record, stage: nat)
    requires stage < 4 && AllPass(p, rows, rec, grant, stage)
    ensures Passes(p, rows, rec, grant, stage)
  {
    hide Passes;
  }

  lemma ReceiptRun(p: Application, now: string, d: Disk, rec: Recovery, grant: Record, left: nat)
    requires p.StageCount() == 4 && d.receipt.None? && StandsAt(p, d, rec, grant, 4) && left >= 2
    ensures Run(Applying(p), now, d, left).1.Completed?
  {
    hide Run, Next, Admit, StageRow, Reconcile, CheckRecovery, Summary, PassedTo, Finalizing, Receipting;
    assert Receipting(p, d, rec) by { ReceiptingFrom(p, d, rec, grant); }
    NextIsReceipt(p, now, d, rec);
    RunStep(p, now, d, left);
    var result := Summary(p, d.ledger, rec);
    ReceiptKeeps(p, d, rec, result);
    var written := d.(receipt := Some(result));
    NextIsReceipt(p, now, written, rec);
    RunStep(p, now, written, left - 1);
    CloseKeeps(p, written, rec);
    var closed := rec.(status := Receipted, receiptCreated := true);
    var done := written.(recovery := Some(closed));
    NextIsReceipt(p, now, done, closed);
    RunStep(p, now, done, left - 2);
    ReceiptingShape(p, written, rec);
  }

  lemma ReceiptingFrom(p: Application, d: Disk, rec: Recovery, grant: Record)
    requires p.StageCount() == 4 && StandsAt(p, d, rec, grant, 4)
    ensures Receipting(p, d, rec)
  {
    hide Admit, Finalizing, PassedTo;
  }

  // -------------------- how an out-of-order ledger arises, and what becomes of it

  /** The row of the second stage appended before that of the first. */
  function SecondFirst(p: Application, d: Disk, rec: Recovery, grant: Record): Disk {
    WithRow(d, Seal(p.hash, d.ledger, DueNow(p, rec, grant, 1)))
  }

  /** On such a ledger finalization is refused at the second stage, although without the guard it would complete. */
  lemma Disorder(p: Application, now: string, d: Disk, rec: Recovery, grant: Record, writes: nat)
    requires ApplicationValid(p) && p.StageCount() == 4 && d.receipt.None? && writes >= 10
    requires StandsAt(p, d, rec, grant, 0) && AllPass(p, d.ledger, rec, grant, 0)
    requires forall k: nat | k < 4 :: Missing(p, d.ledger, k)
    ensures var after := SecondFirst(p, d, rec, grant);
      && FirstGap(p, after.ledger, 0, 1) && Refused(p, after.ledger, rec, grant, 1)
      && StandsAt(p, after, rec, grant, 0) && Run(Applying(p), now, after, writes).1.Completed?
      && Rises(p, after.ledger) == 1
  {
    hide LogOk, LogHead, Prepare, Reconcile, CursorOk, Run, Next, Admit, NextStage, StageRow, ApplicationValid,
      CheckRecovery, Finalizing, StageAccounting, StageEvidence, Put, Get, EventOk, HasId, OneLine, EventSeparated;
    var due := DueNow(p, rec, grant, 1);
    var row := Seal(p.hash, d.ledger, due);
    var after := SecondFirst(p, d, rec, grant);
    assert Passes(p, d.ledger, rec, grant, 1) && Missing(p, d.ledger, 1);
    GrantShape(p, d.ledger);
    StageEventShape(p, grant, 1, rec.startedAt, EventIds(rec));
    AppendStage(p, d.ledger, 1, due);
    RowReads(p, d.ledger, due);
    FinalizingReads(p, d, rec);
    LedgerOnly(p, d, after, rec);
    GrownBy(p, d.ledger, rec, grant, 1, row);
    DisorderPasses(p, d.ledger, after.ledger, rec, grant, row);
    FinalizeRun(p, now, after, rec, grant, 0, writes);
  }

  lemma DisorderPasses(p: Application, rows: seq<Record>, after: seq<Record>, rec: Recovery, grant: Record, row: Record)
    requires AllPass(p, rows, rec, grant, 0) && Grown(p, rows, after, rec, grant, 1)
    requires forall k: nat | k < 4 :: Missing(p, rows, k)
    requires StageRow(p, after, 1) == Ok(Some(row)) && row.Event() == DueNow(p, rec, grant, 1)
    ensures AllPass(p, after, rec, grant, 0) && FirstGap(p, after, 0, 1) && Refused(p, after, rec, grant, 1)
    ensures Rises(p, after) == 1
  {
    hide StageRow, HasId, EventOk, EventSeparated, StageAccounting, StageEvidence, Put;
    forall k: nat | k < 4 ensures Passes(p, after, rec, grant, k) {
      assert Passes(p, rows, rec, grant, k) && Missing(p, rows, k);
    }
    assert Missing(p, rows, 0) && Missing(p, after, 0);
    assert Missing(p, rows, 2) && Missing(p, rows, 3) && Missing(p, after, 2) && Missing(p, after, 3);
    assert FirstGap(p, after, 0, 1);
  }

  /**
   Attempts with writes enough: the first is refused at the second stage, the next ends like a run without the guard.
   */
  ghost predicate RefusedThenDone(p: Application, d: Disk, writes: nat) {
    && (forall now, after, res | Applies(p, now, d, writes, after, res) :: res == Failed(OutOfOrder(1)))
    && (forall now, later, after, res, last, end
          | Applies(p, now, d, writes, after, res) && Applies(p, later, after, writes, last, end) ::
          end.Completed? && (last, end) == Run(Applying(p), now, d, writes) && SecondBeforeFirst(p, after.ledger))
  }

  /** The row of the second stage has the smaller sequence. */
  ghost predicate SecondBeforeFirst(p: Application, rows: seq<Record>) {
    && Present(p, rows, 0) && Present(p, rows, 1)
    && StageRow(p, rows, 1).value.value.Sequence() < StageRow(p, rows, 0).value.value.Sequence()
  }

  lemma {:induction false} MatchingMembers(p: Application, rows: seq<Record>, eventType: string)
    ensures forall r :: r in Matching(p, rows, eventType) <==> r in rows && Mine(p, r, eventType)
  {
    if rows != [] {
      MatchingMembers(p, rows[..|rows| - 1], eventType);
      assert rows == rows[..|rows| - 1] + [rows[|rows| - 1]];
    }
  }

  /** A row found now and not before lies behind every row found before. */
  lemma FilledBehind(p: Application, rows: seq<Record>, after: seq<Record>)
    requires WellChained(p.hash, after) && rows <= after && Missing(p, rows, 0) && Present(p, rows, 1)
    requires Present(p, after, 0) && StageRow(p, after, 1) == StageRow(p, rows, 1)
    ensures SecondBeforeFirst(p, after)
  {
    hide Matching, Mine, Manifested;
    var first, second := StageRow(p, after, 0).value.value, StageRow(p, rows, 1).value.value;
    FoundIn(p, after, 0);
    FoundIn(p, rows, 1);
    MatchingMembers(p, rows, STAGES[0]);
    assert Matching(p, rows, STAGES[0]) == [];
    assert first !in rows;
    var i :| 0 <= i < |after| && after[i] == first;
    var j :| 0 <= j < |rows| && rows[j] == second;
    assert forall k | 0 <= k < |rows| :: after[k] == rows[k] && rows[k] in rows;
    assert after[j] == second && Linked(p.hash, after, i) && Linked(p.hash, after, j);
  }

  lemma FoundIn(p: Application, rows: seq<Record>, stage: nat)
    requires stage < 4 && Present(p, rows, stage)
    ensures var r := StageRow(p, rows, stage).value.value; r in rows && Mine(p, r, STAGES[stage])
  {
    MatchingMembers(p, rows, STAGES[stage]);
    var found := Matching(p, rows, STAGES[stage]);
    assert found[0] in found;
  }

  lemma CompletedAdmits(p: Application, now: string, d: Disk, writes: nat)
    requires p.StageCount() == 4 && Run(Applying(p), now, d, writes).1.Completed?
    ensures WellChained(p.hash, d.ledger)
  {
    hide LeaseUsable, Run, Begin, Resume, LogOk, CheckRecovery, WellChained;
    RunStep(p, now, d, writes);
    AdmitParts(p, d.ledger);
  }

  lemma DisorderFate(p: Application, d: Disk, rec: Recovery, grant: Record, writes: nat)
    requires ApplicationValid(p) && p.StageCount() == 4 && d.receipt.None? && writes >= 10
    requires StandsAt(p, d, rec, grant, 0) && AllPass(p, d.ledger, rec, grant, 0)
    requires forall k: nat | k < 4 :: Missing(p, d.ledger, k)
    ensures FirstGap(p, SecondFirst(p, d, rec, grant).ledger, 0, 1)
    ensures RefusedThenDone(p, SecondFirst(p, d, rec, grant), writes)
  {
    hide Run, ApplicationValid, Applies, FirstGap, StandsAt, AllPass, Missing, SecondFirst, Rises, SecondBeforeFirst;
    var bad := SecondFirst(p, d, rec, grant);
    Disorder(p, "", d, rec, grant, writes);
    forall now, after, res | Applies(p, now, bad, writes, after, res) ensures res == Failed(OutOfOrder(1)) {
      Disorder(p, now, d, rec, grant, writes);
      RefusedOnce(p, now, bad, writes, after, res);
    }
    forall now, later, after, res, last, end | Applies(p, now, bad, writes, after, res)
      && Applies(p, later, after, writes, last, end)
      ensures end.Completed? && (last, end) == Run(Applying(p), now, bad, writes) && SecondBeforeFirst(p, after.ledger)
    {
      Disorder(p, now, d, rec, grant, writes);
      RefusedOnce(p, now, bad, writes, after, res);
      DoneNext(p, now, later, bad, writes, after, res, last, end);
      SecondStays(p, now, bad, writes, after, res);
    }
  }

  lemma RefusedOnce(p: Application, now: string, d: Disk, writes: nat, after: Disk, res: Outcome<Receipt, AppError>)
    requires p.StageCount() == 4 && Applies(p, now, d, writes, after, res)
      && Run(Applying(p), now, d, writes).1.Completed?
    requires FirstGap(p, d.ledger, 0, 1)
    ensures res == Failed(OutOfOrder(1))
  {
    hide Run, StageRow;
    assert Missing(p, d.ledger, 0) && Present(p, d.ledger, 1);
    OrderDecides(p, now, d, writes, after, res);
    var j := res.error.stage;
    var i: nat :| FirstGap(p, d.ledger, i, j);
    OneGap(p, d.ledger, 0, 1, i, j);
  }

  /** The refusal put the row of the first stage behind that of the second. */
  lemma SecondStays(p: Application, now: string, d: Disk, writes: nat, after: Disk, res: Outcome<Receipt, AppError>)
    requires p.StageCount() == 4 && Applies(p, now, d, writes, after, res)
      && Run(Applying(p), now, d, writes).1.Completed?
    requires FirstGap(p, d.ledger, 0, 1) && res == Failed(OutOfOrder(1))
    ensures SecondBeforeFirst(p, after.ledger)
  {
    hide Run, StageRow, WellChained, SecondBeforeFirst;
    assert Missing(p, d.ledger, 0) && Present(p, d.ledger, 1);
    assert Fills(p, d.ledger, after.ledger, 1);
    var left: nat :| Same(p, now, d, writes, after, left);
    CompletedAdmits(p, now, after, left);
    FilledBehind(p, d.ledger, after.ledger);
  }

  /** The only gap is filled, so there is no second refusal. */
  lemma DoneNext(p: Application, now: string, later: string, d: Disk, writes: nat,
    after: Disk, res: Outcome<Receipt, AppError>, last: Disk, end: Outcome<Receipt, AppError>)
    requires p.StageCount() == 4 && Applies(p, now, d, writes, after, res)
      && Applies(p, later, after, writes, last, end)
    requires Run(Applying(p), now, d, writes).1.Completed? && res == Failed(OutOfOrder(1)) && Rises(p, d.ledger) == 1
    ensures (last, end) == Run(Applying(p), now, d, writes)
  {
    hide Run, Rises, Applies;
    var disks, clocks, results := [d, after, last], [now, later], [res, end];
    assert disks[1] == after && disks[2] == last && results[1] == end;
    RefusalsEnd(p, disks, clocks, results, writes);
  }
}
