/**
 One concrete application, and what becomes of it: it completes; with a line separator in an event identity, or a blank
 in front of it, it never does; and with its stage rows out of order it is refused once and then completes.
 */
module DispatchExamples {
  import opened Common
  import opened JsonText
  import opened Ledger
  import opened LedgerFile
  import opened LedgerFraming
  import opened LedgerReplay
  import opened Resumption
  import opened Trimming
  import opened DispatchApplication
  import opened DispatchRows
  import opened DispatchPhases
  import opened DispatchSafety
  import opened DispatchStore
  import opened DispatchOrder

  // ---------------------------------------------------------------- which applications write rows that read back

  lemma {:induction false} PutPlain(ms: seq<Member>, k: string, v: Json)
    requires !MembersSeparated(ms) && !Separated(k) && !StringsSeparated(v)
    ensures !MembersSeparated(Put(ms, k, v))
  {
    hide Separated, StrLess;
    if ms != [] && ms[0].key != k && !StrLess(k, ms[0].key) {
      PutPlain(ms[1..], k, v);
      assert Put(ms, k, v)[1..] == Put(ms[1..], k, v);
    } else if ms != [] && ms[0].key == k {
      assert Put(ms, k, v)[1..] == ms[1..];
    } else {
      assert Put(ms, k, v)[1..] == ms;
    }
  }

  lemma PutText(ms: seq<Member>, k: string, s: string)
    requires !MembersSeparated(ms) && Plain(k) && !Separated(s)
    ensures !MembersSeparated(Put(ms, k, Str(s)))
  {
    hide Separated;
    PlainText(k);
    PutPlain(ms, k, Str(s));
  }

  lemma {:induction false} TextsPlain(ids: seq<string>)
    requires forall i | 0 <= i < |ids| :: !Separated(ids[i])
    ensures !ItemsSeparated(seq(|ids|, i requires 0 <= i < |ids| => Str(ids[i])))
  {
    hide Separated;
    if ids != [] {
      var items := seq(|ids|, i requires 0 <= i < |ids| => Str(ids[i]));
      TextsPlain(ids[1..]);
      assert items[1..] == seq(|ids[1..]|, i requires 0 <= i < |ids[1..]| => Str(ids[1..][i]));
    }
  }

  /** The texts an application contributes to its rows hold no separator. */
  ghost predicate PlainInputs(p: Application) {
    && !StringsSeparated(p.tokens) && !StringsSeparated(p.cost) && !Separated(p.workStatus)
    && !Separated(p.returnSha) && !Separated(p.qualitySha) && !Separated(p.manifestSha) && !Separated(p.qualitySelfSha)
  }

  lemma AccountingTexts()
    ensures Plain("observed_tokens") && Plain("observed_cost") && Plain("accounting_status")
    ensures Plain("accounting_scope") && Plain("accounting_method")
  {}

  lemma AccountingValues()
    ensures Plain("accounted") && Plain("unknown") && Plain("managed_ledger_append") && Plain("not_applicable")
    ensures Plain("orcastrata_admitted_executions")
  {}

  lemma PlainAccounting(p: Application, grant: Event, stage: nat)
    requires PlainInputs(p) && !MembersSeparated(grant.accounting)
    ensures !MembersSeparated(StageAccounting(p, grant, stage))
  {
    hide Separated, StringsSeparated, MembersSeparated, Put, Plain;
    AccountingTexts();
    AccountingValues();
    var status, how := if stage == 0 then "accounted" else "unknown", if stage == 0 then "managed_ledger_append"
      else "not_applicable";
    PlainText("observed_tokens");
    PlainText("observed_cost");
    PlainText(status);
    PlainText(how);
    PlainText("orcastrata_admitted_executions");
    var tokens := Put(grant.accounting, "observed_tokens", p.tokens);
    PutPlain(grant.accounting, "observed_tokens", p.tokens);
    var observed := Put(tokens, "observed_cost", p.cost);
    PutPlain(tokens, "observed_cost", p.cost);
    var accounted := Put(observed, "accounting_status", Str(status));
    PutText(observed, "accounting_status", status);
    var scoped := Put(accounted, "accounting_scope", Str("orcastrata_admitted_executions"));
    PutText(accounted, "accounting_scope", "orcastrata_admitted_executions");
    PutText(scoped, "accounting_method", how);
  }

  lemma EvidenceTexts()
    ensures Plain("work_status") && Plain("execution_owner") && Plain("orcastrata_managed")
    ensures Plain("dispatch_return_manifest_sha256") && Plain("quality_receipt_sha256")
  {}

  lemma MoreEvidenceTexts()
    ensures Plain("schedule_manifest_sha256") && Plain("quality_receipt_self_sha256") && Plain("supervisor_event_ids")
  {}

  lemma PlainEvidence(p: Application, grant: Event, stage: nat, ids: seq<string>)
    requires PlainInputs(p) && !MembersSeparated(grant.evidence)
    requires forall i | 0 <= i < |ids| :: !Separated(ids[i])
    ensures !MembersSeparated(StageEvidence(p, grant, stage, ids))
  {
    hide Separated, StringsSeparated, MembersSeparated, Put, Plain, ItemsSeparated;
    EvidenceTexts();
    MoreEvidenceTexts();
    PlainText("orcastrata_managed");
    PlainText("supervisor_event_ids");
    var work := Put(grant.evidence, "work_status", Str(p.workStatus));
    PutText(grant.evidence, "work_status", p.workStatus);
    var owned := Put(work, "execution_owner", Str("orcastrata_managed"));
    PutText(work, "execution_owner", "orcastrata_managed");
    var returned := Put(owned, "dispatch_return_manifest_sha256", Str(p.returnSha));
    PutText(owned, "dispatch_return_manifest_sha256", p.returnSha);
    var quality := Put(returned, "quality_receipt_sha256", Str(p.qualitySha));
    PutText(returned, "quality_receipt_sha256", p.qualitySha);
    var manifest := Put(quality, "schedule_manifest_sha256", Str(p.manifestSha));
    PutText(quality, "schedule_manifest_sha256", p.manifestSha);
    var all := Put(manifest, "quality_receipt_self_sha256", Str(p.qualitySelfSha));
    PutText(manifest, "quality_receipt_self_sha256", p.qualitySelfSha);
    var items := Arr(seq(|ids|, i requires 0 <= i < |ids| => Str(ids[i])));
    assert !StringsSeparated(items) by { TextsPlain(ids); ArrayPlain(items.items); }
    PutPlain(all, "supervisor_event_ids", items);
  }

  lemma ArrayPlain(items: seq<Json>)
    requires !ItemsSeparated(items)
    ensures !StringsSeparated(Arr(items))
  {}

  lemma StageTexts(stage: nat)
    requires stage < 4
    ensures Plain(STAGES[stage]) && Plain("released_at")
  {
    assert Plain("dispatch_finished") && Plain("quality_accepted") && Plain("schedule_closed")
      && Plain("lease_released");
  }

  /** If neither the grant nor what the application adds holds a separator, then every stage row reads back. */
  lemma PlainStages(p: Application, grant: Record, stage: nat, timestamp: string, ids: seq<string>)
    requires stage < 4 && PlainInputs(p) && !EventSeparated(grant.Event()) && !Separated(timestamp)
    requires !Separated(p.markId(STAGES[stage], grant.Id(), p.manifestSha))
    requires forall i | 0 <= i < |ids| :: !Separated(ids[i])
    ensures !EventSeparated(StageEvent(p, grant, stage, timestamp, ids))
  {
    hide Separated, StringsSeparated, MembersSeparated, Put, Plain, StageAccounting, StageEvidence;
    PlainAccounting(p, grant.Event(), stage);
    PlainEvidence(p, grant.Event(), stage, ids);
    StageTexts(stage);
    PlainText(STAGES[stage]);
    PutText(grant.Event().lease, "released_at", timestamp);
  }

  lemma {:induction false} GetSeparated(ms: seq<Member>, k: string)
    requires Get(ms, k).Some? && StringsSeparated(Get(ms, k).value)
    ensures MembersSeparated(ms)
  {
    if ms[0].key != k {
      GetSeparated(ms[1..], k);
    }
  }

  lemma {:induction false} SomeTextSeparated(ids: seq<string>, i: nat)
    requires i < |ids| && Separated(ids[i])
    ensures ItemsSeparated(seq(|ids|, k requires 0 <= k < |ids| => Str(ids[k])))
  {
    hide Separated;
    var items := seq(|ids|, k requires 0 <= k < |ids| => Str(ids[k]));
    if i > 0 {
      SomeTextSeparated(ids[1..], i - 1);
      assert items[1..] == seq(|ids[1..]|, k requires 0 <= k < |ids[1..]| => Str(ids[1..][k]));
    } else {
      assert StringsSeparated(items[0]);
    }
  }

  /** A separator in an event identity gets into the third stage row, so no run completes, whatever its clock. */
  lemma SeparatedIdSticks(p: Application, start: Disk, now: string, writes: nat, i: nat)
    requires ApplicationValid(p) && Fresh(p, start) && p.StageCount() == 4
    requires i < |p.events| && Separated(p.events[i].eventId)
    ensures !Run(Applying(p), now, start, writes).1.Completed?
  {
    hide Run, ApplicationValid, Fresh, StartClear, Separated, Admit, StageRow, HasId, MembersSeparated, ItemsSeparated;
    FreshShape(p, start);
    if Run(Applying(p), now, start, writes).1.Completed? {
      CompletedWasClear(p, now, start, writes);
      ThirdSeparated(p, start, now, i);
      NothingStaged(p, start);
    }
  }

  lemma ThirdSeparated(p: Application, start: Disk, now: string, i: nat)
    requires p.StageCount() == 4 && Admit(p, start.ledger).Ok? && i < |p.events| && Separated(p.events[i].eventId)
    ensures EventSeparated(Due(p, start, now, 2))
  {
    hide Separated, MembersSeparated, ItemsSeparated, Admit, Put, Get, StageAccounting;
    var ids := BundleIds(p);
    var items := Arr(seq(|ids|, k requires 0 <= k < |ids| => Str(ids[k])));
    SomeTextSeparated(ids, i);
    assert StringsSeparated(items);
    var evidence := Due(p, start, now, 2).evidence;
    assert Get(evidence, "supervisor_event_ids") == Some(items) by {
      GetPut(ManifestEvidence(p, Admit(p, start.ledger).value.value.Event()), "supervisor_event_ids", items,
        "supervisor_event_ids");
    }
    GetSeparated(evidence, "supervisor_event_ids");
  }

  function ManifestEvidence(p: Application, grant: Event): seq<Member> {
    StageEvidence(p, grant, 0, [])
  }

  lemma NothingStaged(p: Application, start: Disk)
    requires ApplicationValid(p) && Fresh(p, start) && p.StageCount() == 4
    ensures forall i: nat | i < 4 :: RowOf(p, start, i).None?
  {
    hide Admit, Ours, ApplicationValid, Bare, StageRow;
    StartRows(p, start);
    forall i: nat | i < 4 ensures RowOf(p, start, i).None? {
      StageRowAt(p, start.ledger, start.ledger, None, [], i);
    }
  }

  // ---------------------------------------------------------------- from a clear start to finalization

  /** A run of a clear application after some writes: the phase that many writes later, and still clear. */
  lemma {:induction false} RunTo(p: Application, now: string, start: Disk, d: Disk, ph: Phase, writes: nat)
    returns (after: Disk, later: Phase)
    requires ApplicationValid(p) && Fresh(p, start) && At(p, start, d, ph) && StartClear(p, start)
      && StagesClear(p, start, d, now)
    requires Sound(p, ph) && writes <= Work(p, ph)
    ensures At(p, start, after, later) && StagesClear(p, start, after, now)
    ensures Sound(p, later) && Work(p, later) == Work(p, ph) - writes
    decreases writes
  {
    hide ApplicationValid, Fresh, At, StartClear, StagesClear, Next, Blocked, Astray;
    after, later := d, ph;
    if writes > 0 {
      FreshShape(p, start);
      StepAt(p, now, start, d, ph);
      ClearGoesOn(p, now, start, d, ph);
      SuccWork(p, ph);
      ClearStays(p, now, start, d, ph);
      after, later := RunTo(p, now, start, Next(p, now, d).disk, Succ(p, ph).value, writes - 1);
    }
  }

  /** With the Supervisor part done and no row written, ten writes remain and finalization begins. */
  lemma SupervisorDone(p: Application, now: string, start: Disk) returns (d: Disk, rec: Recovery, grant: Record)
    requires ApplicationValid(p) && Fresh(p, start) && StartClear(p, start) && StagesClear(p, start, start, now)
    requires p.StageCount() == 4
    ensures d.receipt.None? && StandsAt(p, d, rec, grant, 0) && AllPass(p, d.ledger, rec, grant, 0)
    ensures forall k: nat | k < 4 :: Missing(p, d.ledger, k)
  {
    hide ApplicationValid, Fresh, At, StartClear, StagesClear, StandsAt, AllPass, Missing;
    StartAt(p, start);
    var ph: Phase;
    d, ph := RunTo(p, now, start, start, Idle, 1 + 3 * |p.events|);
    EventsExist(p);
    assert ph == Active(|p.events|, false, |p.events|, 0, 0, false, false);
    rec, grant := FinalizationBegins(p, now, start, d, ph);
    AllDue(p, now, start, d, ph, rec, grant);
  }

  lemma FinalizationBegins(p: Application, now: string, start: Disk, d: Disk, ph: Phase)
    returns (rec: Recovery, grant: Record)
    requires ApplicationValid(p) && Fresh(p, start) && At(p, start, d, ph) && StartClear(p, start)
      && p.StageCount() == 4
    requires ph == Active(|p.events|, false, |p.events|, 0, 0, false, false) && StagesClear(p, start, d, now)
    ensures d.recovery == Some(rec) && Admit(p, start.ledger) == Ok(Some(grant))
    ensures d.receipt.None? && StandsAt(p, d, rec, grant, 0)
  {
    hide ApplicationValid, Ours, Bare, MayBegin, Prepare, LogOk, CursorOk, EventsClear, StageEvent, CheckLedger,
      CheckRecovery, Reconcile, Summary, Trimmed;
    FreshShape(p, start);
    rec, grant := d.recovery.value, Admit(p, start.ledger).value.value;
    ReconcileAt(p, start, d, rec, ph);
    CursorAt(p, start, d, rec, ph);
    EventsExist(p);
    RecoveryShape(p, rec);
  }

  lemma AllDue(p: Application, now: string, start: Disk, d: Disk, ph: Phase, rec: Recovery, grant: Record)
    requires ApplicationValid(p) && Fresh(p, start) && At(p, start, d, ph) && p.StageCount() == 4 && ph.Active?
      && ph.marked == 0
    requires StagesClear(p, start, d, now) && d.recovery == Some(rec) && Admit(p, start.ledger) == Ok(Some(grant))
    ensures AllPass(p, d.ledger, rec, grant, 0) && forall k: nat | k < 4 :: Missing(p, d.ledger, k)
  {
    hide ApplicationValid, Fresh, At, Admit, HasId, EventSeparated, IsTimestamp, StageRow, EventOk, StageEvent;
    var marks := MarksOf(p, start.ledger, d.ledger);
    FreshShape(p, start);
    MarksAt(p, start, d, ph);
    MarksFound(p, start, d.ledger, d.recovery, marks);
    RecoveryAt(p, start, d, ph);
    IdsOfBundle(p, rec);
    forall k: nat | k < 4 ensures Missing(p, d.ledger, k) && Passes(p, d.ledger, rec, grant, k) {
      NextIsDue(p, start, rec, k);
      NextIdIs(p, start, rec, k);
      NextEventShape(p, start.ledger, rec, k);
      assert RowOf(p, d, k).None?;
    }
    forall k: nat, l: nat | k < l < 4 ensures DueNow(p, rec, grant, k).eventId != DueNow(p, rec, grant, l).eventId {
      NextIdIs(p, start, rec, k);
      NextIdIs(p, start, rec, l);
    }
  }

  // ---------------------------------------------------------------- the sample

  function SampleGrant(): Event {
    Event("grant", "lease_granted", SAMPLE_TIME, "goal", "checkpoint", "task", "assignment", SAMPLE_DIGEST,
      SAMPLE_DIGEST, SAMPLE_DIGEST, [], [Member("fencing_token", Num(1)), Member("lease_id", Str("lease"))], [], [])
  }

  function SampleHash(b: Body): Digest {
    "f"
  }

  /** The Worker bundle of a dispatch, its two events, under a lease granted by the first row of the ledger. */
  function Sample(id: string): Application {
    Application(
      Scheduled, SampleHash, (b: LogBody) => "e", (s: Runtime, e: SupervisorEvent) => Some((s.content, e.payload)),
      (marker: string, grant: Digest, manifest: Digest) => if Text(marker) then marker else "none",
      (e: Event) => true, (s: Runtime) => true, false, "application",
      [ SupervisorEvent(id + ":route", SAMPLE_TIME, "route_resolved", "lane", ""),
        SupervisorEvent(id + ":result", SAMPLE_TIME, "worker_result", "lane", "") ],
      SAMPLE_DIGEST, SampleGrant().lease, "lease", 1, ZERO_HASH, "f", Num(1), Num(1), "selected",
      SAMPLE_DIGEST, SAMPLE_DIGEST, SAMPLE_DIGEST)
  }

  function SampleDisk(): Disk {
    Disk([], Runtime(0, ZERO_HASH, None, ""), [Seal(SampleHash, [], SampleGrant())], true, None, None)
  }

  lemma SampleValid(id: string)
    ensures ApplicationValid(Sample(id)) && PlainInputs(Sample(id))
  {
    hide Plain, Separated, Get;
    SamplesValid();
    PlainText(SAMPLE_DIGEST);
    SampleLease();
    SampleWords();
  }

  lemma SampleWords()
    ensures Text("none") && !Separated("f") && !Separated("selected") && "lease" != ""
  {}

  lemma SampleGrantValid()
    ensures EventOk(SampleGrant()) && !EventSeparated(SampleGrant())
  {
    hide IsTimestamp, IsDigest, Zeros;
    SamplesValid();
    PlainText(SAMPLE_DIGEST);
    PlainText(SAMPLE_TIME);
    SampleTexts();
    SampleLease();
  }

  lemma SampleTexts()
    ensures Text("grant") && Text("goal") && Text("checkpoint") && Text("task") && Text("assignment")
    ensures !Separated("grant") && !Separated("goal") && !Separated("checkpoint") && !Separated("task")
      && !Separated("assignment")
    ensures !Separated("lease_granted")
  {}

  lemma LeaseKeys()
    ensures Plain("lease_id") && Plain("fencing_token") && Plain("lease") && "lease_id" != "fencing_token"
  {
    assert |"lease_id"| == 8 && |"fencing_token"| == 13;
  }

  lemma SampleLease()
    ensures !MembersSeparated(SampleGrant().lease)
    ensures Get(SampleGrant().lease, "lease_id") == Some(Str("lease"))
  {
    hide Plain, Separated;
    LeaseKeys();
    PlainText("lease_id");
    PlainText("fencing_token");
    PlainText("lease");
    var fence, id := Member("fencing_token", Num(1)), Member("lease_id", Str("lease"));
    assert [fence, id][1..] == [id] && [id][1..] == [];
    assert !MembersSeparated([id]);
    assert Get([id], "lease_id") == Some(Str("lease"));
    assert |fence.key| == 13 && |"lease_id"| == 8;
    assert fence.key != "lease_id";
  }

  lemma SampleFresh(id: string)
    ensures Fresh(Sample(id), SampleDisk())
    ensures Admit(Sample(id), SampleDisk().ledger) == Ok(Some(SampleDisk().ledger[0]))
  {
    hide EventOk, IsTimestamp, IsDigest, Zeros, WellChained, Verify, Get, Matching, Bare;
    var p, rows := Sample(id), SampleDisk().ledger;
    SampleGrantValid();
    SampleLease();
    assert WellChained(SampleHash, []) by { Nothing(SampleHash); }
    SealExtends(SampleHash, [], SampleGrant());
    assert [] + rows == rows;
    AdmitParts(p, rows);
    assert FindGrant(p, rows) == Ok(rows[0]);
    SampleUsable(p);
  }

  lemma Nothing(hash: Hash)
    ensures WellChained(hash, []) && !HasId([], "grant")
  {}

  lemma SampleUsable(p: Application)
    requires p.leaseId == "lease" && p.lease == SampleGrant().lease
    ensures LeaseUsable(p, SampleDisk().ledger).Ok? && Bare(Ours(p, SampleDisk().ledger))
  {
    hide Get, Ours, Matching;
    var rows := SampleDisk().ledger;
    SampleLease();
    GrantedIsNoStage();
    assert rows[..0] == [];
    GrantOnly(p);
    assert Grants(rows[0], "lease");
    forall r, i: nat | r in Ours(p, rows) && i < 4 ensures r.Type() != STAGES[i] {
      OursAreOurs(p, rows);
      StageNames(i);
    }
  }

  lemma GrantOnly(p: Application)
    ensures forall kind: string | kind != "lease_granted" :: Matching(p, SampleDisk().ledger, kind) == []
  {
    hide Get;
    var rows := SampleDisk().ledger;
    assert rows[..0] == [];
  }

  lemma GrantedIsNoStage()
    ensures "lease_granted" !in {"execution_unknown", "lease_expired", "lease_recovered", "lease_released"}
  {
    assert |"lease_granted"| == 13 && |"execution_unknown"| == 17 && |"lease_recovered"| == 15
      && |"lease_released"| == 14;
    assert "lease_granted"[6] == 'g' && "lease_expired"[6] == 'e';
  }

  // ---------------------------------------------------------------- it completes

  lemma StripKeeps(s: string)
    requires s != "" && !IsSpace(s[0]) && !IsSpace(s[|s| - 1])
    ensures Strip(s) == s
  {}

  lemma SampleTrimmed()
    ensures Strip(SAMPLE_TIME) == SAMPLE_TIME && Strip("route_resolved") == "route_resolved"
    ensures Strip("worker_result") == "worker_result" && Strip("lane") == "lane"
  {
    StripKeeps(SAMPLE_TIME);
    StripKeeps("route_resolved");
    StripKeeps("worker_result");
    StripKeeps("lane");
  }

  /** Nothing stands in the way of beginning. */
  lemma SampleBegins(id: string)
    ensures MayBegin(Sample(id), SampleDisk()).Ok?
      && Prepare(Sample(id), SampleDisk().state, 2).Some?
    ensures LogOk(Sample(id), SampleDisk().log) && CursorOk(SampleDisk().log, SampleDisk().state)
    ensures Strip(id + ":route") == id + ":route" && Strip(id + ":result") == id + ":result" ==>
      StartClear(Sample(id), SampleDisk())
  {
    hide Admit, Get, Strip, Zeros, Ours, Bare, Matching, ApplicationValid;
    var p, d := Sample(id), SampleDisk();
    SampleValid(id);
    SampleFresh(id);
    FreshShape(p, d);
    StartRows(p, d);
    forall i: nat | i < 4 ensures StageRow(p, d.ledger, i) == Ok(None) {
      StageRowAt(p, d.ledger, d.ledger, None, [], i);
    }
    StagesAbsent(p, d.ledger, 0);
    assert Prepare(p, d.state, 1).Some?;
    SampleTrimmed();
    assert |id + ":route"| == |id| + 6 && |id + ":result"| == |id| + 7;
  }

  lemma SampleStages(id: string)
    requires !Separated(id + ":route") && !Separated(id + ":result")
    ensures Admit(Sample(id), SampleDisk().ledger).Ok?
    ensures StagesClear(Sample(id), SampleDisk(), SampleDisk(), SAMPLE_TIME)
  {
    hide Admit, Get, Strip, Zeros, ApplicationValid, Separated, EventSeparated, IsTimestamp, StageEvent, PlainInputs;
    var p, d := Sample(id), SampleDisk();
    SampleValid(id);
    SampleFresh(id);
    SampleGrantValid();
    SamplesValid();
    PlainText(SAMPLE_TIME);
    forall i: nat | i < 4
      ensures StageId(p, d, i) == STAGES[i] && !EventSeparated(Due(p, d, SAMPLE_TIME, i))
        && !HasId(d.ledger, StageId(p, d, i))
    {
      SampleMark(i);
      PlainStages(p, d.ledger[0], i, SAMPLE_TIME, BundleIds(p));
    }
    forall i: nat, j: nat | i < j < 4 ensures StageId(p, d, i) != StageId(p, d, j) {
      StagesDiffer(i, j);
    }
  }

  lemma SampleMark(i: nat)
    requires i < 4
    ensures Text(STAGES[i]) && !Separated(STAGES[i]) && STAGES[i] != "grant"
  {
    StageTexts(i);
    PlainText(STAGES[i]);
    assert |"grant"| == 5 && |STAGES[0]| == 17 && |STAGES[1]| == 16 && |STAGES[2]| == 15 && |STAGES[3]| == 14;
    assert '\0' !in STAGES[0] && '\0' !in STAGES[1] && '\0' !in STAGES[2] && '\0' !in STAGES[3];
  }

  lemma IdsTrimmed(id: string)
    requires id != "" && !IsSpace(id[0])
    ensures Strip(id + ":route") == id + ":route" && Strip(id + ":result") == id + ":result"
  {
    StripKeeps(id + ":route");
    StripKeeps(id + ":result");
  }

  lemma StripChanges(s: string)
    requires s != "" && IsSpace(s[0])
    ensures Strip(s) != s
  {
    StripLeftStops(s);
    StripRightKeepsLeft(StripLeft(s));
  }

  lemma WordsPlain()
    ensures !Separated(":route") && !Separated(":result") && !Separated("d") && !Separated(" d")
  {}

  lemma RouteSeparated()
    ensures Sample("a\U{2028}b").events != [] && Separated(Sample("a\U{2028}b").events[0].eventId)
  {
    var route := Sample("a\U{2028}b").events[0].eventId;
    assert IsSeparator(route[1]);
  }

  lemma RouteTrims()
    ensures Sample(" d").events != [] && Trimmed(Sample(" d").events[0]) != Sample(" d").events[0]
  {
    StripChanges(Sample(" d").events[0].eventId);
  }

  lemma IdsPlain(id: string)
    requires !Separated(id)
    ensures !Separated(id + ":route") && !Separated(id + ":result")
  {
    hide IsSeparator;
    assert !Separated(":route") && !Separated(":result") by { WordsPlain(); }
  }

  lemma SampleClear()
    ensures var p, d := Sample("d"), SampleDisk();
      ApplicationValid(p) && Fresh(p, d) && StartClear(p, d) && StagesClear(p, d, d, SAMPLE_TIME)
  {
    hide ApplicationValid, Fresh, StartClear, StagesClear, Strip, Separated, Sample, SampleDisk, MayBegin, Prepare,
      LogOk, CursorOk;
    IdsTrimmed("d");
    WordsPlain();
    IdsPlain("d");
    SampleValid("d");
    SampleFresh("d");
    SampleBegins("d");
    SampleStages("d");
  }

  /** The conditions of completion can be met: here they all hold, and 17 writes are what it takes. */
  lemma SampleCompletes(writes: nat)
    ensures Run(Applying(Sample("d")), SAMPLE_TIME, SampleDisk(), writes).1.Completed? <==>
      writes >= 17
  {
    hide Run, ApplicationValid, Fresh, StartClear, StagesClear;
    var p := Sample("d");
    SampleClear();
    StartAt(p, SampleDisk());
    CompletesAfter(p, SAMPLE_TIME, SampleDisk(), SampleDisk(), Idle, writes);
  }

  // ---------------------------------------------------------------- it never completes

  /** With LINE SEPARATOR in an event identity everything begins well and no run ever completes. */
  lemma SeparatorSticks(now: string, writes: nat)
    ensures ApplicationValid(Sample("a\U{2028}b")) && Fresh(Sample("a\U{2028}b"), SampleDisk())
    ensures StartClear(Sample("a\U{2028}b"), SampleDisk())
    ensures !Run(Applying(Sample("a\U{2028}b")), now, SampleDisk(), writes).1.Completed?
  {
    hide Run, ApplicationValid, Fresh, StartClear, StagesClear, Strip, Separated, Sample, SampleDisk, Prepare, MayBegin;
    var p := Sample("a\U{2028}b");
    IdsTrimmed("a\U{2028}b");
    SampleValid("a\U{2028}b");
    SampleFresh("a\U{2028}b");
    SampleBegins("a\U{2028}b");
    RouteSeparated();
    SeparatedIdSticks(p, SampleDisk(), now, writes, 0);
  }

  /**
   With a blank in front of an event identity everything begins well, the stage rows are clear, and no run ever
   completes.
   */
  lemma BlankSticks(now: string, writes: nat)
    ensures ApplicationValid(Sample(" d")) && Fresh(Sample(" d"), SampleDisk())
    ensures MayBegin(Sample(" d"), SampleDisk()).Ok?
    ensures Prepare(Sample(" d"), SampleDisk().state, 2).Some?
    ensures StagesClear(Sample(" d"), SampleDisk(), SampleDisk(), SAMPLE_TIME)
    ensures !Run(Applying(Sample(" d")), now, SampleDisk(), writes).1.Completed?
  {
    hide Run, ApplicationValid, Fresh, StagesClear, Strip, Separated, Sample, SampleDisk, MayBegin, Prepare, LogOk,
      CursorOk;
    var p := Sample(" d");
    WordsPlain();
    IdsPlain(" d");
    SampleValid(" d");
    SampleFresh(" d");
    SampleBegins(" d");
    SampleStages(" d");
    RouteTrims();
    if Run(Applying(p), now, SampleDisk(), writes).1.Completed? {
      CompletedWasClear(p, now, SampleDisk(), writes);
    }
  }

  // ---------------------------------------------------------------- it is refused once

  /**
   A ledger whose second stage row was written before the first: the first run of the program is refused there, and the
   next one completes, on the disk that a run without the guard would have left.
   */
  lemma OutOfOrderLedger(writes: nat) returns (p: Application, d: Disk)
    requires writes >= 10
    ensures ApplicationValid(p) && p.StageCount() == 4 && FirstGap(p, d.ledger, 0, 1) && RefusedThenDone(p, d, writes)
  {
    hide Run, ApplicationValid, Fresh, StartClear, StagesClear, Strip, Applies, FirstGap, StandsAt, AllPass, Missing,
      RefusedThenDone, SecondFirst;
    p := Sample("d");
    SampleClear();
    var done, rec, grant := SupervisorDone(p, SAMPLE_TIME, SampleDisk());
    d := SecondFirst(p, done, rec, grant);
    DisorderFate(p, done, rec, grant, writes);
  }
}
