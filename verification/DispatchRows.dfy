/**
 The ledger while an application runs: rows of other leases come in between, and the rows of its own lease grow by one
 stage row at a time.
 */
module DispatchRows {
  import opened Common
  import opened JsonText
  import opened Ledger
  import opened LedgerFile
  import opened LedgerFraming
  import opened LedgerReplay
  import opened DispatchApplication

  // ---------------------------------------------------------------- the rows of one lease

  function Ours(p: Application, rows: seq<Record>): seq<Record> {
    if rows == [] then [] else
    Ours(p, rows[..|rows| - 1]) + if OfLease(p, rows[|rows| - 1]) then [rows[|rows| - 1]] else []
  }

  function OfType(rows: seq<Record>, eventType: string): seq<Record> {
    if rows == [] then [] else
    OfType(rows[..|rows| - 1], eventType) + if rows[|rows| - 1].Type() == eventType then [rows[|rows| - 1]] else []
  }

  lemma OursGrows(p: Application, rows: seq<Record>, r: Record)
    ensures Ours(p, rows + [r]) == Ours(p, rows) + if OfLease(p, r) then [r] else []
  {
    assert (rows + [r])[..|rows|] == rows;
  }

  lemma OfTypeGrows(rows: seq<Record>, r: Record, eventType: string)
    ensures OfType(rows + [r], eventType) == OfType(rows, eventType) + if r.Type() == eventType then [r] else []
  {
    assert (rows + [r])[..|rows|] == rows;
  }

  lemma {:induction false} OursAreOurs(p: Application, rows: seq<Record>)
    ensures forall r | r in Ours(p, rows) :: OfLease(p, r) && r in rows
  {
    if rows != [] {
      OursAreOurs(p, rows[..|rows| - 1]);
    }
  }

  lemma {:induction false} MatchingOurs(p: Application, rows: seq<Record>, eventType: string)
    ensures Matching(p, rows, eventType) == OfType(Ours(p, rows), eventType)
  {
    if rows != [] {
      var front, last := rows[..|rows| - 1], rows[|rows| - 1];
      MatchingOurs(p, front, eventType);
      if OfLease(p, last) {
        OfTypeGrows(Ours(p, front), last, eventType);
      } else {
        assert Ours(p, front) + [] == Ours(p, front);
      }
    }
  }

  lemma {:induction false} ActiveOurs(p: Application, rows: seq<Record>)
    requires p.leaseId != ""
    ensures ActiveLease(rows, p.leaseId) == ActiveLease(Ours(p, rows), p.leaseId)
  {
    if rows != [] {
      var front, last := rows[..|rows| - 1], rows[|rows| - 1];
      ActiveOurs(p, front);
      if OfLease(p, last) {
        assert (Ours(p, front) + [last])[..|Ours(p, front)|] == Ours(p, front);
      } else {
        assert Ours(p, front) + [] == Ours(p, front);
      }
    }
  }

  lemma {:induction false} ForeignRowsAreNotOurs(p: Application, rows: seq<Record>, n: nat)
    requires n <= |rows| && forall i | n <= i < |rows| :: !OfLease(p, rows[i])
    ensures Ours(p, rows) == Ours(p, rows[..n])
  {
    if n == |rows| {
      assert rows[..n] == rows;
    } else {
      ForeignRowsAreNotOurs(p, rows[..|rows| - 1], n);
      assert rows[..|rows| - 1][..n] == rows[..n];
    }
  }

  /** Whether the lease may still be used is decided by its own rows. */
  lemma UsableOurs(p: Application, rows: seq<Record>, own: seq<Record>)
    requires p.leaseId != "" && own == Ours(p, rows)
    ensures LeaseUsable(p, rows) == Usable(p, own)
  {
    MatchingOurs(p, rows, "lease_released");
    MatchingOurs(p, rows, "execution_unknown");
    MatchingOurs(p, rows, "lease_expired");
    MatchingOurs(p, rows, "lease_recovered");
    ActiveOurs(p, rows);
  }

  function Usable(p: Application, own: seq<Record>): Result<(), AppError> {
    Decide(p, OfType(own, "execution_unknown"),
      OfType(own, "lease_expired"), OfType(own, "lease_recovered"), OfType(own, "lease_released"),
      ActiveLease(own, p.leaseId))
  }

  // ---------------------------------------------------------------- stage rows

  lemma StageNames(i: nat)
    requires i < 4
    ensures STAGES[i] in EVENT_TYPES
    ensures STAGES[i] != "lease_granted" && STAGES[i] != "execution_unknown"
    ensures STAGES[i] != "lease_expired" && STAGES[i] != "lease_recovered"
    ensures STAGES[i] == "lease_released" <==> i == 3
  {
    var all := ["dispatch_finished", "quality_accepted", "schedule_closed", "lease_released"];
    assert STAGES == all;
    assert |all[0]| == 17 && |all[1]| == 16 && |all[2]| == 15 && |all[3]| == 14;
    assert |"lease_granted"| == 13 && |"execution_unknown"| == 17 && |"lease_expired"| == 13
      && |"lease_recovered"| == 15;
    assert all[0][0] == 'd' && "execution_unknown"[0] == 'e' && all[2][0] == 's' && "lease_recovered"[0] == 'l';
  }

  lemma StagesDiffer(i: nat, j: nat)
    requires i < 4 && j < 4
    ensures STAGES[i] == STAGES[j] <==> i == j
  {
    assert |STAGES[0]| == 17 && |STAGES[1]| == 16 && |STAGES[2]| == 15 && |STAGES[3]| == 14;
  }

  ghost predicate Bare(rows: seq<Record>) {
    forall r, i: nat | r in rows && i < 4 :: r.Type() != STAGES[i]
  }

  lemma {:induction false} BareHasNoStage(rows: seq<Record>, stage: nat)
    requires stage < 4 && Bare(rows)
    ensures OfType(rows, STAGES[stage]) == []
  {
    if rows != [] {
      assert rows[|rows| - 1] in rows;
      assert Bare(rows[..|rows| - 1]);
      BareHasNoStage(rows[..|rows| - 1], stage);
    }
  }

  /** `marks` are the first stage rows of this application, in order. */
  ghost predicate AreMarks(p: Application, grant: Record, rec: Recovery, marks: seq<Record>) {
    && |marks| <= 4
    && forall i | 0 <= i < |marks| :: marks[i].Event() == StageEvent(p, grant, i, rec.startedAt, EventIds(rec))
  }

  lemma {:induction false} MarkOfStage(base: seq<Record>, marks: seq<Record>, stage: nat)
    requires stage < 4 && Bare(base) && |marks| <= 4
    requires forall i | 0 <= i < |marks| :: marks[i].Type() == STAGES[i]
    ensures OfType(base + marks, STAGES[stage]) == if stage < |marks| then [marks[stage]] else []
  {
    if marks == [] {
      assert base + marks == base;
      BareHasNoStage(base, stage);
    } else {
      var n := |marks| - 1;
      MarkOfStage(base, marks[..n], stage);
      assert base + marks == (base + marks[..n]) + [marks[n]];
      OfTypeGrows(base + marks[..n], marks[n], STAGES[stage]);
      StagesDiffer(n, stage);
    }
  }

  /** What the evidence of a stage event says about its manifest. */
  lemma StageEventShape(p: Application, grant: Record, stage: nat, timestamp: string, ids: seq<string>)
    requires stage < 4 && ApplicationValid(p) && grant.Event().lease == p.lease
    ensures var e := StageEvent(p, grant, stage, timestamp, ids);
      && Get(e.lease, "lease_id") == Some(Str(p.leaseId))
      && Get(e.evidence, "schedule_manifest_sha256") == Some(Str(p.manifestSha))
      && Get(e.accounting, "observed_tokens") == Some(p.tokens)
  {
    StageLease(p, grant.Event().lease, timestamp);
    StageEvidenceManifest(p, grant.Event(), stage, ids);
    StageTokens(p, grant.Event(), stage);
  }

  /** The stage events of a dictionary event are dictionary events. */
  lemma StageEventDictionaries(p: Application, grant: Record, stage: nat, timestamp: string, ids: seq<string>)
    requires stage < 4 && ApplicationValid(p) && Dictionaries(grant.Event())
    ensures Dictionaries(StageEvent(p, grant, stage, timestamp, ids))
  {
    hide Dictionary, HexHash, Put, Get;
    var g := grant.Event();
    PutDictionary(g.lease, "released_at", Str(timestamp));
    AccountingDictionary(p, g, stage);
    EvidenceDictionary(p, g, stage, ids);
  }

  lemma AccountingDictionary(p: Application, grant: Event, stage: nat)
    requires Canonical(p.tokens) && Canonical(p.cost) && Dictionary(grant.accounting)
    ensures Dictionary(StageAccounting(p, grant, stage))
  {
    hide Dictionary, Put;
    var managed := stage == 0;
    PutDictionary(grant.accounting, "observed_tokens", p.tokens);
    var tokens := Put(grant.accounting, "observed_tokens", p.tokens);
    PutDictionary(tokens, "observed_cost", p.cost);
    var observed := Put(tokens, "observed_cost", p.cost);
    PutDictionary(observed, "accounting_status", Str(if managed then "accounted" else "unknown"));
    var status := Put(observed, "accounting_status", Str(if managed then "accounted" else "unknown"));
    PutDictionary(status, "accounting_scope", Str("orcastrata_admitted_executions"));
    PutDictionary(Put(status, "accounting_scope", Str("orcastrata_admitted_executions")), "accounting_method",
      Str(if managed then "managed_ledger_append" else "not_applicable"));
  }

  lemma EvidenceDictionary(p: Application, grant: Event, stage: nat, ids: seq<string>)
    requires Dictionary(grant.evidence)
    ensures Dictionary(StageEvidence(p, grant, stage, ids))
  {
    hide Dictionary, Put;
    PutDictionary(grant.evidence, "work_status", Str(p.workStatus));
    var status := Put(grant.evidence, "work_status", Str(p.workStatus));
    PutDictionary(status, "execution_owner", Str("orcastrata_managed"));
    var work := Put(status, "execution_owner", Str("orcastrata_managed"));
    PutDictionary(work, "dispatch_return_manifest_sha256", Str(p.returnSha));
    var returned := Put(work, "dispatch_return_manifest_sha256", Str(p.returnSha));
    PutDictionary(returned, "quality_receipt_sha256", Str(p.qualitySha));
    var quality := Put(returned, "quality_receipt_sha256", Str(p.qualitySha));
    PutDictionary(quality, "schedule_manifest_sha256", Str(p.manifestSha));
    var manifest := Put(quality, "schedule_manifest_sha256", Str(p.manifestSha));
    PutDictionary(manifest, "quality_receipt_self_sha256", Str(p.qualitySelfSha));
    var all := Put(manifest, "quality_receipt_self_sha256", Str(p.qualitySelfSha));
    var items := seq(|ids|, i requires 0 <= i < |ids| => Str(ids[i]));
    StringsCanonical(items);
    PutDictionary(all, "supervisor_event_ids", Arr(items));
  }

  lemma {:induction false} StringsCanonical(items: seq<Json>)
    requires forall j | j in items :: j.Str?
    ensures CanonicalItems(items)
  {
    if items != [] {
      StringsCanonical(items[1..]);
    }
  }

  lemma StageLease(p: Application, lease: seq<Member>, timestamp: string)
    ensures Get(Put(lease, "released_at", Str(timestamp)), "lease_id") == Get(lease, "lease_id")
  {
    GetPut(lease, "released_at", Str(timestamp), "lease_id");
    assert |"released_at"| == 11 && |"lease_id"| == 8;
  }

  lemma StageEvidenceManifest(p: Application, grant: Event, stage: nat, ids: seq<string>)
    ensures Get(StageEvidence(p, grant, stage, ids), "schedule_manifest_sha256") == Some(Str(p.manifestSha))
  {
    var key := "schedule_manifest_sha256";
    var work := Put(Put(grant.evidence, "work_status", Str(p.workStatus)), "execution_owner",
      Str("orcastrata_managed"));
    var returned := Put(work, "dispatch_return_manifest_sha256", Str(p.returnSha));
    var quality := Put(returned, "quality_receipt_sha256", Str(p.qualitySha));
    var manifest := Put(quality, key, Str(p.manifestSha));
    GetPut(quality, key, Str(p.manifestSha), key);
    var all := Put(manifest, "quality_receipt_self_sha256", Str(p.qualitySelfSha));
    GetPut(manifest, "quality_receipt_self_sha256", Str(p.qualitySelfSha), key);
    assert |key| == 24 && |"quality_receipt_self_sha256"| == 27 && |"supervisor_event_ids"| == 20;
    GetPut(all, "supervisor_event_ids", Arr(seq(|ids|, i requires 0 <= i < |ids| => Str(ids[i]))), key);
  }

  lemma StageTokens(p: Application, grant: Event, stage: nat)
    ensures Get(StageAccounting(p, grant, stage), "observed_tokens") == Some(p.tokens)
  {
    var key := "observed_tokens";
    var managed := stage == 0;
    var tokens := Put(grant.accounting, key, p.tokens);
    GetPut(grant.accounting, key, p.tokens, key);
    var observed := Put(tokens, "observed_cost", p.cost);
    GetPut(tokens, "observed_cost", p.cost, key);
    var value := Str(if managed then "accounted" else "unknown");
    var status := Put(observed, "accounting_status", value);
    GetPut(observed, "accounting_status", value, key);
    var scope := Put(status, "accounting_scope", Str("orcastrata_admitted_executions"));
    GetPut(status, "accounting_scope", Str("orcastrata_admitted_executions"), key);
    GetPut(scope, "accounting_method", Str(if managed then "managed_ledger_append" else "not_applicable"), key);
    assert |key| == 15 && |"observed_cost"| == 13 && |"accounting_status"| == 17;
    assert |"accounting_scope"| == 16 && |"accounting_method"| == 17;
  }

  // ---------------------------------------------------------------- the ledger during an application

  /** The disk before the application: no recovery record, no receipt, no stage row of this lease. */
  ghost predicate Fresh(p: Application, d: Disk) {
    && d.recovery.None? && d.receipt.None?
    && Admit(p, d.ledger).Ok?
    && Bare(Ours(p, d.ledger))
  }

  function MarksOf(p: Application, start: seq<Record>, rows: seq<Record>): seq<Record> {
    if p.StageCount() == 0 || |Ours(p, rows)| < |Ours(p, start)| then [] else Ours(p, rows)[|Ours(p, start)|..]
  }

  /** The ledger grew by rows of other leases and by the first stage rows of this application. */
  ghost predicate RowsAt(p: Application, start: seq<Record>, rows: seq<Record>, rec: Option<Recovery>,
    marks: seq<Record>)
  {
    && start <= rows
    && if p.StageCount() == 0 then marks == [] else
       && WellChained(p.hash, rows)
       && Admit(p, rows) == Admit(p, start) && Admit(p, start).Ok?
       && Ours(p, rows) == Ours(p, start) + marks
       && (marks != [] ==> rec.Some? && AreMarks(p, Admit(p, start).value.value, rec.value, marks))
  }

  lemma RowsAtMarks(p: Application, start: seq<Record>, rows: seq<Record>, rec: Option<Recovery>, marks: seq<Record>)
    requires RowsAt(p, start, rows, rec, marks)
    ensures MarksOf(p, start, rows) == marks
  {}

  lemma StartRows(p: Application, d: Disk)
    requires Fresh(p, d)
    ensures RowsAt(p, d.ledger, d.ledger, None, [])
  {
    VerifiedRows(p.hash, d.ledger);
    assert Ours(p, d.ledger) + [] == Ours(p, d.ledger);
  }

  lemma AdmitParts(p: Application, rows: seq<Record>)
    requires p.StageCount() == 4
    ensures Admit(p, rows).Ok? <==> WellChained(p.hash, rows) && FindGrant(p, rows).Ok? && LeaseUsable(p, rows).Ok?
    ensures Admit(p, rows).Ok? ==> Admit(p, rows).value == Some(FindGrant(p, rows).value)
  {
    VerifiedRows(p.hash, rows);
  }

  lemma SameFind(p: Application, rows: seq<Record>, longer: seq<Record>)
    requires FindGrant(p, rows).Ok? && rows <= longer
    ensures FindGrant(p, longer) == FindGrant(p, rows)
  {}

  /** A verified extension whose lease is still usable is admitted under the same grant. */
  lemma SameGrant(p: Application, rows: seq<Record>, longer: seq<Record>)
    requires p.StageCount() == 4 && Admit(p, rows).Ok? && rows <= longer
    requires WellChained(p.hash, longer) && LeaseUsable(p, longer).Ok?
    ensures Admit(p, longer) == Admit(p, rows)
  {
    AdmitParts(p, rows);
    AdmitParts(p, longer);
    SameFind(p, rows, longer);
  }

  lemma SameGrantForeign(p: Application, rows: seq<Record>, longer: seq<Record>)
    requires p.leaseId != "" && p.StageCount() == 4 && Admit(p, rows).Ok? && rows <= longer
    requires WellChained(p.hash, longer) && Ours(p, longer) == Ours(p, rows)
    ensures Admit(p, longer) == Admit(p, rows)
  {
    AdmitParts(p, rows);
    UsableOurs(p, rows, Ours(p, rows));
    UsableOurs(p, longer, Ours(p, rows));
    SameGrant(p, rows, longer);
  }

  /** Rows of other leases keep everything. */
  lemma ForeignRows(p: Application, start: seq<Record>, rows: seq<Record>, rec: Option<Recovery>, marks: seq<Record>,
    longer: seq<Record>)
    requires p.leaseId != "" && RowsAt(p, start, rows, rec, marks)
    requires rows <= longer && WellChained(p.hash, longer)
    requires forall i | |rows| <= i < |longer| :: !OfLease(p, longer[i])
    ensures RowsAt(p, start, longer, rec, marks)
  {
    hide Admit, Ours;
    ForeignRowsAreNotOurs(p, longer, |rows|);
    assert longer[..|rows|] == rows;
    if p.StageCount() != 0 {
      SameGrantForeign(p, rows, longer);
    }
  }

  lemma StageKeepsActive(p: Application, own: seq<Record>, r: Record, stage: nat)
    requires stage < 3 && r.Type() == STAGES[stage]
    ensures ActiveLease(own + [r], p.leaseId) == ActiveLease(own, p.leaseId)
  {
    StageNames(stage);
    assert (own + [r])[..|own|] == own;
    assert !Grants(r, p.leaseId) && !Ends(r, p.leaseId);
  }

  lemma StillUsable(p: Application, own: seq<Record>, r: Record, stage: nat)
    requires stage < 4 && Usable(p, own).Ok? && OfType(own, STAGES[stage]) == []
    requires r.Type() == STAGES[stage] && Manifested(p, r)
    ensures Usable(p, own + [r]).Ok?
  {
    hide ActiveLease, OfType, Manifested;
    StageNames(stage);
    OfTypeGrows(own, r, "execution_unknown");
    OfTypeGrows(own, r, "lease_expired");
    OfTypeGrows(own, r, "lease_recovered");
    OfTypeGrows(own, r, "lease_released");
    if stage < 3 {
      StageKeepsActive(p, own, r, stage);
    }
  }

  lemma SameGrantOwn(p: Application, rows: seq<Record>, r: Record, stage: nat)
    requires p.leaseId != "" && p.StageCount() == 4 && Admit(p, rows).Ok?
    requires stage < 4 && OfType(Ours(p, rows), STAGES[stage]) == []
    requires r.Type() == STAGES[stage] && OfLease(p, r) && Manifested(p, r)
    requires WellChained(p.hash, rows + [r])
    ensures Admit(p, rows + [r]) == Admit(p, rows)
    ensures Ours(p, rows + [r]) == Ours(p, rows) + [r]
  {
    OursGrows(p, rows, r);
    AdmitParts(p, rows);
    UsableOurs(p, rows, Ours(p, rows));
    StillUsable(p, Ours(p, rows), r, stage);
    UsableOurs(p, rows + [r], Ours(p, rows) + [r]);
    SameGrant(p, rows, rows + [r]);
  }

  function NextEvent(p: Application, start: seq<Record>, rec: Recovery, stage: nat): Event
    requires p.StageCount() == 4 && Admit(p, start).Ok? && stage < 4
  {
    StageEvent(p, Admit(p, start).value.value, stage, rec.startedAt, EventIds(rec))
  }

  lemma NextEventShape(p: Application, start: seq<Record>, rec: Recovery, stage: nat)
    requires ApplicationValid(p) && p.StageCount() == 4 && Admit(p, start).Ok? && stage < 4
    ensures var e := NextEvent(p, start, rec, stage);
      && e.eventType == STAGES[stage] && e.timestamp == rec.startedAt
      && Get(e.lease, "lease_id") == Some(Str(p.leaseId))
      && Get(e.evidence, "schedule_manifest_sha256") == Some(Str(p.manifestSha))
      && (EventOk(e) <==> IsTimestamp(rec.startedAt))
  {
    hide LeaseUsable, StageAccounting, StageEvidence, Put, Get, Admit, Verify, IsTimestamp, IsDigest, Dictionaries;
    AdmitParts(p, start);
    var grant := Admit(p, start).value.value;
    StageEventShape(p, grant, stage, rec.startedAt, EventIds(rec));
    StageNames(stage);
    assert Linked(p.hash, start, p.grantAt - 1);
    StageEventDictionaries(p, grant, stage, rec.startedAt, EventIds(rec));
  }

  lemma MarksTyped(p: Application, start: seq<Record>, rows: seq<Record>, rec: Option<Recovery>, marks: seq<Record>)
    requires p.StageCount() == 4 && RowsAt(p, start, rows, rec, marks)
    ensures |marks| <= 4 && forall i | 0 <= i < |marks| :: marks[i].Type() == STAGES[i]
  {
    hide Admit, Ours, StageAccounting, StageEvidence, Put, Get;
  }

  lemma MarksGrow(p: Application, grant: Record, rec: Recovery, marks: seq<Record>, r: Record)
    requires |marks| < 4 && (marks == [] || AreMarks(p, grant, rec, marks))
    requires r.Event() == StageEvent(p, grant, |marks|, rec.startedAt, EventIds(rec))
    ensures AreMarks(p, grant, rec, marks + [r])
  {
    hide StageEvent;
  }

  lemma NextMark(p: Application, start: seq<Record>, rows: seq<Record>, rec: Recovery, marks: seq<Record>)
    requires ApplicationValid(p) && p.StageCount() == 4 && RowsAt(p, start, rows, Some(rec), marks) && |marks| < 4
    requires Bare(Ours(p, start)) && !HasId(rows, NextEvent(p, start, rec, |marks|).eventId)
      && IsTimestamp(rec.startedAt)
    ensures RowsAt(p, start, rows + [Seal(p.hash, rows, NextEvent(p, start, rec, |marks|))], Some(rec),
      marks + [Seal(p.hash, rows, NextEvent(p, start, rec, |marks|))])
  {
    hide Admit, Ours, EventOk, HasId, WellChained, OfType, Get, Bare, IsTimestamp, AreMarks, StageEvent;
    var e := NextEvent(p, start, rec, |marks|);
    var r := Seal(p.hash, rows, e);
    NextEventShape(p, start, rec, |marks|);
    SealExtends(p.hash, rows, e);
    MarksTyped(p, start, rows, Some(rec), marks);
    MarkOfStage(Ours(p, start), marks, |marks|);
    SameGrantOwn(p, rows, r, |marks|);
    Assoc(Ours(p, start), marks, [r]);
    MarksGrow(p, Admit(p, start).value.value, rec, marks, r);
  }

  lemma HeadIsPlain(hash: Hash, rows: seq<Record>)
    requires HexHash(hash) && WellChained(hash, rows)
    ensures !Separated(Head(rows))
  {
    if rows == [] {
      SamplesValid();
      PlainText(ZERO_HASH);
    } else {
      assert Linked(hash, rows, |rows| - 1);
    }
  }

  /** Whether a row sealed on top of the ledger reads back is decided by its event alone. */
  lemma SealOneLine(hash: Hash, rows: seq<Record>, e: Event)
    requires HexHash(hash) && WellChained(hash, rows)
    ensures OneLine(Seal(hash, rows, e)) <==> !EventSeparated(e)
  {
    hide OneLine, EventSeparated, Separated, WellChained;
    HeadIsPlain(hash, rows);
    RecordOneLine(Seal(hash, rows, e));
  }

  /** What `_application_row` finds. */
  lemma StageRowAt(p: Application, start: seq<Record>, rows: seq<Record>, rec: Option<Recovery>, marks: seq<Record>,
    stage: nat)
    requires ApplicationValid(p) && p.StageCount() == 4 && stage < 4 && Bare(Ours(p, start))
    requires RowsAt(p, start, rows, rec, marks)
    ensures StageRow(p, rows, stage) == Ok(if stage < |marks| then Some(marks[stage]) else None)
  {
    MatchingOurs(p, rows, STAGES[stage]);
    MarkOfStage(Ours(p, start), marks, stage);
    if stage < |marks| {
      NextEventShape(p, start, rec.value, stage);
    }
  }
}
