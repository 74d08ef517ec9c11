/** Replaying a verified ledger into its current meaning, and the admission check that relies on it. */
module LedgerReplay {
  import opened Common
  import opened JsonText
  import opened Ledger

  const LEASE_ENDS: set<string> := {"lease_released", "lease_expired", "lease_recovered"}

  /** The lease a row speaks about; an absent or empty identity is none. */
  function LeaseId(r: Record): Option<string> {
    match Get(r.Event().lease, "lease_id")
    case Some(Str(s)) => if s == "" then None else Some(s)
    case _ => None
  }

  predicate Grants(r: Record, id: string) {
    r.Type() == "lease_granted" && LeaseId(r) == Some(id)
  }

  predicate Ends(r: Record, id: string) {
    r.Type() in LEASE_ENDS && LeaseId(r) == Some(id)
  }

  function Provider(r: Record): string {
    match Get(r.Event().route, "provider")
    case Some(Str(s)) => s
    case _ => "unknown"
  }

  predicate AccountingUnknown(r: Record) {
    var observed := Get(r.Event().accounting, "observed_tokens");
    observed.None? || observed == Some(Str("unknown"))
  }

  // ---------------------------------------------------------------- the simple form

  /** The grant a lease is active under, read backwards from the newest row. */
  function ActiveLease(rows: seq<Record>, id: string): Option<Record> {
    if rows == [] then None else
    var last := rows[|rows| - 1];
    if Grants(last, id) then Some(last)
    else if Ends(last, id) then None
    else ActiveLease(rows[..|rows| - 1], id)
  }

  function Count(rows: seq<Record>, p: Record -> bool): nat {
    if rows == [] then 0 else Count(rows[..|rows| - 1], p) + if p(rows[|rows| - 1]) then 1 else 0
  }

  predicate Accepted(r: Record) {
    r.Type() == "quality_accepted"
  }

  function AcceptedBy(provider: string): Record -> bool {
    (r: Record) => Accepted(r) && Provider(r) == provider
  }

  function TerminalStatus(rows: seq<Record>, task: string): Option<string> {
    if rows == [] then None else
    var last := rows[|rows| - 1];
    if last.Type() in {"schedule_closed", "execution_unknown"} && last.Event().taskId == task then Some(last.Type())
    else TerminalStatus(rows[..|rows| - 1], task)
  }

  /** A row that names the lease. */
  predicate About(r: Record, id: string) {
    id != "" && Get(r.Event().lease, "lease_id") == Some(Str(id))
  }

  /** A row after which the lease is over. */
  predicate Finishes(r: Record, id: string) {
    About(r, id) && (r.Type() == "lease_released" || r.Type() == "lease_expired" || r.Type() == "lease_recovered")
  }

  predicate Opens(r: Record, id: string) {
    About(r, id) && r.Type() == "lease_granted"
  }

  lemma AboutIs(r: Record, id: string)
    ensures About(r, id) <==> LeaseId(r) == Some(id)
    ensures Opens(r, id) <==> Grants(r, id)
    ensures Finishes(r, id) <==> Ends(r, id)
  {}

  lemma RowsAbout(id: string)
    ensures forall r :: About(r, id) <==> LeaseId(r) == Some(id)
    ensures forall r :: (Opens(r, id) <==> Grants(r, id)) && (Finishes(r, id) <==> Ends(r, id))
  {
    forall r: Record { AboutIs(r, id); }
  }

  /** The newest grant of the lease, with no end of it since. */
  ghost predicate LatestLiveGrant(rows: seq<Record>, id: string, i: nat) {
    && i < |rows| && Opens(rows[i], id)
    && forall j | i < j < |rows| :: !Opens(rows[j], id) && !Finishes(rows[j], id)
  }

  /** A lease is active exactly when it has a grant with no later grant or end, and then under that grant. */
  lemma {:induction false} ActiveLeaseMeaning(rows: seq<Record>, id: string, r: Record)
    ensures ActiveLease(rows, id) == Some(r) <==> exists i: nat :: LatestLiveGrant(rows, id, i) && rows[i] == r
  {
    hide Grants, Ends, Opens, Finishes, About;
    RowsAbout(id);
    if rows != [] {
      var n := |rows| - 1;
      var front := rows[..n];
      ActiveLeaseMeaning(front, id, r);
      if Grants(rows[n], id) {
        assert LatestLiveGrant(rows, id, n);
      } else if !Ends(rows[n], id) {
        if i: nat :| LatestLiveGrant(front, id, i) && front[i] == r {
          assert LatestLiveGrant(rows, id, i);
        }
        if i: nat :| LatestLiveGrant(rows, id, i) && rows[i] == r {
          assert LatestLiveGrant(front, id, i);
        }
      }
    }
  }

  /** Active means: granted, and no end row after the newest grant; `ActiveLeaseMeaning` without the row. */
  lemma {:induction false} ActiveIffNoLaterEnd(rows: seq<Record>, id: string)
    ensures ActiveLease(rows, id).Some? <==>
      exists i: nat | i < |rows| && Opens(rows[i], id) :: forall j | i < j < |rows| :: !Finishes(rows[j], id)
  {
    if exists i: nat | i < |rows| && Opens(rows[i], id) :: forall j | i < j < |rows| :: !Finishes(rows[j], id) {
      var i: nat :| i < |rows| && Opens(rows[i], id) && forall j | i < j < |rows| :: !Finishes(rows[j], id);
      var k := NewestGrant(rows, id, i);
      ActiveLeaseMeaning(rows, id, rows[k]);
      assert LatestLiveGrant(rows, id, k);
    }
    if ActiveLease(rows, id).Some? {
      ActiveLeaseMeaning(rows, id, ActiveLease(rows, id).value);
    }
  }

  lemma {:induction false} NewestGrant(rows: seq<Record>, id: string, i: nat) returns (k: nat)
    requires i < |rows| && Opens(rows[i], id)
    ensures i <= k < |rows| && Opens(rows[k], id) && forall j | k < j < |rows| :: !Opens(rows[j], id)
    decreases |rows| - i
  {
    if j :| i < j < |rows| && Opens(rows[j], id) {
      k := NewestGrant(rows, id, j);
    } else {
      k := i;
    }
  }

  /** Rows that never mention the lease leave it as it was. */
  lemma {:induction false} ForeignRowsKeepLease(rows: seq<Record>, more: seq<Record>, id: string)
    requires forall r | r in more :: LeaseId(r) != Some(id)
    ensures ActiveLease(rows + more, id) == ActiveLease(rows, id)
  {
    if more == [] {
      assert rows + more == rows;
    } else {
      var n := |more| - 1;
      assert (rows + more)[..|rows + more| - 1] == rows + more[..n];
      ForeignRowsKeepLease(rows, more[..n], id);
    }
  }

  // ---------------------------------------------------------------- what the readings mean

  ghost function Positions(rows: seq<Record>, like: Record -> bool): set<nat> {
    set i: nat | i < |rows| && like(rows[i])
  }

  /** How many rows are like this. */
  ghost function HowMany(rows: seq<Record>, like: Record -> bool): nat {
    |Positions(rows, like)|
  }

  lemma PositionsGrow(front: seq<Record>, r: Record, like: Record -> bool)
    ensures Positions(front + [r], like) == Positions(front, like) + if like(r) then {|front|} else {}
    ensures |front| !in Positions(front, like)
  {
    var all := front + [r];
    assert all[|front|] == r && forall i: nat | i < |front| :: all[i] == front[i];
  }

  lemma {:induction false} CountIsPositions(rows: seq<Record>, p: Record -> bool)
    ensures Count(rows, p) == HowMany(rows, p)
  {
    hide Positions;
    if rows == [] {
      NoPositions(p);
    } else {
      var n := |rows| - 1;
      CountIsPositions(rows[..n], p);
      PositionsGrow(rows[..n], rows[n], p);
      assert rows == rows[..n] + [rows[n]];
    }
  }

  lemma NoPositions(p: Record -> bool)
    ensures Positions([], p) == {}
  {}

  /** A row that says nothing of the tokens it used, or that they are unknown. */
  predicate Unaccounted(r: Record) {
    var tokens := Get(r.Event().accounting, "observed_tokens");
    tokens == None || tokens == Some(Str("unknown"))
  }

  /** An accepted result of this provider; a row that names none is the provider `unknown`'s. */
  predicate AcceptedFrom(provider: string, r: Record) {
    var named := Get(r.Event().route, "provider");
    && r.Type() == "quality_accepted"
    && (named == Some(Str(provider)) || (provider == "unknown" && (named.None? || !named.value.Str?)))
  }

  /** The last row that ends the task, or says that its outcome is unknown. */
  ghost predicate LastEnd(rows: seq<Record>, task: string, i: nat) {
    i < |rows| && EndsTask(rows[i], task) && forall j | i < j < |rows| :: !EndsTask(rows[j], task)
  }

  ghost predicate EndedAs(rows: seq<Record>, task: string, status: string) {
    exists i: nat :: LastEnd(rows, task, i) && rows[i].Type() == status
  }

  predicate EndsTask(r: Record, task: string) {
    r.Event().taskId == task && (r.Type() == "schedule_closed" || r.Type() == "execution_unknown")
  }

  lemma LastEndGrows(front: seq<Record>, r: Record, task: string, i: nat)
    ensures LastEnd(front + [r], task, i) <==>
      if EndsTask(r, task) then i == |front| else LastEnd(front, task, i)
  {
    hide EndsTask;
    var all := front + [r];
    assert all[|front|] == r && forall k | 0 <= k < |front| :: all[k] == front[k];
  }

  lemma {:induction false} TerminalExactly(rows: seq<Record>, task: string, status: string)
    ensures TerminalStatus(rows, task) == Some(status) <==> EndedAs(rows, task, status)
  {
    hide EndsTask;
    if rows != [] {
      var n := |rows| - 1;
      var front, last := rows[..n], rows[n];
      TerminalExactly(front, task, status);
      EndsTaskIs(last, task);
      assert rows == front + [last];
      LastEndGrows(front, last, task, n);
      if i: nat :| LastEnd(rows, task, i) && rows[i].Type() == status {
        LastEndGrows(front, last, task, i);
      }
      if i: nat :| LastEnd(front, task, i) && front[i].Type() == status {
        LastEndGrows(front, last, task, i);
      }
    }
  }

  lemma EndsTaskIs(r: Record, task: string)
    ensures EndsTask(r, task) <==> r.Type() in {"schedule_closed", "execution_unknown"} && r.Event().taskId == task
  {}

  /** What a replayed ledger says, row by row. */
  ghost predicate Tells(rows: seq<Record>, r: Replayed) {
    && (forall id :: (id in r.activeLeases <==> exists i: nat :: LatestLiveGrant(rows, id, i)))
    && (forall id | id in r.activeLeases ::
          exists i: nat :: LatestLiveGrant(rows, id, i) && rows[i] == r.activeLeases[id])
    && (forall p ::
          HowMany(rows, x => AcceptedFrom(p, x)) == if p in r.acceptedByProvider then r.acceptedByProvider[p] else 0)
    && r.unknownAccounting == HowMany(rows, Unaccounted)
    && (forall t, s :: (t in r.terminalStatus && r.terminalStatus[t] == s) <==> EndedAs(rows, t, s))
  }

  lemma SameHowMany(rows: seq<Record>, p: Record -> bool, q: Record -> bool)
    requires forall r :: p(r) <==> q(r)
    ensures HowMany(rows, p) == HowMany(rows, q)
  {
    assert Positions(rows, p) == Positions(rows, q);
  }

  lemma ActiveTells(rows: seq<Record>, m: map<string, Record>, id: string)
    requires ActiveTable(m, rows)
    ensures id in m <==> exists i: nat :: LatestLiveGrant(rows, id, i)
    ensures id in m ==> exists i: nat :: LatestLiveGrant(rows, id, i) && rows[i] == m[id]
  {
    if id in m {
      ActiveLeaseMeaning(rows, id, m[id]);
    }
    if i: nat :| LatestLiveGrant(rows, id, i) {
      ActiveLeaseMeaning(rows, id, rows[i]);
    }
  }

  lemma ReplayTells(rows: seq<Record>, r: Replayed)
    requires ActiveTable(r.activeLeases, rows) && AcceptedTable(r.acceptedByProvider, rows)
    requires r.unknownAccounting == Count(rows, AccountingUnknown) && TerminalTable(r.terminalStatus, rows)
    ensures Tells(rows, r)
  {
    hide ActiveTable, HowMany, Count, LatestLiveGrant, TerminalStatus, EndedAs;
    forall id {
      ActiveTells(rows, r.activeLeases, id);
    }
    forall p ensures HowMany(rows, x => AcceptedFrom(p, x)) == Count(rows, AcceptedBy(p)) {
      CountIsPositions(rows, AcceptedBy(p));
      SameHowMany(rows, AcceptedBy(p), x => AcceptedFrom(p, x));
    }
    CountIsPositions(rows, AccountingUnknown);
    SameHowMany(rows, AccountingUnknown, Unaccounted);
    forall t, s ensures (t in r.terminalStatus && r.terminalStatus[t] == s) <==> EndedAs(rows, t, s) {
      TerminalExactly(rows, t, s);
    }
  }

  // ---------------------------------------------------------------- the fast form

  datatype Replayed = Replayed(
    eventCount: nat, head: Digest,
    activeLeases: map<string, Record>,
    acceptedByProvider: map<string, nat>,
    unknownAccounting: nat,
    terminalStatus: map<string, string>)

  ghost function Total(counts: map<string, nat>): nat {
    if counts == map[] then 0 else
    var k :| k in counts;
    counts[k] + Total(counts - {k})
  }

  lemma {:induction false} TotalOf(counts: map<string, nat>, k: string)
    requires k in counts
    ensures Total(counts) == counts[k] + Total(counts - {k})
  {
    var j :| j in counts && Total(counts) == counts[j] + Total(counts - {j});
    if j != k {
      TotalOf(counts - {j}, k);
      TotalOf(counts - {k}, j);
      assert counts - {j} - {k} == counts - {k} - {j};
    }
  }

  lemma TotalBump(counts: map<string, nat>, k: string)
    ensures Total(counts[k := (if k in counts then counts[k] else 0) + 1]) == Total(counts) + 1
  {
    var bumped := counts[k := (if k in counts then counts[k] else 0) + 1];
    TotalOf(bumped, k);
    if k in counts {
      TotalOf(counts, k);
      assert bumped - {k} == counts - {k};
    } else {
      assert bumped - {k} == counts;
    }
  }

  ghost predicate ActiveTable(m: map<string, Record>, rows: seq<Record>) {
    forall id :: ActiveLease(rows, id) == if id in m then Some(m[id]) else None
  }

  ghost predicate AcceptedTable(m: map<string, nat>, rows: seq<Record>) {
    && (forall p :: Count(rows, AcceptedBy(p)) == if p in m then m[p] else 0)
    && Total(m) == Count(rows, Accepted)
  }

  ghost predicate TerminalTable(m: map<string, string>, rows: seq<Record>) {
    forall t :: TerminalStatus(rows, t) == if t in m then Some(m[t]) else None
  }

  function NextActive(m: map<string, Record>, row: Record): map<string, Record> {
    var id := LeaseId(row);
    if row.Type() == "lease_granted" && id.Some? then m[id.value := row]
    else if row.Type() in LEASE_ENDS && id.Some? then m - {id.value}
    else m
  }

  lemma ActiveStep(m: map<string, Record>, rows: seq<Record>, row: Record)
    requires ActiveTable(m, rows)
    ensures ActiveTable(NextActive(m, row), rows + [row])
  {
    assert (rows + [row])[..|rows|] == rows;
  }

  function NextAccepted(m: map<string, nat>, row: Record): map<string, nat> {
    if row.Type() != "quality_accepted" then m else
    var p := Provider(row);
    m[p := (if p in m then m[p] else 0) + 1]
  }

  lemma AcceptedStep(m: map<string, nat>, rows: seq<Record>, row: Record)
    requires AcceptedTable(m, rows)
    ensures AcceptedTable(NextAccepted(m, row), rows + [row])
  {
    assert (rows + [row])[..|rows|] == rows;
    TotalBump(m, Provider(row));
  }

  function NextTerminal(m: map<string, string>, row: Record): map<string, string> {
    if row.Type() in {"schedule_closed", "execution_unknown"} then m[row.Event().taskId := row.Type()] else m
  }

  lemma TerminalStep(m: map<string, string>, rows: seq<Record>, row: Record)
    requires TerminalTable(m, rows)
    ensures TerminalTable(NextTerminal(m, row), rows + [row])
  {
    assert (rows + [row])[..|rows|] == rows;
  }

  /** `replay`: one pass filling dictionaries, against the per-key readings above. */
  method Replay(rows: seq<Record>) returns (r: Replayed)
    ensures r.eventCount == |rows| && r.head == Head(rows)
    ensures ActiveTable(r.activeLeases, rows)
    ensures AcceptedTable(r.acceptedByProvider, rows)
    ensures r.unknownAccounting == Count(rows, AccountingUnknown)
    ensures TerminalTable(r.terminalStatus, rows)
    ensures Tells(rows, r)
  {
    var active: map<string, Record> := map[];
    var accepted: map<string, nat> := map[];
    var unknown := 0;
    var terminal: map<string, string> := map[];
    for n := 0 to |rows|
      invariant ActiveTable(active, rows[..n])
      invariant AcceptedTable(accepted, rows[..n])
      invariant unknown == Count(rows[..n], AccountingUnknown)
      invariant TerminalTable(terminal, rows[..n])
    {
      var row := rows[n];
      assert rows[..n + 1] == rows[..n] + [row] && rows[..n + 1][..n] == rows[..n];
      ActiveStep(active, rows[..n], row);
      active := NextActive(active, row);
      AcceptedStep(accepted, rows[..n], row);
      accepted := NextAccepted(accepted, row);
      if AccountingUnknown(row) {
        unknown := unknown + 1;
      }
      TerminalStep(terminal, rows[..n], row);
      terminal := NextTerminal(terminal, row);
    }
    assert rows[..|rows|] == rows;
    r := Replayed(|rows|, Head(rows), active, accepted, unknown, terminal);
    ReplayTells(rows, r);
  }

  // ---------------------------------------------------------------- admission

  /** What an admitted schedule plan claims about the ledger; times are seconds. */
  datatype Admission = Admission(
    before: nat, after: nat, headBefore: Digest, headAfter: Digest,
    expected: Event, leaseId: string, fence: int, taskId: string, grantedAt: int, expiresAt: int)

  /** The admission's own checks: consecutive sequences, a named lease, and the grant event built from it. */
  predicate AdmissionValid(a: Admission) {
    && a.after == a.before + 1
    && a.leaseId != ""
    && a.expected.eventType == "lease_granted"
    && a.expected.taskId == a.taskId
    && Get(a.expected.lease, "lease_id") == Some(Str(a.leaseId))
  }

  datatype BindingError =
    | RangeMismatch | HeadBeforeMismatch | HeadAfterMismatch | RowMismatch
    | LeaseNotActive | LeaseMoved(eventType: string) | LeaseSuperseded(sequence: int)
    | LeaseExecutionUnknown(sequence: int) | LeaseFromFuture | LeaseExpired

  function Fence(r: Record): Option<int> {
    match Get(r.Event().lease, "fencing_token")
    case Some(Num(n)) => Some(n)
    case _ => None
  }

  predicate Supersedes(r: Record, a: Admission) {
    r.Event().taskId == a.taskId && (r.Type() == "lease_granted" || (Fence(r).Some? && Fence(r).value > a.fence))
  }

  predicate Unknown(r: Record, a: Admission) {
    r.Event().taskId == a.taskId && r.Type() == "execution_unknown"
  }

  /** A later row that leaves the admission in force: of another task, or no newer grant, fence or unknown outcome. */
  ghost predicate Leaves(r: Record, a: Admission) {
    r.Event().taskId == a.taskId ==>
      && r.Type() != "lease_granted" && r.Type() != "execution_unknown"
      && forall n :: Get(r.Event().lease, "fencing_token") == Some(Num(n)) ==> n <= a.fence
  }

  ghost predicate GrantInPlace(rows: seq<Record>, a: Admission)
    requires a.after == a.before + 1
  {
    && a.after <= |rows|
    && a.headBefore == (if a.before == 0 then ZERO_HASH else rows[a.before - 1].eventHash)
    && a.headAfter == rows[a.before].eventHash
    && rows[a.before].body == Body(a.expected, a.after, a.headBefore)
  }

  ghost predicate OnlyGrant(rows: seq<Record>, id: string, i: nat) {
    forall j | 0 <= j < |rows| && Opens(rows[j], id) :: j == i
  }

  ghost predicate Untouched(rows: seq<Record>, id: string, from: nat) {
    forall j | from <= j < |rows| :: !About(rows[j], id)
  }

  method GrantRows(rows: seq<Record>, id: string) returns (grants: seq<nat>)
    ensures forall k | 0 <= k < |grants| :: grants[k] < |rows| && Opens(rows[grants[k]], id)
    ensures forall j | 0 <= j < |rows| && Opens(rows[j], id) :: j in grants
    ensures forall k, l | 0 <= k < l < |grants| :: grants[k] < grants[l]
  {
    hide About, Opens, Grants;
    RowsAbout(id);
    grants := [];
    for i := 0 to |rows|
      invariant forall k | 0 <= k < |grants| :: grants[k] < i && Grants(rows[grants[k]], id)
      invariant forall j | 0 <= j < i && Grants(rows[j], id) :: j in grants
      invariant forall k, l | 0 <= k < l < |grants| :: grants[k] < grants[l]
    {
      if Grants(rows[i], id) {
        grants := grants + [i];
      }
    }
  }

  method LatestFor(rows: seq<Record>, id: string, from: nat) returns (latest: Option<Record>)
    requires from <= |rows|
    ensures latest.None? <==> Untouched(rows, id, from)
    ensures latest.Some? ==>
      exists j | from <= j < |rows| ::
      rows[j] == latest.value && About(rows[j], id) && Untouched(rows, id, j + 1)
  {
    hide About, LeaseId;
    RowsAbout(id);
    latest := None;
    for i := from to |rows|
      invariant latest.None? <==> Untouched(rows[..i], id, from)
      invariant latest.Some? ==>
        exists j | from <= j < i ::
        rows[j] == latest.value && LeaseId(rows[j]) == Some(id) && Untouched(rows[..i], id, j + 1)
    {
      if LeaseId(rows[i]) == Some(id) {
        latest := Some(rows[i]);
        assert rows[..i + 1][i] == rows[i];
      } else {
        assert rows[..i + 1] == rows[..i] + [rows[i]];
        assert forall f: nat :: Untouched(rows[..i + 1], id, f) <== Untouched(rows[..i], id, f);
        assert Untouched(rows[..i + 1], id, from) ==> Untouched(rows[..i], id, from) by {
          assert forall k | 0 <= k < i :: rows[..i][k] == rows[..i + 1][k];
        }
      }
    }
    assert rows[..|rows|] == rows;
  }

  method NotSuperseded(rows: seq<Record>, a: Admission) returns (res: Result<(), BindingError>)
    requires a.after <= |rows|
    ensures res.Ok? <==> forall j | a.after <= j < |rows| :: Leaves(rows[j], a)
    ensures res.Err? ==> res.error.LeaseSuperseded? || res.error.LeaseExecutionUnknown?
  {
    for i := a.after to |rows|
      invariant forall j | a.after <= j < i :: Leaves(rows[j], a)
    {
      if Supersedes(rows[i], a) {
        return Err(LeaseSuperseded(rows[i].Sequence()));
      }
      if Unknown(rows[i], a) {
        return Err(LeaseExecutionUnknown(rows[i].Sequence()));
      }
    }
    return Ok(());
  }

  /**
   The binding check over a verified ledger. Its last line of defence, asking `replay` whether the lease is still
   active under this very grant, can never fail once the two checks before it passed.
   */
  method ValidateAdmission(hash: Hash, rows: seq<Record>, a: Admission, now: int)
    returns (res: Result<(), BindingError>)
    requires AdmissionValid(a) && WellChained(hash, rows)
    ensures res.Ok? <==>
      && GrantInPlace(rows, a)
      && OnlyGrant(rows, a.leaseId, a.before)
      && Untouched(rows, a.leaseId, a.after)
      && (forall j | a.after <= j < |rows| :: Leaves(rows[j], a))
      && a.grantedAt <= now < a.expiresAt
    ensures res.Ok? ==> ActiveLease(rows, a.leaseId) == Some(rows[a.before])
    ensures res.Ok? ==> rows[a.before].Event().taskId == a.taskId
    ensures res.Ok? ==>
      forall j | a.before < j < |rows| :: rows[j].Type() != "lease_granted" || rows[j].Event().taskId != a.taskId
    ensures res == Err(LeaseNotActive) ==> GrantInPlace(rows, a) && !OnlyGrant(rows, a.leaseId, a.before)
  {
    hide Leaves, LatestLiveGrant, About, Opens, Untouched, WellChained, AcceptedTable, TerminalTable, Tells,
      ActiveLease, Get;
    if a.after > |rows| {
      return Err(RangeMismatch);
    }
    var row := rows[a.after - 1];
    LinkAt(hash, rows, a.before);
    var expectedBefore := if a.before == 0 then ZERO_HASH else rows[a.before - 1].eventHash;
    if a.headBefore != expectedBefore {
      return Err(HeadBeforeMismatch);
    }
    if a.headAfter != row.eventHash {
      return Err(HeadAfterMismatch);
    }
    if row.body.previous != expectedBefore || row.body.sequence != a.after {
      assert false;
    }
    if row.Event() != a.expected {
      return Err(RowMismatch);
    }
    ExpectedOpens(row, a);
    var grants := GrantRows(rows, a.leaseId);
    if |grants| != 1 || rows[grants[0]].Sequence() != a.after {
      assert |grants| > 1 ==> grants[0] != grants[1];
      return Err(LeaseNotActive);
    }
    var latest := LatestFor(rows, a.leaseId, a.after);
    if latest.Some? {
      return Err(LeaseMoved(latest.value.Type()));
    }
    StandsLive(rows, a);
    ActiveLeaseMeaning(rows, a.leaseId, row);
    var replayed := Replay(rows);
    if !(a.leaseId in replayed.activeLeases && replayed.activeLeases[a.leaseId].eventHash == row.eventHash) {
      assert false;
    }
    var current := NotSuperseded(rows, a);
    if current.Err? {
      return current;
    }
    if now < a.grantedAt {
      return Err(LeaseFromFuture);
    }
    if now >= a.expiresAt {
      return Err(LeaseExpired);
    }
    NoNewerGrant(rows, a);
    return Ok(());
  }

  lemma ExpectedOpens(r: Record, a: Admission)
    requires AdmissionValid(a) && r.Event() == a.expected
    ensures Opens(r, a.leaseId)
  {}

  lemma StandsLive(rows: seq<Record>, a: Admission)
    requires a.before < |rows| && a.after == a.before + 1 && Opens(rows[a.before], a.leaseId)
    requires Untouched(rows, a.leaseId, a.after)
    ensures LatestLiveGrant(rows, a.leaseId, a.before)
  {
    hide About;
  }

  lemma NoNewerGrant(rows: seq<Record>, a: Admission)
    requires a.after == a.before + 1 && forall j | a.after <= j < |rows| :: Leaves(rows[j], a)
    ensures forall j | a.before < j < |rows| :: rows[j].Type() != "lease_granted" || rows[j].Event().taskId != a.taskId
  {}

  lemma LinkAt(hash: Hash, rows: seq<Record>, i: nat)
    requires WellChained(hash, rows) && i < |rows|
    ensures rows[i].body.sequence == i + 1
    ensures rows[i].body.previous == if i == 0 then ZERO_HASH else rows[i - 1].eventHash
  {
    assert Linked(hash, rows, i);
    assert i > 0 ==> rows[..i][i - 1] == rows[i - 1];
  }
}
