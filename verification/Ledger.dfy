/**
 The hash-chained dispatch ledger: records, chain verification, sealing and the idempotent batch.
 The hash of a record is a parameter; nothing is assumed about it except where a lemma says so.
 */
module Ledger {
  import opened Common
  import opened JsonText

  type Digest = string

  const ZERO_HASH: Digest := Zeros(64)

  function Zeros(n: nat): string {
    if n == 0 then "" else "0" + Zeros(n - 1)
  }

  const EVENT_TYPES: set<string> := {
    "task_enqueued", "classification_rejected",
    "preflight_cache_hit", "preflight_cache_miss", "preflight_cache_expired",
    "preflight_probe_in_flight", "candidate_rejected",
    "lease_granted", "lease_denied", "lease_released", "lease_expired",
    "lease_recovered", "budget_reserved", "budget_reconciled",
    "dispatch_started", "dispatch_finished", "execution_unknown",
    "quality_accepted", "quality_rejected", "retry_queued", "schedule_closed"
  }

  datatype Event = Event(
    eventId: string, eventType: string, timestamp: string, goalId: string,
    checkpointId: string, taskId: string, assignmentId: string,
    envelopeSha: Digest, configSha: Digest, boardSha: Digest,
    route: seq<Member>, lease: seq<Member>, accounting: seq<Member>, evidence: seq<Member>)

  /** What the event hash covers: the event, its position and its predecessor. */
  datatype Body = Body(event: Event, sequence: int, previous: Digest)

  datatype Record = Record(body: Body, eventHash: Digest) {
    function Event(): Event { body.event }
    function Id(): string { body.event.eventId }
    function Type(): string { body.event.eventType }
    function Sequence(): int { body.sequence }
  }

  /** A line after `json.loads` and the record shape check. */
  datatype Line = Blank | Malformed | Shapeless | Row(record: Record)

  datatype LedgerError =
    | Truncated(line: nat)
    | MissingNewline
    | InvalidUtf8
    | RecordInvalid(line: nat)
    | EventInvalid
    | UnknownAccountingErased
    | SequenceMismatch(line: nat)
    | ChainMismatch(line: nat)
    | HashMismatch(line: nat)
    | EventDuplicate(id: string)
    | EventConflict(id: string)
    | ExpectedHeadMismatch(head: Digest)
    | ExpectedSequenceMismatch(count: int)

  type Hash = Body -> Digest

  predicate Text(s: string) {
    s != "" && '\0' !in s
  }

  predicate IsHex(c: char) {
    '0' <= c <= '9' || 'a' <= c <= 'f'
  }

  /** `sha256:` and 64 lower-case hexadecimal digits. */
  predicate IsDigest(s: string) {
    |s| == 71 && s[..7] == "sha256:" && forall i | 7 <= i < 71 :: IsHex(s[i])
  }

  predicate IsDigit(c: char) {
    '0' <= c <= '9'
  }

  function DigitValue(c: char): nat {
    if IsDigit(c) then c as int - '0' as int else 0
  }

  function Number(s: string): nat {
    if s == "" then 0 else 10 * Number(s[..|s| - 1]) + DigitValue(s[|s| - 1])
  }

  function DaysIn(year: nat, month: nat): nat {
    if month == 2 then (if year % 4 == 0 && (year % 100 != 0 || year % 400 == 0) then 29 else 28)
    else if month in {4, 6, 9, 11} then 30
    else 31
  }

  const TIMESTAMP_SHAPE := "0000-00-00T00:00:00Z"

  /** Digits where the shape has a digit, the shape's own characters elsewhere. */
  predicate Shaped(t: string) {
    && |t| == |TIMESTAMP_SHAPE|
    && forall i | 0 <= i < |t| :: if TIMESTAMP_SHAPE[i] == '0' then IsDigit(t[i]) else t[i] == TIMESTAMP_SHAPE[i]
  }

  /** A UTC instant to the second, as an existing day and time. */
  predicate IsTimestamp(t: string) {
    && Shaped(t)
    && var year, month, day := Number(t[..4]), Number(t[5..7]), Number(t[8..10]);
       && year >= 1 && 1 <= month <= 12 && 1 <= day <= DaysIn(year, month)
       && Number(t[11..13]) <= 23 && Number(t[14..16]) <= 59 && Number(t[17..19]) <= 59
  }

  /** An event's objects are dictionaries; this is part of being an event and no check of the program. */
  predicate Dictionaries(e: Event) {
    Dictionary(e.route) && Dictionary(e.lease) && Dictionary(e.accounting) && Dictionary(e.evidence)
  }

  predicate FieldsValid(e: Event) {
    && Text(e.eventId) && Text(e.goalId) && Text(e.checkpointId) && Text(e.taskId) && Text(e.assignmentId)
    && e.eventType in EVENT_TYPES && IsTimestamp(e.timestamp)
    && IsDigest(e.envelopeSha) && IsDigest(e.configSha) && IsDigest(e.boardSha)
    && Dictionaries(e)
  }

  function ValidateEvent(e: Event): (r: Result<Event, LedgerError>) {
    if !FieldsValid(e) then Err(EventInvalid)
    else if Get(e.accounting, "observed_tokens") == Some(Null) then Err(UnknownAccountingErased)
    else Ok(e)
  }

  predicate EventOk(e: Event) {
    ValidateEvent(e).Ok?
  }

  function Head(rows: seq<Record>): Digest {
    if rows == [] then ZERO_HASH else rows[|rows| - 1].eventHash
  }

  function Lookup(rows: seq<Record>, id: string): Option<Record> {
    if rows == [] then None
    else if rows[0].Id() == id then Some(rows[0])
    else Lookup(rows[1..], id)
  }

  predicate HasId(rows: seq<Record>, id: string) {
    exists i | 0 <= i < |rows| :: rows[i].Id() == id
  }

  lemma NoIds()
    ensures forall id :: !HasId([], id)
  {}

  lemma IdsGrow(rows: seq<Record>, row: Record)
    ensures forall id :: HasId(rows + [row], id) <==> HasId(rows, id) || row.Id() == id
  {
    forall id ensures HasId(rows + [row], id) <==> HasId(rows, id) || row.Id() == id {
      if HasId(rows, id) {
        var i :| 0 <= i < |rows| && rows[i].Id() == id;
        assert (rows + [row])[i].Id() == id;
      }
      assert (rows + [row])[|rows|] == row;
    }
  }

  /** The declarative meaning of a verified ledger. */
  ghost predicate WellChained(hash: Hash, rows: seq<Record>) {
    && (forall i | 0 <= i < |rows| :: Linked(hash, rows, i))
    && (forall i, j | 0 <= i < j < |rows| :: rows[i].Id() != rows[j].Id())
  }

  ghost predicate Linked(hash: Hash, rows: seq<Record>, i: nat)
    requires i < |rows|
  {
    && EventOk(rows[i].Event())
    && rows[i].body.sequence == i + 1
    && rows[i].body.previous == Head(rows[..i])
    && rows[i].eventHash == hash(rows[i].body)
  }

  /** `_verify_record` and the duplicate check, after `rows` were accepted. */
  function CheckLine(hash: Hash, rows: seq<Record>, line: Line): (r: Result<Record, LedgerError>) {
    var n := |rows| + 1;
    match line
    case Blank => Err(Truncated(n))
    case Malformed => Err(Truncated(n))
    case Shapeless => Err(RecordInvalid(n))
    case Row(row) =>
      match ValidateEvent(row.Event())
      case Err(e) => Err(e)
      case Ok(_) =>
        if row.body.sequence != n then Err(SequenceMismatch(n))
        else if row.body.previous != Head(rows) then Err(ChainMismatch(n))
        else if row.eventHash != hash(row.body) then Err(HashMismatch(n))
        else if HasId(rows, row.Id()) then Err(EventDuplicate(row.Id()))
        else Ok(row)
  }

  /** The rows of a list of lines, or the error of its first bad line. */
  function Verify(hash: Hash, lines: seq<Line>): Result<seq<Record>, LedgerError> {
    if lines == [] then Ok([]) else
    var n := |lines| - 1;
    match Verify(hash, lines[..n])
    case Err(e) => Err(e)
    case Ok(rows) =>
      match CheckLine(hash, rows, lines[n])
      case Err(e) => Err(e)
      case Ok(row) => Ok(rows + [row])
  }

  function AsLines(rows: seq<Record>): seq<Line> {
    seq(|rows|, i requires 0 <= i < |rows| => Row(rows[i]))
  }

  /** Verification accepts exactly the well-chained row lists, and returns them unchanged. */
  lemma {:induction false} VerifyAccepts(hash: Hash, lines: seq<Line>, rows: seq<Record>)
    ensures Verify(hash, lines) == Ok(rows) <==> lines == AsLines(rows) && WellChained(hash, rows)
  {
    hide FieldsValid;
    if lines == [] {
      assert rows == [] <==> AsLines(rows) == [];
    } else if rows == [] {
      assert AsLines(rows) == [];
    } else {
      var n, m := |lines| - 1, |rows| - 1;
      var prefix := rows[..m];
      VerifyAccepts(hash, lines[..n], prefix);
      assert rows == prefix + [rows[m]];
      assert n == m ==> AsLines(rows) == AsLines(prefix) + [Row(rows[m])];
      assert lines == lines[..n] + [lines[n]];
      if Verify(hash, lines) == Ok(rows) {
        assert Verify(hash, lines[..n]) == Ok(prefix);
        assert lines[n] == Row(rows[m]);
        Extend(hash, prefix, rows[m]);
      }
      if lines == AsLines(rows) && WellChained(hash, rows) {
        assert AsLines(rows)[..n] == AsLines(prefix);
        Extend(hash, prefix, rows[m]);
      }
    }
  }

  /** Well-chainedness grows one accepted line at a time. */
  lemma Extend(hash: Hash, rows: seq<Record>, row: Record)
    ensures WellChained(hash, rows + [row]) <==> WellChained(hash, rows) && CheckLine(hash, rows, Row(row)) == Ok(row)
  {
    hide FieldsValid;
    var all := rows + [row];
    assert all[..|rows|] == rows;
    forall i | 0 <= i < |rows|
      ensures all[i] == rows[i] && all[..i] == rows[..i]
    {}
    if WellChained(hash, all) {
      forall i | 0 <= i < |rows| ensures Linked(hash, rows, i) {
        assert Linked(hash, all, i);
      }
      assert Linked(hash, all, |rows|);
    }
    if WellChained(hash, rows) && CheckLine(hash, rows, Row(row)) == Ok(row) {
      forall i | 0 <= i < |all| ensures Linked(hash, all, i) {
        if i < |rows| {
          assert Linked(hash, rows, i);
        }
      }
    }
  }

  lemma PrefixWellChained(hash: Hash, rows: seq<Record>, n: nat)
    requires WellChained(hash, rows) && n <= |rows|
    ensures WellChained(hash, rows[..n])
  {
    forall i | 0 <= i < n ensures Linked(hash, rows[..n], i) {
      assert rows[..n][..i] == rows[..i];
      assert Linked(hash, rows, i);
    }
  }

  method VerifyLines(hash: Hash, lines: seq<Line>, expectedHead: Option<Digest>)
    returns (res: Result<seq<Record>, LedgerError>)
    ensures Verify(hash, lines).Err? ==> res == Verify(hash, lines)
    ensures res.Ok? <==> exists rows ::
      && lines == AsLines(rows) && WellChained(hash, rows)
      && (expectedHead == None || expectedHead == Some(Head(rows)))
    ensures res.Ok? ==> lines == AsLines(res.value)
    ensures Verify(hash, lines).Ok? && res.Err? ==>
      expectedHead.Some? && res == Err(ExpectedHeadMismatch(expectedHead.value))
  {
    hide ValidateEvent, WellChained, HasId, Verify;
    NoIds();
    assert Verify(hash, []) == Ok([]) by { VerifyAccepts(hash, [], []); NothingChained(hash); }
    var previous := ZERO_HASH;
    var eventIds: set<string> := {};
    var rows: seq<Record> := [];
    for n := 0 to |lines|
      invariant Verify(hash, lines[..n]) == Ok(rows)
      invariant previous == Head(rows) && |rows| == n
      invariant forall id :: id in eventIds <==> HasId(rows, id)
    {
      VerifyNext(hash, lines, n);
      var outcome: Result<Record, LedgerError>;
      if lines[n].Blank? || lines[n].Malformed? {
        outcome := Err(Truncated(n + 1));
      } else if lines[n].Shapeless? {
        outcome := Err(RecordInvalid(n + 1));
      } else {
        var row := lines[n].record;
        var event := ValidateEvent(row.Event());
        if event.Err? {
          outcome := Err(event.error);
        } else if row.body.sequence != n + 1 {
          outcome := Err(SequenceMismatch(n + 1));
        } else if row.body.previous != previous {
          outcome := Err(ChainMismatch(n + 1));
        } else if row.eventHash != hash(row.body) {
          outcome := Err(HashMismatch(n + 1));
        } else if row.Id() in eventIds {
          outcome := Err(EventDuplicate(row.Id()));
        } else {
          outcome := Ok(row);
        }
      }
      assert outcome == CheckLine(hash, rows, lines[n]);
      if outcome.Err? {
        FirstErrorStays(hash, lines, n + 1);
        forall all ensures !(lines == AsLines(all) && WellChained(hash, all)) {
          VerifyAccepts(hash, lines, all);
        }
        return Err(outcome.error);
      }
      IdsGrow(rows, outcome.value);
      rows := rows + [outcome.value];
      previous := outcome.value.eventHash;
      eventIds := eventIds + {outcome.value.Id()};
    }
    assert lines[..|lines|] == lines;
    VerifyAccepts(hash, lines, rows);
    forall all | lines == AsLines(all) ensures all == rows {
      assert forall i | 0 <= i < |lines| :: lines[i] == Row(all[i]);
      assert forall i | 0 <= i < |lines| :: lines[i] == Row(rows[i]);
    }
    if expectedHead.Some? && previous != expectedHead.value {
      return Err(ExpectedHeadMismatch(expectedHead.value));
    }
    return Ok(rows);
  }

  lemma NothingChained(hash: Hash)
    ensures WellChained(hash, [])
  {}

  lemma VerifyNext(hash: Hash, lines: seq<Line>, n: nat)
    requires n < |lines| && Verify(hash, lines[..n]).Ok?
    ensures Verify(hash, lines[..n + 1]) ==
      var rows := Verify(hash, lines[..n]).value;
      match CheckLine(hash, rows, lines[n])
      case Err(e) => Err(e)
      case Ok(row) => Ok(rows + [row])
  {
    hide CheckLine;
    assert lines[..n + 1][..n] == lines[..n];
  }

  lemma {:induction false} FirstErrorStays(hash: Hash, lines: seq<Line>, n: nat)
    requires n <= |lines| && Verify(hash, lines[..n]).Err?
    ensures Verify(hash, lines) == Verify(hash, lines[..n])
  {
    if n < |lines| {
      assert lines[..|lines| - 1][..n] == lines[..n];
      FirstErrorStays(hash, lines[..|lines| - 1], n);
    } else {
      assert lines[..n] == lines;
    }
  }

  /** A record of one ledger and a different record of the other with one hash. */
  ghost predicate Collides(hash: Hash, a: seq<Record>, b: seq<Record>) {
    exists i, j | 0 <= i < |a| && 0 <= j < |b| :: a[i].body != b[j].body && hash(a[i].body) == hash(b[j].body)
  }

  ghost predicate HashesToZero(hash: Hash, rows: seq<Record>) {
    exists i | 0 <= i < |rows| :: hash(rows[i].body) == ZERO_HASH
  }

  /**
   The head commits to the whole history: two verified ledgers with one head hold the same rows, or a record of one
   collides with a record of the other, or a record of one of them hashes to the all-zero head of the empty ledger.
   */
  lemma {:induction false} HeadCommits(hash: Hash, a: seq<Record>, b: seq<Record>)
    requires WellChained(hash, a) && WellChained(hash, b) && Head(a) == Head(b)
    ensures a == b || Collides(hash, a, b) || HashesToZero(hash, a) || HashesToZero(hash, b)
  {
    hide EventOk, HashesToZero, Collides, WellChained;
    var m, n := |a| - 1, |b| - 1;
    if a == [] && b == [] {
    } else if a == [] {
      ZeroHead(hash, b);
    } else if b == [] {
      ZeroHead(hash, a);
    } else {
      LastLinked(hash, a);
      LastLinked(hash, b);
      if a[m].body == b[n].body {
        PrefixWellChained(hash, a, m);
        PrefixWellChained(hash, b, n);
        HeadCommits(hash, a[..m], b[..n]);
        assert a == a[..m] + [a[m]] && b == b[..n] + [b[n]];
        CommitsGrow(hash, a, b);
      } else {
        assert Collides(hash, a, b) by { CollidesAt(hash, a, b, m, n); }
      }
    }
  }

  lemma LastLinked(hash: Hash, rows: seq<Record>)
    requires WellChained(hash, rows) && rows != []
    ensures var r := rows[|rows| - 1];
      Head(rows) == r.eventHash == hash(r.body) && r.body.previous == Head(rows[..|rows| - 1])
  {
    assert Linked(hash, rows, |rows| - 1);
  }

  lemma ZeroHead(hash: Hash, rows: seq<Record>)
    requires WellChained(hash, rows) && rows != [] && Head(rows) == ZERO_HASH
    ensures HashesToZero(hash, rows)
  {
    LastLinked(hash, rows);
  }

  lemma CollidesAt(hash: Hash, a: seq<Record>, b: seq<Record>, i: nat, j: nat)
    requires i < |a| && j < |b| && a[i].body != b[j].body && hash(a[i].body) == hash(b[j].body)
    ensures Collides(hash, a, b)
  {}

  /** What went wrong among earlier records went wrong among all. */
  lemma CommitsGrow(hash: Hash, a: seq<Record>, b: seq<Record>)
    requires a != [] && b != []
    ensures HashesToZero(hash, a[..|a| - 1]) ==> HashesToZero(hash, a)
    ensures HashesToZero(hash, b[..|b| - 1]) ==> HashesToZero(hash, b)
    ensures Collides(hash, a[..|a| - 1], b[..|b| - 1]) ==> Collides(hash, a, b)
  {
    if Collides(hash, a[..|a| - 1], b[..|b| - 1]) {
      var i: nat, j: nat :| i < |a| - 1 && j < |b| - 1 && a[i].body != b[j].body && hash(a[i].body) == hash(b[j].body);
      CollidesAt(hash, a, b, i, j);
    }
  }

  /** Changing any earlier row while keeping the later ones breaks verification or the hash. */
  lemma NoSilentRewrite(hash: Hash, a: seq<Record>, b: seq<Record>)
    requires forall x, y :: hash(x) == hash(y) ==> x == y
    requires forall x :: hash(x) != ZERO_HASH
    requires Verify(hash, AsLines(a)).Ok? && Verify(hash, AsLines(b)).Ok?
    ensures Head(a) == Head(b) <==> a == b
  {
    VerifiedRows(hash, a);
    VerifiedRows(hash, b);
    if Head(a) == Head(b) {
      HeadCommits(hash, a, b);
    }
  }

  lemma VerifiedRows(hash: Hash, a: seq<Record>)
    ensures Verify(hash, AsLines(a)).Ok? <==> WellChained(hash, a)
    ensures WellChained(hash, a) ==> Verify(hash, AsLines(a)) == Ok(a)
  {
    VerifyAccepts(hash, AsLines(a), a);
    if Verify(hash, AsLines(a)).Ok? {
      var b := Verify(hash, AsLines(a)).value;
      VerifyAccepts(hash, AsLines(a), b);
      assert forall i | 0 <= i < |a| :: AsLines(a)[i] == Row(a[i]) == AsLines(b)[i] == Row(b[i]);
      assert a == b;
    }
  }

  // ---------------------------------------------------------------- sealing and the batch

  /** The record that appending `e` after `rows` writes. */
  function Seal(hash: Hash, rows: seq<Record>, e: Event): Record {
    var body := Body(e, |rows| + 1, Head(rows));
    Record(body, hash(body))
  }

  lemma SealExtends(hash: Hash, rows: seq<Record>, e: Event)
    requires WellChained(hash, rows) && EventOk(e) && !HasId(rows, e.eventId)
    ensures WellChained(hash, rows + [Seal(hash, rows, e)])
  {
    Extend(hash, rows, Seal(hash, rows, e));
  }

  /** Identity for replays: everything but the timestamp. */
  function Comparable(e: Event): Event {
    e.(timestamp := "")
  }

  /** Equal in every field, except perhaps the timestamp. */
  predicate SameButTime(e: Event, f: Event) {
    e == f.(timestamp := e.timestamp)
  }

  lemma ComparableMeans(e: Event, f: Event)
    ensures Comparable(e) == Comparable(f) <==> SameButTime(e, f)
  {}

  datatype Batch = Batch(rows: seq<Record>, results: seq<Record>)

  /** The ledger after a batch and the record reported for each of its events. */
  function RunBatch(hash: Hash, rows: seq<Record>, events: seq<Event>): Result<Batch, LedgerError> {
    if events == [] then Ok(Batch(rows, [])) else
    var n := |events| - 1;
    match RunBatch(hash, rows, events[..n])
    case Err(e) => Err(e)
    case Ok(b) => BatchStep(hash, b, events[n])
  }

  function BatchStep(hash: Hash, b: Batch, e: Event): Result<Batch, LedgerError> {
    match Lookup(b.rows, e.eventId)
    case Some(stored) =>
      if Comparable(stored.Event()) == Comparable(e) then Ok(Batch(b.rows, b.results + [stored]))
      else Err(EventConflict(e.eventId))
    case None =>
      var r := Seal(hash, b.rows, e);
      Ok(Batch(b.rows + [r], b.results + [r]))
  }

  lemma {:induction false} LookupFinds(rows: seq<Record>, id: string)
    ensures Lookup(rows, id).Some? <==> HasId(rows, id)
    ensures Lookup(rows, id).Some? ==> Lookup(rows, id).value in rows && Lookup(rows, id).value.Id() == id
  {
    if rows != [] {
      LookupFinds(rows[1..], id);
      if rows[0].Id() == id {
        assert HasId(rows, id);
      } else if HasId(rows[1..], id) {
        var i :| 0 <= i < |rows[1..]| && rows[1..][i].Id() == id;
        assert rows[i + 1].Id() == id;
      }
    }
  }

  /** Appending never changes what a lookup already found. */
  lemma {:induction false} LookupStable(rows: seq<Record>, more: seq<Record>, id: string)
    ensures Lookup(rows + more, id) == if Lookup(rows, id).Some? then Lookup(rows, id) else Lookup(more, id)
  {
    if rows == [] {
      assert rows + more == more;
    } else {
      LookupStable(rows[1..], more, id);
      assert (rows + more)[1..] == rows[1..] + more;
    }
  }

  /** `r` is stored and is `e` up to its timestamp. */
  predicate Reports(rows: seq<Record>, r: Record, e: Event) {
    r in rows && SameButTime(r.Event(), e)
  }

  /** Every event is reported by a stored record, and every new row holds one of the events. */
  ghost predicate Answers(before: seq<Record>, after: seq<Record>, results: seq<Record>, events: seq<Event>) {
    && |results| == |events|
    && (forall i | 0 <= i < |events| :: Reports(after, results[i], events[i]))
    && (forall k | |before| <= k < |after| :: after[k].Event() in events && after[k] in results)
  }

  /**
   A successful batch keeps the chain, only appends, reports for event i a stored record equal to event i up to
   its timestamp, and appends records of its own events only.
   */
  lemma {:induction false} BatchSound(hash: Hash, rows: seq<Record>, events: seq<Event>)
    requires WellChained(hash, rows) && forall e | e in events :: EventOk(e)
    requires RunBatch(hash, rows, events).Ok?
    ensures var b := RunBatch(hash, rows, events).value;
      && WellChained(hash, b.rows)
      && rows <= b.rows
      && Answers(rows, b.rows, b.results, events)
  {
    hide EventOk, WellChained, BatchStep, Reports;
    if events != [] {
      var n := |events| - 1;
      assert events == events[..n] + [events[n]];
      BatchSound(hash, rows, events[..n]);
      var b, c := RunBatch(hash, rows, events[..n]).value, RunBatch(hash, rows, events).value;
      var r := StepSound(hash, b, events[n]);
      forall i | 0 <= i < |events| ensures Reports(c.rows, c.results[i], events[i]) {
        if i < n {
          assert events[..n][i] == events[i] && c.results[i] == b.results[i];
          ReportsGrow(b.rows, c.rows, b.results[i], events[i]);
        }
      }
      forall k | |rows| <= k < |c.rows| ensures c.rows[k].Event() in events && c.rows[k] in c.results {
        if k < |b.rows| {
          assert c.rows[k] == b.rows[k] && b.rows[k].Event() in events[..n] && b.rows[k] in b.results;
        } else {
          assert c.rows[k] == r && c.results[n] == r;
        }
      }
    }
  }

  lemma ReportsGrow(rows: seq<Record>, longer: seq<Record>, r: Record, e: Event)
    requires rows <= longer && Reports(rows, r, e)
    ensures Reports(longer, r, e)
  {}

  lemma StepSound(hash: Hash, b: Batch, e: Event) returns (r: Record)
    requires WellChained(hash, b.rows) && EventOk(e) && BatchStep(hash, b, e).Ok?
    ensures var c := BatchStep(hash, b, e).value;
      && WellChained(hash, c.rows) && c.results == b.results + [r] && Reports(c.rows, r, e)
      && (c.rows == b.rows || (c.rows == b.rows + [r] && r.Event() == e))
  {
    hide WellChained, EventOk;
    LookupFinds(b.rows, e.eventId);
    if Lookup(b.rows, e.eventId).None? {
      r := Seal(hash, b.rows, e);
      SealExtends(hash, b.rows, e);
      assert r in b.rows + [r];
    } else {
      r := Lookup(b.rows, e.eventId).value;
    }
  }

  /** Running A then B is running A ++ B: same ledger, same results, and one succeeds exactly when the other does. */
  lemma {:induction false} BatchConcat(hash: Hash, rows: seq<Record>, a: seq<Event>, b: seq<Event>)
    ensures RunBatch(hash, rows, a + b) == ThenBatch(hash, RunBatch(hash, rows, a), b)
  {
    if b == [] {
      assert a + b == a;
      if RunBatch(hash, rows, a).Ok? {
        var first := RunBatch(hash, rows, a).value;
        assert first.results + [] == first.results;
      }
    } else {
      var n := |b| - 1;
      BatchConcat(hash, rows, a, b[..n]);
      assert (a + b)[..|a + b| - 1] == a + b[..n];
      assert (a + b)[|a + b| - 1] == b[n];
      var first := RunBatch(hash, rows, a);
      if first.Ok? && RunBatch(hash, first.value.rows, b[..n]).Ok? {
        StepAfter(hash, RunBatch(hash, first.value.rows, b[..n]).value, first.value.results, b[n]);
      }
    }
  }

  function ThenBatch(hash: Hash, first: Result<Batch, LedgerError>, events: seq<Event>): Result<Batch, LedgerError> {
    match first
    case Err(e) => Err(e)
    case Ok(b) =>
      match RunBatch(hash, b.rows, events)
      case Err(e) => Err(e)
      case Ok(c) => Ok(Batch(c.rows, b.results + c.results))
  }

  lemma StepAfter(hash: Hash, b: Batch, earlier: seq<Record>, e: Event)
    ensures BatchStep(hash, Batch(b.rows, earlier + b.results), e) ==
      match BatchStep(hash, b, e)
      case Err(err) => Err(err)
      case Ok(c) => Ok(Batch(c.rows, earlier + c.results))
  {
    forall r ensures (earlier + b.results) + [r] == earlier + (b.results + [r]) {}
  }

  /** Replaying a batch, even after other rows were appended, appends nothing and reports the same records. */
  lemma {:induction false} BatchIdempotent(hash: Hash, rows: seq<Record>, events: seq<Event>, more: seq<Record>)
    requires RunBatch(hash, rows, events).Ok?
    ensures var b := RunBatch(hash, rows, events).value;
      RunBatch(hash, b.rows + more, events) == Ok(Batch(b.rows + more, b.results))
  {
    if events != [] {
      var n := |events| - 1;
      var before := RunBatch(hash, rows, events[..n]).value;
      var after := RunBatch(hash, rows, events).value;
      var added := after.rows[|before.rows|..];
      assert after.rows == before.rows + added;
      BatchIdempotent(hash, rows, events[..n], added + more);
      assert before.rows + (added + more) == after.rows + more;
      var id := events[n].eventId;
      LookupStable(before.rows, added, id);
      LookupStable(after.rows, more, id);
      if Lookup(before.rows, id).None? {
        assert added == [Seal(hash, before.rows, events[n])];
      } else {
        assert added == [];
      }
    }
  }

  /**
   A batch fails exactly when two events, or an event and a stored row, share an identity and differ in more than the
   timestamp.
   */
  lemma {:induction false} BatchFailsOnConflict(hash: Hash, rows: seq<Record>, events: seq<Event>)
    ensures RunBatch(hash, rows, events).Err? <==> Conflict(rows, events)
  {
    if events != [] {
      var n := |events| - 1;
      var front, last := events[..n], events[n];
      BatchFailsOnConflict(hash, rows, front);
      assert events == front + [last];
      if Conflict(rows, front) {
        ConflictGrows(rows, front, last);
      } else {
        var b := RunBatch(hash, rows, front).value;
        BatchLookup(hash, rows, front, last.eventId);
        LookupFinds(rows, last.eventId);
        if Lookup(b.rows, last.eventId).Some? {
          var stored := Lookup(b.rows, last.eventId).value;
          if Comparable(stored.Event()) != Comparable(last) {
            if Lookup(rows, last.eventId).Some? {
              assert StoredConflict(rows, events, n);
            } else {
              var i :| 0 <= i < |front| && front[i].eventId == last.eventId;
              assert PairConflict(events, i, n);
            }
          }
        }
        if RunBatch(hash, rows, events).Ok? {
          forall i | 0 <= i < |events| ensures !StoredConflict(rows, events, i) {
            if i < n { assert !StoredConflict(rows, front, i); }
          }
          forall i, j | 0 <= i < j < |events| ensures !PairConflict(events, i, j) {
            if j < n { assert !PairConflict(front, i, j); }
          }
        }
      }
    }
  }

  predicate StoredConflict(rows: seq<Record>, events: seq<Event>, i: nat)
    requires i < |events|
  {
    var stored := Lookup(rows, events[i].eventId);
    stored.Some? && !SameButTime(stored.value.Event(), events[i])
  }

  predicate PairConflict(events: seq<Event>, i: nat, j: nat)
    requires i < |events| && j < |events|
  {
    events[i].eventId == events[j].eventId && !SameButTime(events[i], events[j])
  }

  predicate Conflict(rows: seq<Record>, events: seq<Event>) {
    || (exists i | 0 <= i < |events| :: StoredConflict(rows, events, i))
    || (exists i, j | 0 <= i < j < |events| :: PairConflict(events, i, j))
  }

  lemma ConflictGrows(rows: seq<Record>, events: seq<Event>, e: Event)
    requires Conflict(rows, events)
    ensures Conflict(rows, events + [e])
  {
    if i :| 0 <= i < |events| && StoredConflict(rows, events, i) {
      assert StoredConflict(rows, events + [e], i);
    } else {
      var i, j :| 0 <= i < j < |events| && PairConflict(events, i, j);
      assert PairConflict(events + [e], i, j);
    }
  }

  predicate Names(events: seq<Event>, id: string) {
    exists i | 0 <= i < |events| :: events[i].eventId == id
  }

  predicate AgreesWith(found: Record, events: seq<Event>) {
    forall i | 0 <= i < |events| && events[i].eventId == found.Id() ::
      SameButTime(found.Event(), events[i])
  }

  /**
   What a lookup finds after a successful batch: the stored row, or a record of the batch's event of that identity.
   */
  lemma {:induction false} BatchLookup(hash: Hash, rows: seq<Record>, events: seq<Event>, id: string)
    requires RunBatch(hash, rows, events).Ok?
    ensures var found := Lookup(RunBatch(hash, rows, events).value.rows, id);
      && (Lookup(rows, id).Some? ==> found == Lookup(rows, id))
      && (found.Some? <==> Lookup(rows, id).Some? || Names(events, id))
      && (found.Some? ==> found.value.Id() == id && AgreesWith(found.value, events))
  {
    if events == [] {
      LookupFinds(rows, id);
    } else {
      var n := |events| - 1;
      var front, last := events[..n], events[n];
      assert events == front + [last];
      BatchLookup(hash, rows, front, id);
      NamesGrow(front, last, id);
      var b := RunBatch(hash, rows, front).value;
      if Lookup(b.rows, last.eventId).None? {
        LookupStable(b.rows, [Seal(hash, b.rows, last)], id);
        if Lookup(b.rows, id).None? && last.eventId == id {
          assert !Names(front, id);
        }
      }
    }
  }

  lemma NamesGrow(events: seq<Event>, e: Event, id: string)
    ensures Names(events + [e], id) <==> Names(events, id) || e.eventId == id
  {
    if Names(events, id) {
      var i :| 0 <= i < |events| && events[i].eventId == id;
      assert (events + [e])[i].eventId == id;
    }
    assert (events + [e])[|events|] == e;
  }
}
