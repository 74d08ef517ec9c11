/**
 The ledger as a file: UTF-8 bytes, one canonical JSON record a line. Reading splits the decoded text the way
 `str.splitlines` does, writing escapes only what JSON requires; where the two disagree the file breaks.
 */
module LedgerFile {
  import opened Common
  import opened JsonText
  import opened Ledger

  type Byte = n: int | 0 <= n < 256

  const NEWLINE: Byte := 10

  // ---------------------------------------------------------------- text

  function Utf8Char(c: char): (b: seq<Byte>)
    ensures b != []
    ensures NEWLINE in b <==> b == [NEWLINE]
    ensures b == [NEWLINE] <==> c == '\n'
  {
    var n := c as int;
    if n < 0x80 then [n]
    else if n < 0x800 then [0xC0 + n / 64, 0x80 + n % 64]
    else if n < 0x10000 then [0xE0 + n / 4096, 0x80 + n / 64 % 64, 0x80 + n % 64]
    else [0xF0 + n / 262144, 0x80 + n / 4096 % 64, 0x80 + n / 64 % 64, 0x80 + n % 64]
  }

  function Utf8(t: string): seq<Byte> {
    Expand(Utf8Char, t)
  }

  /** The characters `str.splitlines` ends a line at. */
  predicate IsBreak(c: char) {
    '\n' <= c <= '\r' || '\U{001C}' <= c <= '\U{001E}' || IsSeparator(c)
  }

  /** The line breaks that JSON does not escape: NEXT LINE, LINE SEPARATOR and PARAGRAPH SEPARATOR. */
  predicate IsSeparator(c: char) {
    c == '\U{0085}' || c == '\U{2028}' || c == '\U{2029}'
  }

  function BreakAt(t: string): (n: nat)
    ensures n <= |t|
    ensures forall i | 0 <= i < n :: !IsBreak(t[i])
    ensures n < |t| ==> IsBreak(t[n])
  {
    if t == "" || IsBreak(t[0]) then 0 else 1 + BreakAt(t[1..])
  }

  function BreakWidth(t: string, n: nat): nat
    requires n < |t|
  {
    if t[n] == '\r' && n + 1 < |t| && t[n + 1] == '\n' then 2 else 1
  }

  function SplitLines(t: string): seq<string> {
    if t == "" then [] else
    var n := BreakAt(t);
    if n == |t| then [t] else [t[..n]] + SplitLines(t[n + BreakWidth(t, n)..])
  }

  // ---------------------------------------------------------------- records as text

  function RecordMembers(r: Record): seq<Member> {
    var e := r.Event();
    [ Member("accounting", Obj(e.accounting)),
      Member("assignment_id", Str(e.assignmentId)),
      Member("board_sha256", Str(e.boardSha)),
      Member("checkpoint_id", Str(e.checkpointId)),
      Member("config_sha256", Str(e.configSha)),
      Member("envelope_sha256", Str(e.envelopeSha)),
      Member("event_hash", Str(r.eventHash)),
      Member("event_id", Str(e.eventId)),
      Member("event_type", Str(e.eventType)),
      Member("evidence", Obj(e.evidence)),
      Member("goal_id", Str(e.goalId)),
      Member("lease", Obj(e.lease)),
      Member("previous_event_hash", Str(r.body.previous)),
      Member("route", Obj(e.route)),
      Member("schema_version", Num(1)),
      Member("sequence", Num(r.body.sequence)),
      Member("task_id", Str(e.taskId)),
      Member("timestamp", Str(e.timestamp)) ]
  }

  function RecordText(r: Record): (t: string)
    ensures t != ""
  {
    Dumps(Obj(RecordMembers(r)))
  }

  function FrameText(rows: seq<Record>): string {
    if rows == [] then "" else RecordText(rows[0]) + "\n" + FrameText(rows[1..])
  }

  /** The bytes one write of `rows` appends. */
  function Frame(rows: seq<Record>): seq<Byte> {
    Utf8(FrameText(rows))
  }

  predicate Breaks(s: string) {
    exists i | 0 <= i < |s| :: IsBreak(s[i])
  }

  /** A record that stays on one line when written. */
  predicate OneLine(r: Record) {
    !Breaks(RecordText(r))
  }

  // ---------------------------------------------------------------- reading

  /** The library decoders: strict UTF-8 decoding, and `json.loads` with the record shape check. */
  datatype Codec = Codec(utf8: seq<Byte> -> Option<string>, loads: string -> Line)

  ghost predicate Faithful(codec: Codec) {
    && (forall b, t {:trigger codec.utf8(b), Utf8(t)} :: codec.utf8(b) == Some(t) <==> b == Utf8(t))
    && (forall r: Record | Dictionaries(r.Event()) :: codec.loads(RecordText(r)) == Row(r))
    && (forall r, n {:trigger codec.loads(RecordText(r)[..n])} :: 0 <= n < |RecordText(r)| ==>
          var line := codec.loads(RecordText(r)[..n]); line.Blank? || line.Malformed?)
  }

  function Loads(codec: Codec, lines: seq<string>): seq<Line> {
    seq(|lines|, i requires 0 <= i < |lines| => codec.loads(lines[i]))
  }

  /** `verify_ledger` without an expected head; an absent file is an empty ledger. */
  function ReadLedger(hash: Hash, codec: Codec, file: Option<seq<Byte>>): Result<seq<Record>, LedgerError> {
    match file
    case None => Ok([])
    case Some(raw) =>
      if raw != [] && raw[|raw| - 1] != NEWLINE then Err(MissingNewline) else
      match codec.utf8(raw)
      case None => Err(InvalidUtf8)
      case Some(t) => Verify(hash, Loads(codec, SplitLines(t)))
  }

  function Bytes(file: Option<seq<Byte>>): seq<Byte> {
    if file.None? then [] else file.value
  }

  // ---------------------------------------------------------------- the file

  class LedgerStore {
    var file: Option<seq<Byte>>

    constructor (file: Option<seq<Byte>>)
      ensures this.file == file
    {
      this.file := file;
    }

    method Verified(hash: Hash, codec: Codec, expectedHead: Option<Digest>)
      returns (res: Result<seq<Record>, LedgerError>)
      ensures ReadLedger(hash, codec, file).Err? ==> res == ReadLedger(hash, codec, file)
      ensures ReadLedger(hash, codec, file).Ok? ==>
        var rows := ReadLedger(hash, codec, file).value;
        && WellChained(hash, rows)
        && res == if expectedHead == None || expectedHead == Some(Head(rows)) then Ok(rows)
                  else Err(ExpectedHeadMismatch(expectedHead.value))
    {
      if file.None? {
        VerifyAccepts(hash, [], []);
        if expectedHead.Some? && expectedHead.value != ZERO_HASH {
          return Err(ExpectedHeadMismatch(expectedHead.value));
        }
        return Ok([]);
      }
      var raw := file.value;
      if raw != [] && raw[|raw| - 1] != NEWLINE {
        return Err(MissingNewline);
      }
      var text := codec.utf8(raw);
      if text.None? {
        return Err(InvalidUtf8);
      }
      var lines := Loads(codec, SplitLines(text.value));
      res := VerifyLines(hash, lines, expectedHead);
      if Verify(hash, lines).Ok? {
        var rows := Verify(hash, lines).value;
        VerifyAccepts(hash, lines, rows);
        if res.Ok? {
          SameLines(rows, res.value);
        } else {
          assert expectedHead != Some(Head(rows));
        }
      }
    }

    /** One append of whole records. */
    method Write(records: seq<Record>)
      modifies this
      ensures file == if records == [] then old(file) else Some(Bytes(old(file)) + Frame(records))
    {
      if records != [] {
        file := Some(Bytes(file) + Frame(records));
      }
    }

    /** Strict append: rejects every known identity and leaves the file alone on any error. */
    method AppendEvent(hash: Hash, codec: Codec, event: Event, expectedHead: Option<Digest>, expectedCount: Option<int>)
      returns (res: Result<Record, LedgerError>)
      modifies this
      ensures res.Err? ==> file == old(file)
      ensures res.Ok? <==>
        && EventOk(event) && ReadLedger(hash, codec, old(file)).Ok?
        && var rows := ReadLedger(hash, codec, old(file)).value;
           && (expectedHead == None || expectedHead == Some(Head(rows)))
           && (expectedCount == None || expectedCount == Some(|rows|))
           && !HasId(rows, event.eventId)
      ensures res.Ok? ==>
        var rows := ReadLedger(hash, codec, old(file)).value;
        && res.value == Seal(hash, rows, event)
        && file == Some(Bytes(old(file)) + Frame([res.value]))
        && WellChained(hash, rows + [res.value])
    {
      var valid := ValidateEvent(event);
      if valid.Err? {
        return Err(valid.error);
      }
      var verified := Verified(hash, codec, expectedHead);
      if verified.Err? {
        return Err(verified.error);
      }
      var rows := verified.value;
      if expectedCount.Some? && |rows| != expectedCount.value {
        return Err(ExpectedSequenceMismatch(expectedCount.value));
      }
      if HasId(rows, event.eventId) {
        return Err(EventDuplicate(event.eventId));
      }
      var record := Seal(hash, rows, event);
      SealExtends(hash, rows, event);
      Write([record]);
      return Ok(record);
    }

    /** The batch with identity replay: one read, one plan over two dictionaries, one write. */
    method AppendEventsIdempotent(hash: Hash, codec: Codec, events: seq<Event>)
      returns (res: Result<seq<Record>, LedgerError>, appended: nat, idempotent: nat)
      modifies this
      ensures res.Err? ==> file == old(file)
      ensures res.Ok? <==>
        && (forall e | e in events :: EventOk(e)) && ReadLedger(hash, codec, old(file)).Ok?
        && !Conflict(ReadLedger(hash, codec, old(file)).value, events)
      ensures res.Ok? ==>
        var rows := ReadLedger(hash, codec, old(file)).value;
        && RunBatch(hash, rows, events).Ok?
        && var b := RunBatch(hash, rows, events).value;
           && res.value == b.results
           && appended + idempotent == |events|
           && appended == |b.rows| - |rows|
           && rows <= b.rows && WellChained(hash, b.rows)
           && Answers(rows, b.rows, res.value, events)
           && file == if appended == 0 then old(file) else Some(Bytes(old(file)) + Frame(b.rows[|rows|..]))
    {
      hide RunBatch, ReadLedger, WellChained, Frame, FieldsValid, Conflict, Answers;
      appended, idempotent := 0, 0;
      for i := 0 to |events|
        invariant forall k | 0 <= k < i :: EventOk(events[k])
      {
        var valid := ValidateEvent(events[i]);
        if valid.Err? {
          assert !EventOk(events[i]) && events[i] in events;
          return Err(valid.error), 0, 0;
        }
      }
      var verified := Verified(hash, codec, None);
      if verified.Err? {
        return Err(verified.error), 0, 0;
      }
      var rows := verified.value;
      BatchFailsOnConflict(hash, rows, events);
      var plan;
      plan, appended, idempotent := PlanBatch(hash, rows, events);
      if plan.Err? {
        return Err(plan.error), 0, 0;
      }
      BatchSound(hash, rows, events);
      Write(plan.value.rows[|rows|..]);
      return Ok(plan.value.results), appended, idempotent;
    }
  }

  /** The planning loop of the batch: stored rows and rows planned so far are looked up in two dictionaries. */
  method PlanBatch(hash: Hash, rows: seq<Record>, events: seq<Event>)
    returns (res: Result<Batch, LedgerError>, appended: nat, idempotent: nat)
    ensures res == RunBatch(hash, rows, events)
    ensures res.Ok? ==> appended + idempotent == |events| && appended == |res.value.rows| - |rows|
  {
    hide RunBatch, Lookup, Comparable, Index;
    NoPlan(hash, rows);
    var existing: map<string, Record> := Index(rows);
    var seen: map<string, Record> := map[];
    var planned: seq<Record> := [];
    var records: seq<Record> := [];
    appended, idempotent := 0, 0;
    ghost var all := rows;
    for n := 0 to |events|
      invariant all == rows + planned
      invariant RunBatch(hash, rows, events[..n]) == Ok(Batch(all, records))
      invariant Indexes(seen, planned) && Indexes(existing, rows)
      invariant appended == |planned| && appended + idempotent == n
    {
      var event := events[n];
      BatchNext(hash, rows, events, n);
      LookupStable(rows, planned, event.eventId);
      var known := if event.eventId in existing then Some(existing[event.eventId])
                   else if event.eventId in seen then Some(seen[event.eventId]) else None;
      assert known == Lookup(all, event.eventId);
      if known.Some? {
        if Comparable(known.value.Event()) != Comparable(event) {
          FirstConflictStays(hash, rows, events, n + 1);
          return Err(EventConflict(event.eventId)), 0, 0;
        }
        records := records + [known.value];
        idempotent := idempotent + 1;
      } else {
        var previous := if planned != [] then planned[|planned| - 1].eventHash else Head(rows);
        var body := Body(event, |rows| + |planned| + 1, previous);
        var record := Record(body, hash(body));
        HeadOfPlanned(rows, planned);
        assert record == Seal(hash, all, event);
        Assoc(rows, planned, [record]);
        all := all + [record];
        IndexGrows(seen, planned, record);
        seen := seen[event.eventId := record];
        planned := planned + [record];
        records := records + [record];
        appended := appended + 1;
      }
    }
    assert events[..|events|] == events;
    return Ok(Batch(rows + planned, records)), appended, idempotent;
  }

  lemma NoPlan(hash: Hash, rows: seq<Record>)
    ensures RunBatch(hash, rows, []) == Ok(Batch(rows, [])) && Indexes(map[], [])
  {}

  lemma BatchNext(hash: Hash, rows: seq<Record>, events: seq<Event>, n: nat)
    requires n < |events|
    ensures RunBatch(hash, rows, events[..n + 1]) ==
      match RunBatch(hash, rows, events[..n])
      case Err(e) => Err(e)
      case Ok(b) => BatchStep(hash, b, events[n])
  {
    assert events[..n + 1][..n] == events[..n];
  }

  lemma HeadOfPlanned(rows: seq<Record>, planned: seq<Record>)
    ensures Head(rows + planned) == if planned != [] then planned[|planned| - 1].eventHash else Head(rows)
  {
    assert planned == [] ==> rows + planned == rows;
  }

  lemma {:induction false} FirstConflictStays(hash: Hash, rows: seq<Record>, events: seq<Event>, n: nat)
    requires n <= |events| && RunBatch(hash, rows, events[..n]).Err?
    ensures RunBatch(hash, rows, events) == RunBatch(hash, rows, events[..n])
  {
    if n < |events| {
      assert events[..|events| - 1][..n] == events[..n];
      FirstConflictStays(hash, rows, events[..|events| - 1], n);
    } else {
      assert events[..n] == events;
    }
  }

  function Index(rows: seq<Record>): (m: map<string, Record>)
    ensures Indexes(m, rows)
  {
    if rows == [] then map[] else Index(rows[1..])[rows[0].Id() := rows[0]]
  }

  ghost predicate Indexes(m: map<string, Record>, rows: seq<Record>) {
    forall id :: Lookup(rows, id) == if id in m then Some(m[id]) else None
  }

  lemma IndexGrows(m: map<string, Record>, rows: seq<Record>, r: Record)
    requires Indexes(m, rows) && r.Id() !in m
    ensures Indexes(m[r.Id() := r], rows + [r])
  {
    forall id ensures Lookup(rows + [r], id) == if id == r.Id() then Some(r) else Lookup(rows, id) {
      LookupStable(rows, [r], id);
    }
  }

  lemma SameLines(a: seq<Record>, b: seq<Record>)
    requires AsLines(a) == AsLines(b)
    ensures a == b
  {
    assert forall i | 0 <= i < |a| :: AsLines(a)[i] == Row(a[i]) && AsLines(b)[i] == Row(b[i]);
  }
}
