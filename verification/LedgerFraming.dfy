/** What survives the trip through the file: appends, torn writes, and the three separators that break it. */
module LedgerFraming {
  import opened Common
  import opened JsonText
  import opened Ledger
  import opened LedgerFile

  // ---------------------------------------------------------------- text algebra

  lemma Utf8Concat(a: string, b: string)
    ensures Utf8(a + b) == Utf8(a) + Utf8(b)
  {
    ExpandConcat(Utf8Char, a, b);
  }

  lemma Utf8Cons(t: string)
    requires t != ""
    ensures Utf8(t) == Utf8Char(t[0]) + Utf8(t[1..])
  {}

  /** A text ends its last line exactly when its bytes end in the newline byte. */
  lemma {:induction false} Utf8LastByte(t: string)
    ensures t == "" <==> Utf8(t) == []
    ensures t != "" ==> (Utf8(t)[|Utf8(t)| - 1] == NEWLINE <==> t[|t| - 1] == '\n')
  {
    if t != "" {
      Utf8Cons(t);
      Utf8LastByte(t[1..]);
      if t[1..] == "" {
        assert Utf8(t) == Utf8Char(t[0]);
      } else {
        assert Utf8(t)[|Utf8(t)| - 1] == Utf8(t[1..])[|Utf8(t[1..])| - 1];
      }
    }
  }

  /** The newline byte occurs only as the newline character, so cutting after it cuts between characters. */
  lemma {:induction false} CutAfterNewline(t: string, p: seq<Byte>) returns (m: nat)
    requires p <= Utf8(t) && p != [] && p[|p| - 1] == NEWLINE
    ensures 0 < m <= |t| && p == Utf8(t[..m]) && t[m - 1] == '\n'
  {
    var head := Utf8Char(t[0]);
    Utf8Cons(t);
    if |p| <= |head| {
      assert p == head[..|p|];
      assert NEWLINE in head;
      m := 1;
      assert t[..1] == [t[0]] && t[..1][1..] == "";
      Utf8Cons(t[..1]);
    } else {
      assert p[|head|..] <= Utf8(t[1..]);
      var k := CutAfterNewline(t[1..], p[|head|..]);
      m := k + 1;
      assert t[..m][0] == t[0] && t[..m][1..] == t[1..][..k];
      Utf8Cons(t[..m]);
      assert p == head + p[|head|..];
    }
  }

  /** Rows that read back when they are appended. */
  predicate AllOneLine(rows: seq<Record>) {
    forall r | r in rows :: OneLine(r)
  }

  predicate EndsLine(t: string) {
    t == "" || t[|t| - 1] == '\n'
  }

  lemma {:induction false} BreakAtConcat(t: string, s: string)
    requires BreakAt(t) < |t|
    ensures BreakAt(t + s) == BreakAt(t)
  {
    if !IsBreak(t[0]) {
      assert (t + s)[1..] == t[1..] + s;
      BreakAtConcat(t[1..], s);
    }
  }

  lemma SplitFirst(t: string, s: string)
    requires BreakAt(t) < |t| && EndsLine(t)
    ensures var n := BreakAt(t);
      SplitLines(t + s) == [t[..n]] + SplitLines(t[n + BreakWidth(t, n)..] + s)
  {
    hide IsBreak, BreakAt;
    var n := BreakAt(t);
    BreakAtConcat(t, s);
    assert t[n] == '\r' ==> n + 1 < |t|;
    assert (t + s)[n + BreakWidth(t, n)..] == t[n + BreakWidth(t, n)..] + s;
    assert (t + s)[..n] == t[..n];
  }

  /** Splitting is local: text appended after a finished line adds its own lines and changes no earlier one. */
  lemma {:induction false} SplitConcat(t: string, s: string)
    requires EndsLine(t)
    ensures SplitLines(t + s) == SplitLines(t) + SplitLines(s)
    decreases |t|
  {
    if t == "" {
      assert t + s == s;
    } else {
      assert IsBreak(t[|t| - 1]);
      SplitFirst(t, s);
      var n := BreakAt(t);
      var rest := t[n + BreakWidth(t, n)..];
      SplitConcat(rest, s);
      Assoc([t[..n]], SplitLines(rest), SplitLines(s));
    }
  }

  /** One written record reads back as one line exactly when its text holds no line break. */
  lemma SplitRecord(text: string)
    requires text != ""
    ensures !Breaks(text) ==> SplitLines(text + "\n") == [text]
    ensures Breaks(text) ==>
      && BreakAt(text) < |text|
      && SplitLines(text + "\n") != []
      && SplitLines(text + "\n")[0] == text[..BreakAt(text)]
  {
    var line := text + "\n";
    var n := BreakAt(line);
    assert IsBreak(line[|text|]);
    if Breaks(text) {
      var i :| 0 <= i < |text| && IsBreak(text[i]);
      assert BreakAt(text) <= i;
      BreakAtConcat(text, "\n");
      assert line[..n] == text[..n];
    } else {
      assert forall i | 0 <= i < |text| :: line[i] == text[i] && !IsBreak(text[i]);
      assert n == |text|;
      assert line[..n] == text;
      assert line[n + 1..] == "";
    }
  }

  // ---------------------------------------------------------------- verification over concatenated lines

  lemma LoadsConcat(codec: Codec, a: seq<string>, b: seq<string>)
    ensures Loads(codec, a + b) == Loads(codec, a) + Loads(codec, b)
  {}

  lemma AsLinesConcat(a: seq<Record>, b: seq<Record>)
    ensures AsLines(a + b) == AsLines(a) + AsLines(b)
  {}

  /** A verified file's lines are its rows, and its text ends its last line. */
  lemma FileLines(hash: Hash, codec: Codec, raw: seq<Byte>, rows: seq<Record>) returns (t: string)
    requires Faithful(codec) && ReadLedger(hash, codec, Some(raw)) == Ok(rows)
    ensures raw == Utf8(t) && EndsLine(t)
    ensures Loads(codec, SplitLines(t)) == AsLines(rows) && WellChained(hash, rows)
  {
    t := codec.utf8(raw).value;
    assert raw == Utf8(t);
    Utf8LastByte(t);
    VerifyAccepts(hash, Loads(codec, SplitLines(t)), rows);
  }

  lemma ReadText(hash: Hash, codec: Codec, t: string)
    requires Faithful(codec) && EndsLine(t)
    ensures ReadLedger(hash, codec, Some(Utf8(t))) == Verify(hash, Loads(codec, SplitLines(t)))
  {
    Utf8LastByte(t);
    assert codec.utf8(Utf8(t)) == Some(t);
  }

  lemma FrameOne(r: Record)
    ensures Frame([r]) == Utf8(RecordText(r) + "\n")
    ensures EndsLine(RecordText(r) + "\n")
  {
    assert [r][1..] == [];
    assert FrameText([r]) == RecordText(r) + "\n";
  }

  /** Reading a verified file with more finished lines behind it verifies the old rows and goes on. */
  lemma ReadAppended(hash: Hash, codec: Codec, raw: seq<Byte>, rows: seq<Record>, t: string, s: string)
    requires Faithful(codec) && EndsLine(t) && EndsLine(s) && raw == Utf8(t)
    requires Loads(codec, SplitLines(t)) == AsLines(rows)
    ensures ReadLedger(hash, codec, Some(raw + Utf8(s))) == Verify(hash, AsLines(rows) + Loads(codec, SplitLines(s)))
  {
    Utf8Concat(t, s);
    ReadText(hash, codec, t + s);
    SplitConcat(t, s);
    LoadsConcat(codec, SplitLines(t), SplitLines(s));
  }

  /** The line of a chained record that stays on one line reads back as the record. */
  lemma LineReadsBack(hash: Hash, codec: Codec, rows: seq<Record>, r: Record)
    requires Faithful(codec) && WellChained(hash, rows + [r]) && OneLine(r)
    ensures Loads(codec, SplitLines(RecordText(r) + "\n")) == AsLines([r])
  {
    hide RecordText, Dictionaries, Text, IsTimestamp, IsDigest;
    assert Linked(hash, rows + [r], |rows|);
    SplitRecord(RecordText(r));
  }

  /**
   Appending one sealed record to a verified file gives a file that verifies to the old rows plus that record
   exactly when the record's text stays on one line; otherwise the file no longer verifies at all.
   */
  lemma AppendRoundTrip(hash: Hash, codec: Codec, raw: seq<Byte>, rows: seq<Record>, r: Record)
    requires Faithful(codec) && ReadLedger(hash, codec, Some(raw)) == Ok(rows)
    requires WellChained(hash, rows + [r])
    ensures ReadLedger(hash, codec, Some(raw + Frame([r]))) ==
      if OneLine(r) then Ok(rows + [r]) else Err(Truncated(|rows| + 1))
  {
    hide WellChained, Verify, ReadLedger, RecordText;
    var t := FileLines(hash, codec, raw, rows);
    var text := RecordText(r);
    FrameOne(r);
    ReadAppended(hash, codec, raw, rows, t, text + "\n");
    var tail := Loads(codec, SplitLines(text + "\n"));
    if OneLine(r) {
      LineReadsBack(hash, codec, rows, r);
      AsLinesConcat(rows, [r]);
      VerifyAccepts(hash, AsLines(rows) + tail, rows + [r]);
    } else {
      SplitRecord(text);
      var line := codec.loads(text[..BreakAt(text)]);
      assert line.Blank? || line.Malformed?;
      assert tail[0] == line;
      BadLine(hash, rows, tail);
    }
  }

  lemma BadLine(hash: Hash, rows: seq<Record>, tail: seq<Line>)
    requires WellChained(hash, rows) && tail != [] && (tail[0].Blank? || tail[0].Malformed?)
    ensures Verify(hash, AsLines(rows) + tail) == Err(Truncated(|rows| + 1))
  {
    var lines := AsLines(rows) + tail;
    assert lines[..|rows| + 1] == AsLines(rows) + [tail[0]];
    assert lines[..|rows| + 1][..|rows|] == AsLines(rows);
    VerifyAccepts(hash, AsLines(rows), rows);
    FirstErrorStays(hash, lines, |rows| + 1);
  }

  lemma FrameSplit(raw: seq<Byte>, r: Record, rest: seq<Record>)
    ensures raw + Frame([r] + rest) == (raw + Frame([r])) + Frame(rest)
  {
    assert ([r] + rest)[1..] == rest && [r][1..] == [];
    assert FrameText([r] + rest) == FrameText([r]) + FrameText(rest);
    Utf8Concat(FrameText([r]), FrameText(rest));
  }

  /** A run of appended records reads back in full exactly when every one of them stays on one line. */
  lemma {:induction false} BatchRoundTrip(hash: Hash, codec: Codec, raw: seq<Byte>, rows: seq<Record>,
    added: seq<Record>)
    requires Faithful(codec) && ReadLedger(hash, codec, Some(raw)) == Ok(rows)
    requires WellChained(hash, rows + added)
    ensures ReadLedger(hash, codec, Some(raw + Frame(added))) == Ok(rows + added)
      <==> forall r | r in added :: OneLine(r)
    decreases |added|
  {
    if added == [] {
      assert raw + Frame(added) == raw && rows + added == rows;
    } else {
      var r, rest := added[0], added[1..];
      assert added == [r] + rest;
      Assoc(rows, [r], rest);
      assert (rows + added)[..|rows| + 1] == rows + [r];
      PrefixWellChained(hash, rows + added, |rows| + 1);
      FrameSplit(raw, r, rest);
      if OneLine(r) {
        AppendRoundTrip(hash, codec, raw, rows, r);
        BatchRoundTrip(hash, codec, raw + Frame([r]), rows + [r], rest);
      } else {
        BrokenStaysBroken(hash, codec, raw, rows, r, rest);
      }
    }
  }

  lemma {:induction false} FrameConcat(a: seq<Record>, b: seq<Record>)
    ensures FrameText(a + b) == FrameText(a) + FrameText(b)
    ensures Frame(a + b) == Frame(a) + Frame(b)
  {
    hide RecordText, Utf8;
    if a == [] {
      assert a + b == b;
    } else {
      FrameConcat(a[1..], b);
      assert (a + b)[1..] == a[1..] + b && (a + b)[0] == a[0];
      Assoc(RecordText(a[0]) + "\n", FrameText(a[1..]), FrameText(b));
    }
    Utf8Concat(FrameText(a), FrameText(b));
  }

  lemma FramesJoin(raw: seq<Byte>, rows: seq<Record>, first: seq<Record>, last: seq<Record>)
    requires rows <= first <= last
    ensures (raw + Frame(first[|rows|..])) + Frame(last[|first|..]) == raw + Frame(last[|rows|..])
  {
    hide Frame;
    FrameConcat(first[|rows|..], last[|first|..]);
    assert last[|rows|..] == first[|rows|..] + last[|first|..];
    Assoc(raw, Frame(first[|rows|..]), Frame(last[|first|..]));
  }

  /**
   `first` is the ledger between the batches: what the first wrote reads back as it exactly when every new record stays
   on one line, and the bytes after the second batch are those of the one batch that ends in `last`.
   */
  ghost predicate Composes(hash: Hash, codec: Codec, raw: seq<Byte>, rows: seq<Record>, first: seq<Record>,
    last: seq<Record>)
  {
    && rows <= first <= last
    && (ReadLedger(hash, codec, Some(raw + Frame(first[|rows|..]))) == Ok(first) <==>
      forall r | r in first[|rows|..] :: OneLine(r))
    && (raw + Frame(first[|rows|..])) + Frame(last[|first|..]) == raw + Frame(last[|rows|..])
  }

  /**
   Two batches in a row leave the bytes of the one batch A ++ B, provided the second can read what the first wrote.
   */
  lemma BatchesCompose(hash: Hash, codec: Codec, raw: seq<Byte>, rows: seq<Record>, a: seq<Event>, b: seq<Event>)
    requires Faithful(codec) && ReadLedger(hash, codec, Some(raw)) == Ok(rows) && WellChained(hash, rows)
    requires (forall e | e in a + b :: EventOk(e)) && RunBatch(hash, rows, a + b).Ok?
    ensures RunBatch(hash, rows, a).Ok? && RunBatch(hash, RunBatch(hash, rows, a).value.rows, b).Ok?
    ensures RunBatch(hash, RunBatch(hash, rows, a).value.rows, b).value.rows == RunBatch(hash, rows, a + b).value.rows
    ensures Composes(hash, codec, raw, rows, RunBatch(hash, rows, a).value.rows, RunBatch(hash, rows, a + b).value.rows)
  {
    hide RunBatch, ReadLedger, WellChained, EventOk, Frame, OneLine, Faithful, Reports;
    BatchConcat(hash, rows, a, b);
    var first := RunBatch(hash, rows, a).value.rows;
    var last := RunBatch(hash, first, b).value.rows;
    assert forall e | e in a :: e in a + b;
    BatchSound(hash, rows, a);
    assert forall e | e in b :: e in a + b;
    BatchSound(hash, first, b);
    assert first == rows + first[|rows|..];
    BatchRoundTrip(hash, codec, raw, rows, first[|rows|..]);
    FramesJoin(raw, rows, first, last);
  }

  /** Nothing written later mends a broken line: the ledger rejects every further read. */
  lemma BrokenStaysBroken(hash: Hash, codec: Codec, raw: seq<Byte>, rows: seq<Record>, r: Record, later: seq<Record>)
    requires Faithful(codec) && ReadLedger(hash, codec, Some(raw)) == Ok(rows)
    requires !OneLine(r)
    ensures ReadLedger(hash, codec, Some((raw + Frame([r])) + Frame(later))) == Err(Truncated(|rows| + 1))
  {
    var t := FileLines(hash, codec, raw, rows);
    var text := RecordText(r);
    FrameOne(r);
    FrameEndsLine(later);
    Assoc(raw, Frame([r]), Frame(later));
    Utf8Concat(text + "\n", FrameText(later));
    ReadAppended(hash, codec, raw, rows, t, (text + "\n") + FrameText(later));
    SplitConcat(text + "\n", FrameText(later));
    LoadsConcat(codec, SplitLines(text + "\n"), SplitLines(FrameText(later)));
    SplitRecord(text);
    assert codec.loads(text[..BreakAt(text)]).Blank? || codec.loads(text[..BreakAt(text)]).Malformed?;
    BadLine(hash, rows, Loads(codec, SplitLines(text + "\n")) + Loads(codec, SplitLines(FrameText(later))));
  }

  lemma {:induction false} FrameEndsLine(rows: seq<Record>)
    ensures EndsLine(FrameText(rows))
  {
    if rows != [] {
      FrameEndsLine(rows[1..]);
    }
  }

  /**
   A torn write is never misread: every byte prefix of a verified file is rejected as truncated or is a verified shorter
   history.
   */
  lemma TornWrite(hash: Hash, codec: Codec, raw: seq<Byte>, rows: seq<Record>, p: seq<Byte>)
    requires Faithful(codec) && ReadLedger(hash, codec, Some(raw)) == Ok(rows) && p <= raw
    ensures var r := ReadLedger(hash, codec, Some(p));
      if p != [] && p[|p| - 1] != NEWLINE then r == Err(MissingNewline) else r.Ok? && r.value <= rows
  {
    hide SplitLines, Verify, WellChained, Utf8Char;
    var t := FileLines(hash, codec, raw, rows);
    if p == [] {
      assert p == Utf8("");
      WholeLines(hash, codec, t, rows, 0);
    } else if p[|p| - 1] == NEWLINE {
      var m := CutAfterNewline(t, p);
      WholeLines(hash, codec, t, rows, m);
    }
  }

  lemma WholeLines(hash: Hash, codec: Codec, t: string, rows: seq<Record>, m: nat)
    requires Faithful(codec) && m <= |t| && EndsLine(t[..m])
    requires Loads(codec, SplitLines(t)) == AsLines(rows) && WellChained(hash, rows)
    ensures var r := ReadLedger(hash, codec, Some(Utf8(t[..m]))); r.Ok? && r.value <= rows
  {
    hide SplitLines, Verify, WellChained, Utf8Char, Loads;
    var head, tail := t[..m], t[m..];
    ReadText(hash, codec, head);
    SplitConcat(head, tail);
    assert t == head + tail;
    LoadsConcat(codec, SplitLines(head), SplitLines(tail));
    LinesPrefix(hash, Loads(codec, SplitLines(head)), Loads(codec, SplitLines(tail)), rows);
  }

  lemma LinesPrefix(hash: Hash, front: seq<Line>, back: seq<Line>, rows: seq<Record>)
    requires front + back == AsLines(rows) && WellChained(hash, rows)
    ensures Verify(hash, front).Ok? && Verify(hash, front).value <= rows
  {
    var n := |front|;
    assert front == (front + back)[..n];
    assert |AsLines(rows)| == |rows|;
    assert AsLines(rows)[..n] == AsLines(rows[..n]);
    PrefixWellChained(hash, rows, n);
    VerifyAccepts(hash, front, rows[..n]);
  }

  // ---------------------------------------------------------------- where line breaks come from

  predicate Separated(s: string) {
    exists i | 0 <= i < |s| :: IsSeparator(s[i])
  }

  /** Some string of the value, key or content, holds a separator. */
  predicate StringsSeparated(j: Json)
    decreases j, 1
  {
    match j
    case Str(s) => Separated(s)
    case Arr(items) => ItemsSeparated(items)
    case Obj(ms) => MembersSeparated(ms)
    case _ => false
  }

  predicate ItemsSeparated(items: seq<Json>)
    decreases items, 0
  {
    items != [] && (StringsSeparated(items[0]) || ItemsSeparated(items[1..]))
  }

  predicate MembersSeparated(ms: seq<Member>)
    decreases ms, 0
  {
    ms != [] && (Separated(ms[0].key) || StringsSeparated(ms[0].val) || MembersSeparated(ms[1..]))
  }

  lemma BreaksConcat(a: string, b: string)
    ensures Breaks(a + b) <==> Breaks(a) || Breaks(b)
  {
    if Breaks(a) {
      var i :| 0 <= i < |a| && IsBreak(a[i]);
      assert IsBreak((a + b)[i]);
    }
    if Breaks(b) {
      var i :| 0 <= i < |b| && IsBreak(b[i]);
      assert IsBreak((a + b)[|a| + i]);
    }
  }

  lemma EscapeCharBreaks(c: char)
    ensures Breaks(EscapeChar(c)) <==> IsSeparator(c)
  {
    var t := EscapeChar(c);
    if t == [c] {
      assert IsSeparator(c) ==> IsBreak(t[0]);
    } else {
      assert forall i | 0 <= i < |t| :: !IsBreak(t[i]);
    }
  }

  lemma {:induction false} QuoteBreaks(s: string)
    ensures Breaks(Quote(s)) <==> Separated(s)
  {
    EscapeBreaks(s);
    BreaksConcat("\"", Escape(s));
    BreaksConcat("\"" + Escape(s), "\"");
  }

  lemma {:induction false} EscapeBreaks(s: string)
    ensures Breaks(Escape(s)) <==> Separated(s)
  {
    if s != "" {
      EscapeCharBreaks(s[0]);
      EscapeBreaks(s[1..]);
      BreaksConcat(EscapeChar(s[0]), Escape(s[1..]));
      if Separated(s[1..]) {
        var i :| 0 <= i < |s[1..]| && IsSeparator(s[1..][i]);
        assert IsSeparator(s[i + 1]);
      }
    }
  }

  lemma {:induction false} DumpsBreaks(j: Json)
    ensures Breaks(Dumps(j)) <==> StringsSeparated(j)
    decreases j, 1
  {
    match j
    case Null =>
    case Bool(b) =>
    case Num(n) =>
      assert forall i | 0 <= i < |IntText(n)| :: IntText(n)[i] == '-' || '0' <= IntText(n)[i] <= '9';
    case Str(s) => QuoteBreaks(s);
    case Arr(items) =>
      ItemsBreaks(items);
      BreaksConcat("[", DumpsItems(items));
      BreaksConcat("[" + DumpsItems(items), "]");
    case Obj(ms) =>
      MembersBreaks(ms);
      BreaksConcat("{", DumpsMembers(ms));
      BreaksConcat("{" + DumpsMembers(ms), "}");
  }

  lemma {:induction false} ItemsBreaks(items: seq<Json>)
    ensures Breaks(DumpsItems(items)) <==> ItemsSeparated(items)
    decreases items, 0
  {
    if items != [] {
      DumpsBreaks(items[0]);
      ItemsBreaks(items[1..]);
      BreaksConcat(",", DumpsItems(items[1..]));
      BreaksConcat(Dumps(items[0]), "," + DumpsItems(items[1..]));
      assert |items| == 1 ==> items[1..] == [] && Dumps(items[0]) + "" == Dumps(items[0]);
    }
  }

  lemma {:induction false} MembersBreaks(ms: seq<Member>)
    ensures Breaks(DumpsMembers(ms)) <==> MembersSeparated(ms)
    decreases ms, 0
  {
    if ms != [] {
      QuoteBreaks(ms[0].key);
      DumpsBreaks(ms[0].val);
      MembersBreaks(ms[1..]);
      var first := Quote(ms[0].key) + ":" + Dumps(ms[0].val);
      BreaksConcat(Quote(ms[0].key), ":");
      BreaksConcat(Quote(ms[0].key) + ":", Dumps(ms[0].val));
      BreaksConcat(",", DumpsMembers(ms[1..]));
      BreaksConcat(first, "," + DumpsMembers(ms[1..]));
      assert |ms| == 1 ==> ms[1..] == [] && first + "" == first;
    }
  }

  /** A record stays on one line exactly when no string in it holds one of the three separators. */
  lemma OneLineMeansNoSeparator(r: Record)
    ensures OneLine(r) <==> !MembersSeparated(RecordMembers(r))
  {
    DumpsBreaks(Obj(RecordMembers(r)));
  }

  /** What an event contributes to its record: everything but position and hashes. */
  predicate EventSeparated(e: Event) {
    || MembersSeparated(e.accounting) || MembersSeparated(e.evidence) || MembersSeparated(e.lease)
      || MembersSeparated(e.route)
    || Separated(e.assignmentId) || Separated(e.boardSha) || Separated(e.checkpointId) || Separated(e.configSha)
    || Separated(e.envelopeSha) || Separated(e.eventId) || Separated(e.eventType) || Separated(e.goalId)
    || Separated(e.taskId) || Separated(e.timestamp)
  }

  predicate MemberSeparated(m: Member) {
    Separated(m.key) || StringsSeparated(m.val)
  }

  lemma {:induction false} SomeMemberSeparated(ms: seq<Member>)
    ensures MembersSeparated(ms) <==> exists i | 0 <= i < |ms| :: MemberSeparated(ms[i])
  {
    if ms != [] {
      SomeMemberSeparated(ms[1..]);
      if i :| 0 <= i < |ms[1..]| && MemberSeparated(ms[1..][i]) {
        assert MemberSeparated(ms[i + 1]);
      }
      if i :| 0 <= i < |ms| && MemberSeparated(ms[i]) {
        assert i > 0 ==> ms[1..][i - 1] == ms[i];
      }
    }
  }

  /** Characters no separator is among. */
  predicate Plain(s: string) {
    forall i | 0 <= i < |s| :: s[i] <= 'z'
  }

  lemma PlainText(s: string)
    requires Plain(s)
    ensures !Separated(s)
  {}

  lemma StrMember(key: string, s: string)
    requires Plain(key)
    ensures MemberSeparated(Member(key, Str(s))) <==> Separated(s)
  {}

  lemma ObjMember(key: string, ms: seq<Member>)
    requires Plain(key)
    ensures MemberSeparated(Member(key, Obj(ms))) <==> MembersSeparated(ms)
  {}

  lemma NumMember(key: string, n: int)
    requires Plain(key)
    ensures !MemberSeparated(Member(key, Num(n)))
  {}

  lemma Members0(r: Record)
    ensures |RecordMembers(r)| == 18
    ensures var ms, e := RecordMembers(r), r.Event();
      && (MemberSeparated(ms[0]) <==> MembersSeparated(e.accounting))
      && (MemberSeparated(ms[1]) <==> Separated(e.assignmentId))
      && (MemberSeparated(ms[2]) <==> Separated(e.boardSha))
  {
    hide Separated, MembersSeparated, MemberSeparated;
    var ms, e := RecordMembers(r), r.Event();
    assert MemberSeparated(ms[0]) <==> MembersSeparated(e.accounting) by { ObjMember("accounting", e.accounting); }
    assert MemberSeparated(ms[1]) <==> Separated(e.assignmentId) by { StrMember("assignment_id", e.assignmentId); }
    assert MemberSeparated(ms[2]) <==> Separated(e.boardSha) by { StrMember("board_sha256", e.boardSha); }
  }

  lemma Members3(r: Record)
    ensures |RecordMembers(r)| == 18
    ensures var ms, e := RecordMembers(r), r.Event();
      && (MemberSeparated(ms[3]) <==> Separated(e.checkpointId))
      && (MemberSeparated(ms[4]) <==> Separated(e.configSha))
      && (MemberSeparated(ms[5]) <==> Separated(e.envelopeSha))
  {
    hide Separated, MembersSeparated, MemberSeparated;
    var ms, e := RecordMembers(r), r.Event();
    assert MemberSeparated(ms[3]) <==> Separated(e.checkpointId) by { StrMember("checkpoint_id", e.checkpointId); }
    assert MemberSeparated(ms[4]) <==> Separated(e.configSha) by { StrMember("config_sha256", e.configSha); }
    assert MemberSeparated(ms[5]) <==> Separated(e.envelopeSha) by { StrMember("envelope_sha256", e.envelopeSha); }
  }

  lemma Members6(r: Record)
    ensures |RecordMembers(r)| == 18
    ensures var ms, e := RecordMembers(r), r.Event();
      && (MemberSeparated(ms[6]) <==> Separated(r.eventHash))
      && (MemberSeparated(ms[7]) <==> Separated(e.eventId))
      && (MemberSeparated(ms[8]) <==> Separated(e.eventType))
  {
    hide Separated, MembersSeparated, MemberSeparated;
    var ms, e := RecordMembers(r), r.Event();
    assert MemberSeparated(ms[6]) <==> Separated(r.eventHash) by { StrMember("event_hash", r.eventHash); }
    assert MemberSeparated(ms[7]) <==> Separated(e.eventId) by { StrMember("event_id", e.eventId); }
    assert MemberSeparated(ms[8]) <==> Separated(e.eventType) by { StrMember("event_type", e.eventType); }
  }

  lemma Members9(r: Record)
    ensures |RecordMembers(r)| == 18
    ensures var ms, e := RecordMembers(r), r.Event();
      && (MemberSeparated(ms[9]) <==> MembersSeparated(e.evidence))
      && (MemberSeparated(ms[10]) <==> Separated(e.goalId))
      && (MemberSeparated(ms[11]) <==> MembersSeparated(e.lease))
  {
    hide Separated, MembersSeparated, MemberSeparated;
    var ms, e := RecordMembers(r), r.Event();
    assert MemberSeparated(ms[9]) <==> MembersSeparated(e.evidence) by { ObjMember("evidence", e.evidence); }
    assert MemberSeparated(ms[10]) <==> Separated(e.goalId) by { StrMember("goal_id", e.goalId); }
    assert MemberSeparated(ms[11]) <==> MembersSeparated(e.lease) by { ObjMember("lease", e.lease); }
  }

  lemma Members12(r: Record)
    ensures |RecordMembers(r)| == 18
    ensures var ms, e := RecordMembers(r), r.Event();
      && (MemberSeparated(ms[12]) <==> Separated(r.body.previous))
      && (MemberSeparated(ms[13]) <==> MembersSeparated(e.route))
      && !MemberSeparated(ms[14])
  {
    hide Separated, MembersSeparated, MemberSeparated;
    var ms, e := RecordMembers(r), r.Event();
    assert MemberSeparated(ms[12]) <==>
      Separated(r.body.previous) by { StrMember("previous_event_hash", r.body.previous); }
    assert MemberSeparated(ms[13]) <==> MembersSeparated(e.route) by { ObjMember("route", e.route); }
    assert !MemberSeparated(ms[14]) by { NumMember("schema_version", 1); }
  }

  lemma Members15(r: Record)
    ensures |RecordMembers(r)| == 18
    ensures var ms, e := RecordMembers(r), r.Event();
      && !MemberSeparated(ms[15])
      && (MemberSeparated(ms[16]) <==> Separated(e.taskId))
      && (MemberSeparated(ms[17]) <==> Separated(e.timestamp))
  {
    hide Separated, MembersSeparated, MemberSeparated;
    var ms, e := RecordMembers(r), r.Event();
    assert !MemberSeparated(ms[15]) by { NumMember("sequence", r.body.sequence); }
    assert MemberSeparated(ms[16]) <==> Separated(e.taskId) by { StrMember("task_id", e.taskId); }
    assert MemberSeparated(ms[17]) <==> Separated(e.timestamp) by { StrMember("timestamp", e.timestamp); }
  }

  /** A record stays on one line exactly when neither its event nor its two hashes hold a separator. */
  lemma RecordOneLine(r: Record)
    ensures OneLine(r) <==> !EventSeparated(r.Event()) && !Separated(r.eventHash) && !Separated(r.body.previous)
  {
    hide OneLine, Separated, MembersSeparated, MemberSeparated, RecordMembers;
    OneLineMeansNoSeparator(r);
    var ms := RecordMembers(r);
    SomeMemberSeparated(ms);
    Members0(r);
    Members3(r);
    Members6(r);
    Members9(r);
    Members12(r);
    Members15(r);
    assert forall i | 0 <= i < 18 :: MemberSeparated(ms[i]) ==>
      EventSeparated(r.Event()) || Separated(r.eventHash) || Separated(r.body.previous);
  }

  const SAMPLE_DIGEST := "sha256:" + ZERO_HASH

  const SAMPLE_TIME := "2024-01-01T00:00:00Z"

  lemma {:induction false} ZeroDigits(n: nat)
    ensures |Zeros(n)| == n && forall i | 0 <= i < n :: Zeros(n)[i] == '0'
  {
    if n > 0 {
      ZeroDigits(n - 1);
    }
  }

  lemma SamplesValid()
    ensures IsDigest(SAMPLE_DIGEST) && IsTimestamp(SAMPLE_TIME)
    ensures Plain(SAMPLE_DIGEST) && Plain(SAMPLE_TIME) && Plain(ZERO_HASH)
  {
    hide IsTimestamp, Zeros;
    ZeroDigits(64);
    assert SAMPLE_DIGEST[..7] == "sha256:";
    assert forall i | 7 <= i < 71 :: SAMPLE_DIGEST[i] == ZERO_HASH[i - 7];
    assert IsTimestamp(SAMPLE_TIME) by { SampleTimeValid(); }
  }

  lemma SampleTimeValid()
    ensures IsTimestamp(SAMPLE_TIME)
  {
    hide Number;
    var t := SAMPLE_TIME;
    assert t[0] == '2' && t[1] == '0' && t[2] == '2' && t[3] == '4';
    assert t[5] == '0' && t[6] == '1' && t[8] == '0' && t[9] == '1';
    assert t[11] == t[12] == t[14] == t[15] == t[17] == t[18] == '0';
    FourDigits(t[..4]);
    TwoDigits(t[5..7]);
    TwoDigits(t[8..10]);
    TwoDigits(t[11..13]);
    TwoDigits(t[14..16]);
    TwoDigits(t[17..19]);
    assert Shaped(t) by { SampleShape(); }
  }

  lemma SampleShape()
    ensures Shaped(SAMPLE_TIME)
  {}

  lemma TwoDigits(s: string)
    requires |s| == 2
    ensures Number(s) == 10 * DigitValue(s[0]) + DigitValue(s[1])
  {
    assert s[..1][..0] == "" && s[..1][0] == s[0];
    assert Number(s[..1]) == DigitValue(s[0]);
  }

  lemma FourDigits(s: string)
    requires |s| == 4
    ensures Number(s) ==
      1000 * DigitValue(s[0]) + 100 * DigitValue(s[1]) + 10 * DigitValue(s[2]) + DigitValue(s[3])
  {
    assert s[..3][..2] == s[..2];
    TwoDigits(s[..2]);
    assert Number(s[..3]) == 10 * Number(s[..2]) + DigitValue(s[2]);
  }

  /** An event the validator accepts whose record does not stay on one line. */
  function SeparatorEvent(): Event {
    Event("e", "task_enqueued", SAMPLE_TIME, "g", "c", "t", "a", SAMPLE_DIGEST, SAMPLE_DIGEST, SAMPLE_DIGEST,
      [], [], [Member("note", Str("\U{2028}"))], [])
  }

  lemma SeparatorEventValid()
    ensures EventOk(SeparatorEvent())
  {
    hide IsTimestamp, IsDigest, Zeros;
    SamplesValid();
    assert forall c | c in {'e', 'g', 'c', 't', 'a'} :: Text([c]);
  }

  lemma SeparatorRecordBreaks(hash: Hash)
    ensures !OneLine(Seal(hash, [], SeparatorEvent()))
  {
    var r := Seal(hash, [], SeparatorEvent());
    var note := Member("note", Str("\U{2028}"));
    assert IsSeparator("\U{2028}"[0]);
    assert MembersSeparated([note]);
    assert RecordMembers(r)[0].val == Obj([note]);
    OneLineMeansNoSeparator(r);
  }

  /** The round trip is not total: appending a valid event that holds a separator leaves a ledger nobody can read. */
  lemma SeparatorBricksLedger(hash: Hash, codec: Codec)
    requires Faithful(codec)
    ensures EventOk(SeparatorEvent())
    ensures ReadLedger(hash, codec, Some(Frame([Seal(hash, [], SeparatorEvent())]))) == Err(Truncated(1))
  {
    var r := Seal(hash, [], SeparatorEvent());
    SeparatorEventValid();
    SeparatorRecordBreaks(hash);
    FirstAppend(hash, codec, r);
  }

  /** The round trip on an empty file. */
  lemma FirstAppend(hash: Hash, codec: Codec, r: Record)
    requires Faithful(codec) && r == Seal(hash, [], r.Event()) && EventOk(r.Event())
    ensures ReadLedger(hash, codec, Some(Frame([r]))) == if OneLine(r) then Ok([r]) else Err(Truncated(1))
  {
    hide FieldsValid, OneLine, RecordText;
    SealExtends(hash, [], r.Event());
    ReadText(hash, codec, "");
    assert Utf8("") == [] && [] + [r] == [r] && [] + Frame([r]) == Frame([r]);
    assert Loads(codec, SplitLines("")) == [];
    AppendRoundTrip(hash, codec, [], [], r);
  }
}
