/** What the validator accepts and how text falls into lines, the other way round: by writing instead of reading. */
module EventMeaning {
  import opened Common
  import opened JsonText
  import opened Ledger
  import opened LedgerFile
  import opened LedgerFraming

  // ---------------------------------------------------------------- digests and instants

  predicate HexText(s: string) {
    forall i | 0 <= i < |s| :: s[i] in "0123456789abcdef"
  }

  /** A digest is its algorithm and 64 hexadecimal digits. */
  lemma DigestExactly(s: string)
    ensures IsDigest(s) <==> exists hex :: |hex| == 64 && HexText(hex) && s == "sha256:" + hex
  {
    HexChars();
    if IsDigest(s) {
      var hex := s[7..];
      forall i | 0 <= i < |hex| ensures hex[i] in "0123456789abcdef" {
        assert hex[i] == s[i + 7];
      }
      assert HexText(hex) && s == s[..7] + hex;
    }
    if hex :| |hex| == 64 && HexText(hex) && s == "sha256:" + hex {
      assert |"sha256:"| == 7 && s[..7] == "sha256:";
      forall i | 7 <= i < 71 ensures IsHex(s[i]) {
        assert s[i] == hex[i - 7];
      }
    }
  }

  lemma HexChars()
    ensures forall c :: IsHex(c) <==> c in "0123456789abcdef"
  {
    var all := "0123456789abcdef";
    forall c ensures IsHex(c) <==> c in all {
      if '0' <= c <= '9' {
        assert all[c as int - '0' as int] == c;
      } else if 'a' <= c <= 'f' {
        assert all[c as int - 'a' as int + 10] == c;
      }
    }
  }

  /** An instant to the second. */
  datatype Instant = Instant(year: nat, month: nat, day: nat, hour: nat, minute: nat, second: nat)

  function MonthLength(year: nat, month: nat): (n: nat)
    ensures n <= 31
  {
    match month
    case 2 => if year % 400 == 0 || (year % 4 == 0 && year % 100 != 0) then 29 else 28
    case 4 => 30
    case 6 => 30
    case 9 => 30
    case 11 => 30
    case _ => 31
  }

  predicate Happens(t: Instant) {
    && 1 <= t.year <= 9999 && 1 <= t.month <= 12 && 1 <= t.day <= MonthLength(t.year, t.month)
    && t.hour < 24 && t.minute < 60 && t.second < 60
  }

  function DigitChar(d: nat): char
    requires d < 10
  {
    "0123456789"[d]
  }

  /** The two digits of a number below one hundred. */
  function Tens(n: nat): char
    requires n < 100
  {
    DigitChar(n / 10)
  }

  function Ones(n: nat): char
    requires n < 100
  {
    DigitChar(n % 10)
  }

  /** `YYYY-MM-DDTHH:MM:SSZ`. */
  function Print(t: Instant): (s: string)
    requires Happens(t)
    ensures |s| == 20
  {
    [ Tens(t.year / 100), Ones(t.year / 100), Tens(t.year % 100), Ones(t.year % 100), '-',
      Tens(t.month), Ones(t.month), '-', Tens(t.day), Ones(t.day), 'T',
      Tens(t.hour), Ones(t.hour), ':', Tens(t.minute), Ones(t.minute), ':', Tens(t.second), Ones(t.second), 'Z' ]
  }

  lemma DigitCharValue(d: nat)
    requires d < 10
    ensures IsDigit(DigitChar(d)) && DigitValue(DigitChar(d)) == d
  {}

  lemma DigitBack(c: char)
    requires IsDigit(c)
    ensures DigitValue(c) < 10 && DigitChar(DigitValue(c)) == c
  {}

  lemma TwoBack(s: string)
    requires |s| == 2 && IsDigit(s[0]) && IsDigit(s[1])
    ensures Number(s) < 100 && Tens(Number(s)) == s[0] && Ones(Number(s)) == s[1]
  {
    hide DigitChar, Number;
    TwoDigits(s);
    DigitBack(s[0]);
    DigitBack(s[1]);
    assert Number(s) / 10 == DigitValue(s[0]) && Number(s) % 10 == DigitValue(s[1]);
  }

  lemma TwoValue(s: string, n: nat)
    requires n < 100 && |s| == 2 && s[0] == Tens(n) && s[1] == Ones(n)
    ensures Number(s) == n && IsDigit(s[0]) && IsDigit(s[1])
  {
    hide DigitChar, Number;
    TwoDigits(s);
    DigitCharValue(n / 10);
    DigitCharValue(n % 10);
  }

  /** The text of an instant, character by character. */
  predicate Reads(t: string, i: Instant)
    requires Happens(i)
  {
    && |t| == 20
    && t[0] == Tens(i.year / 100) && t[1] == Ones(i.year / 100)
    && t[2] == Tens(i.year % 100) && t[3] == Ones(i.year % 100) && t[4] == '-'
    && t[5] == Tens(i.month) && t[6] == Ones(i.month) && t[7] == '-'
    && t[8] == Tens(i.day) && t[9] == Ones(i.day) && t[10] == 'T'
    && t[11] == Tens(i.hour) && t[12] == Ones(i.hour) && t[13] == ':'
    && t[14] == Tens(i.minute) && t[15] == Ones(i.minute) && t[16] == ':'
    && t[17] == Tens(i.second) && t[18] == Ones(i.second) && t[19] == 'Z'
  }

  lemma PrintReads(t: string, i: Instant)
    requires Happens(i)
    ensures t == Print(i) <==> Reads(t, i)
  {
    hide Tens, Ones, MonthLength;
    if Reads(t, i) {
      var u := Print(i);
      assert forall k | 0 <= k < 20 :: t[k] == u[k];
    }
  }

  /** Where the shape of a timestamp wants digits and where it wants signs. */
  lemma ShapedIs(t: string)
    ensures Shaped(t) <==>
      && |t| == 20
      && IsDigit(t[0]) && IsDigit(t[1]) && IsDigit(t[2]) && IsDigit(t[3]) && t[4] == '-'
      && IsDigit(t[5]) && IsDigit(t[6]) && t[7] == '-' && IsDigit(t[8]) && IsDigit(t[9]) && t[10] == 'T'
      && IsDigit(t[11]) && IsDigit(t[12]) && t[13] == ':' && IsDigit(t[14]) && IsDigit(t[15]) && t[16] == ':'
      && IsDigit(t[17]) && IsDigit(t[18]) && t[19] == 'Z'
  {
    var shape := TIMESTAMP_SHAPE;
    assert |shape| == 20 && shape[4] == '-' && shape[7] == '-' && shape[10] == 'T';
    assert shape[13] == ':' && shape[16] == ':' && shape[19] == 'Z';
    assert forall i | 0 <= i < 20 && i !in {4, 7, 10, 13, 16, 19} :: shape[i] == '0';
  }

  lemma Fourfold(n: nat)
    ensures 4 * n % 4 == 0
  {}

  lemma LeapYears(year: nat)
    ensures year % 400 == 0 ==> year % 4 == 0
  {
    if year % 400 == 0 {
      Fourfold(100 * (year / 400));
    }
  }

  lemma MonthLengthIs(year: nat, month: nat)
    ensures MonthLength(year, month) == DaysIn(year, month)
  {
    LeapYears(year);
  }

  lemma YearOf(s: string)
    requires |s| == 4 && IsDigit(s[0]) && IsDigit(s[1]) && IsDigit(s[2]) && IsDigit(s[3])
    ensures Number(s) == 100 * Number(s[0..2]) + Number(s[2..4])
  {
    hide Number;
    FourDigits(s);
    TwoDigits(s[0..2]);
    TwoDigits(s[2..4]);
  }

  lemma Centuries(a: nat, b: nat)
    requires b < 100
    ensures (100 * a + b) / 100 == a && (100 * a + b) % 100 == b
  {}

  lemma TimestampPrints(t: string) returns (i: Instant)
    requires IsTimestamp(t)
    ensures Happens(i) && t == Print(i)
  {
    hide Number, Shaped, DaysIn, MonthLength, Tens, Ones, Print;
    ShapedIs(t);
    var year, month, day := Number(t[..4]), Number(t[5..7]), Number(t[8..10]);
    i := Instant(year, month, day, Number(t[11..13]), Number(t[14..16]), Number(t[17..19]));
    MonthLengthIs(year, month);
    YearOf(t[..4]);
    assert t[..4][0..2] == t[0..2] && t[..4][2..4] == t[2..4];
    TwoBack(t[0..2]);
    TwoBack(t[2..4]);
    TwoBack(t[5..7]);
    TwoBack(t[8..10]);
    TwoBack(t[11..13]);
    TwoBack(t[14..16]);
    TwoBack(t[17..19]);
    Centuries(Number(t[0..2]), Number(t[2..4]));
    PrintReads(t, i);
  }

  lemma PrintIsTimestamp(i: Instant)
    requires Happens(i)
    ensures IsTimestamp(Print(i))
  {
    hide Number, Shaped, DaysIn, MonthLength, Tens, Ones, Print;
    var t := Print(i);
    PrintReads(t, i);
    TwoValue(t[0..2], i.year / 100);
    TwoValue(t[2..4], i.year % 100);
    TwoValue(t[5..7], i.month);
    TwoValue(t[8..10], i.day);
    TwoValue(t[11..13], i.hour);
    TwoValue(t[14..16], i.minute);
    TwoValue(t[17..19], i.second);
    ShapedIs(t);
    YearOf(t[..4]);
    assert t[..4][0..2] == t[0..2] && t[..4][2..4] == t[2..4];
    MonthLengthIs(i.year, i.month);
  }

  /** A timestamp is the text of an instant that happens. */
  lemma TimestampExactly(t: string)
    ensures IsTimestamp(t) <==> exists i :: Happens(i) && t == Print(i)
  {
    hide IsTimestamp, Print, Happens;
    if IsTimestamp(t) {
      var i := TimestampPrints(t);
    }
    if i :| Happens(i) && t == Print(i) {
      PrintIsTimestamp(i);
    }
  }

  // ---------------------------------------------------------------- events

  predicate Named(s: string) {
    s != "" && forall i | 0 <= i < |s| :: s[i] != '\0'
  }

  ghost predicate DigestText(s: string) {
    exists hex :: |hex| == 64 && HexText(hex) && s == "sha256:" + hex
  }

  ghost predicate InstantText(t: string) {
    exists i :: Happens(i) && t == Print(i)
  }

  predicate KnownType(t: string) {
    || t == "task_enqueued" || t == "classification_rejected"
    || t == "preflight_cache_hit" || t == "preflight_cache_miss" || t == "preflight_cache_expired"
    || t == "preflight_probe_in_flight" || t == "candidate_rejected"
    || t == "lease_granted" || t == "lease_denied" || t == "lease_released" || t == "lease_expired"
    || t == "lease_recovered" || t == "budget_reserved" || t == "budget_reconciled"
    || t == "dispatch_started" || t == "dispatch_finished" || t == "execution_unknown"
    || t == "quality_accepted" || t == "quality_rejected" || t == "retry_queued" || t == "schedule_closed"
  }

  /** What the validator accepts. */
  lemma ValidExactly(e: Event)
    ensures EventOk(e) <==>
      && Named(e.eventId) && Named(e.goalId) && Named(e.checkpointId) && Named(e.taskId) && Named(e.assignmentId)
      && KnownType(e.eventType) && InstantText(e.timestamp)
      && DigestText(e.envelopeSha) && DigestText(e.configSha) && DigestText(e.boardSha)
      && Dictionary(e.route) && Dictionary(e.lease) && Dictionary(e.accounting) && Dictionary(e.evidence)
      && Get(e.accounting, "observed_tokens") != Some(Null)
  {
    hide IsTimestamp, IsDigest, InstantText, DigestText, Dictionary, Get, Text, Named;
    NamedIs(e.eventId);
    NamedIs(e.goalId);
    NamedIs(e.checkpointId);
    NamedIs(e.taskId);
    NamedIs(e.assignmentId);
    InstantIs(e.timestamp);
    DigestIs(e.envelopeSha);
    DigestIs(e.configSha);
    DigestIs(e.boardSha);
  }

  lemma NamedIs(s: string)
    ensures Named(s) <==> Text(s)
  {}

  lemma InstantIs(t: string)
    ensures InstantText(t) <==> IsTimestamp(t)
  {
    hide IsTimestamp, Print, Happens;
    TimestampExactly(t);
  }

  lemma DigestIs(s: string)
    ensures DigestText(s) <==> IsDigest(s)
  {
    hide IsDigest, HexText;
    DigestExactly(s);
  }

  // ---------------------------------------------------------------- lines

  /** The characters that end a line. */
  const LINE_ENDS: string := "\n\U{000B}\U{000C}\r\U{001C}\U{001D}\U{001E}\U{0085}\U{2028}\U{2029}"

  lemma BreaksAre(c: char)
    ensures IsBreak(c) <==> c in LINE_ENDS
  {
    var all := LINE_ENDS;
    assert all[0] == '\n' && all[1] == '\U{000B}' && all[2] == '\U{000C}' && all[3] == '\r' && all[4] == '\U{001C}';
    assert all[5] == '\U{001D}' && all[6] == '\U{001E}' && all[7] == '\U{0085}' && all[8] == '\U{2028}';
    assert all[9] == '\U{2029}' && |all| == 10;
    if IsBreak(c) {
      assert c as int == 10 || c as int == 11 || c as int == 12 || c as int == 13 || c as int == 28 || c as int == 29
        || c as int == 30 || IsSeparator(c);
    }
  }

  /** One end of a line: a single break, carriage return and line feed together, or the end of the text. */
  predicate Ending(e: string, last: bool) {
    || (|e| == 1 && IsBreak(e[0]))
    || e == "\r\n"
    || (e == "" && last)
  }

  function Joined(lines: seq<string>, ends: seq<string>): string
    requires |lines| == |ends|
  {
    if lines == [] then "" else lines[0] + ends[0] + Joined(lines[1..], ends[1..])
  }

  /**
   Lines without breaks, each with its end; no carriage return is cut off from the line feed behind it, and no line at
   the end is empty for nothing.
   */
  predicate Fit(lines: seq<string>, ends: seq<string>)
    requires |lines| == |ends|
  {
    lines == [] ||
    (&& !Breaks(lines[0]) && Ending(ends[0], |lines| == 1)
     && (ends[0] == "\r" ==> var rest := Joined(lines[1..], ends[1..]); rest == "" || rest[0] != '\n')
     && (ends[0] == "" ==> lines[0] != "")
     && Fit(lines[1..], ends[1..]))
  }

  lemma CutTwice(t: string, n: nat, w: nat)
    requires n + w <= |t|
    ensures t == t[..n] + t[n..n + w] + t[n + w..]
  {
    assert t[..n + w] == t[..n] + t[n..n + w];
    assert t == t[..n + w] + t[n + w..];
  }

  lemma FirstLine(t: string, n: nat, w: nat, others: seq<string>)
    requires n == BreakAt(t) < |t| && w == BreakWidth(t, n)
    requires |others| == |SplitLines(t[n + w..])| && t[n + w..] == Joined(SplitLines(t[n + w..]), others)
    requires Fit(SplitLines(t[n + w..]), others)
    ensures var lines, ends := [t[..n]] + SplitLines(t[n + w..]), [t[n..n + w]] + others;
      t == Joined(lines, ends) && Fit(lines, ends)
  {
    hide IsBreak, SplitLines, Ending;
    var rest := SplitLines(t[n + w..]);
    var lines, ends := [t[..n]] + rest, [t[n..n + w]] + others;
    assert ends[1..] == others && lines[1..] == rest;
    CutTwice(t, n, w);
    BreakEnds(t, n, w);
  }

  /** What stands at a break is a whole end of a line. */
  lemma BreakEnds(t: string, n: nat, w: nat)
    requires n == BreakAt(t) < |t| && w == BreakWidth(t, n)
    ensures !Breaks(t[..n]) && t[n..n + w] != ""
    ensures Ending(t[n..n + w], true) && Ending(t[n..n + w], false)
    ensures t[n..n + w] == "\r" ==> t[n + w..] == "" || t[n + w..][0] != '\n'
  {
    hide IsBreak, BreakAt, Breaks;
    NoneBefore(t);
    var end := t[n..n + w];
    if w == 2 {
      assert end == [t[n], t[n + 1]];
    } else {
      assert end == [t[n]];
      assert n + w < |t| ==> t[n + w..][0] == t[n + 1];
    }
  }

  lemma NoneBefore(t: string)
    ensures !Breaks(t[..BreakAt(t)])
  {
    hide IsBreak;
  }

  /** The lines of a text are what stands between its breaks, and put together with them they are the text. */
  lemma {:induction false} LinesExactly(t: string) returns (ends: seq<string>)
    ensures |ends| == |SplitLines(t)| && t == Joined(SplitLines(t), ends) && Fit(SplitLines(t), ends)
    decreases |t|
  {
    hide IsBreak, Joined, Fit;
    if t == "" {
      ends := [];
      NoLines();
    } else {
      var n := BreakAt(t);
      if n == |t| {
        ends := [""];
        OneLineOnly(t);
      } else {
        var w := BreakWidth(t, n);
        var others := LinesExactly(t[n + w..]);
        ends := [t[n..n + w]] + others;
        FirstLine(t, n, w, others);
      }
    }
  }

  lemma NoLines()
    ensures Joined([], []) == "" && Fit([], [])
  {}

  lemma OneLineOnly(t: string)
    requires t != "" && BreakAt(t) == |t|
    ensures Joined([t], [""]) == t && Fit([t], [""])
  {
    hide IsBreak, Joined, BreakAt;
    NoLines();
    Alone(t, "");
    assert !Breaks(t);
  }

  lemma Alone(line: string, end: string)
    ensures Joined([line], [end]) == line + end
    ensures Fit([line], [end]) <==> !Breaks(line) && Ending(end, true) && (end == "" ==> line != "")
  {
    hide IsBreak;
    var lines, ends := [line], [end];
    assert lines[1..] == [] && ends[1..] == [];
    assert Joined(lines[1..], ends[1..]) == "" && Fit(lines[1..], ends[1..]) by { NoLines(); }
  }
}
