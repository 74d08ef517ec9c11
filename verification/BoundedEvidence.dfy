/**
 Bounded excerpts: the longest prefix-and-suffix excerpt of a text that lets its JSON rendering fit a
 character budget, found by binary search over a size that is not monotone in the cut.
 */
module BoundedEvidence {
  import opened Common
  import opened JsonText

  const MAX_OUTPUT_CHARS := 16 * 1024
  const MIN_OUTPUT_CHARS := 512
  const MARKER := "\n... bounded excerpt ...\n"

  datatype RenderError = OutOfRange | MetadataExceedsLimit

  function Excerpt(value: string, limit: nat): string {
    if |value| <= limit then value
    else if limit <= |MARKER| then value[..limit]
    else
      var remaining := limit - |MARKER|;
      var head := remaining / 2;
      var tail := remaining - head;
      value[..head] + MARKER + value[|value| - tail..]
  }

  function Encode(candidate: seq<Member>): string {
    Dumps(Obj(candidate))
  }

  /** The candidate the search starts from: the full text, flagged as truncated. */
  function Flagged(payload: seq<Member>, field: string, text: string): seq<Member> {
    Put(Put(payload, field, Str(text)), "truncated", Bool(true))
  }

  function Cut(flagged: seq<Member>, field: string, text: string, k: nat): string {
    Encode(Put(flagged, field, Str(Excerpt(text, k))))
  }

  /** The rendering of `text` cut at `k`. */
  function Truncated(payload: seq<Member>, field: string, text: string, k: nat): string {
    Cut(Flagged(payload, field, text), field, text, k)
  }

  function Complete(payload: seq<Member>, field: string, text: string): string {
    Encode(Put(Put(payload, field, Str(text)), "truncated", Bool(false)))
  }

  predicate IsPrefixMarkerSuffix(e: string, value: string, head: nat, tail: nat) {
    && head + tail <= |value|
    && e == value[..head] + MARKER + value[|value| - tail..]
  }

  /**
   An excerpt has the length asked for, and is the text, a prefix of it, or a prefix and a suffix around the marker.
   */
  lemma ExcerptShape(value: string, limit: nat)
    ensures var e := Excerpt(value, limit);
      && |e| == (if |value| <= limit then |value| else limit)
      && (|value| <= limit ==> e == value)
      && (e <= value || exists head: nat, tail: nat ::
           IsPrefixMarkerSuffix(e, value, head, tail) && head + tail == limit - |MARKER| && head <= tail <= head + 1)
  {
    if |value| > limit > |MARKER| {
      var head := (limit - |MARKER|) / 2;
      assert IsPrefixMarkerSuffix(Excerpt(value, limit), value, head, limit - |MARKER| - head);
    }
  }

  /** The rendering of a cut costs its escaped excerpt on top of the rendering of the empty excerpt. */
  lemma CutNeverShorter(flagged: seq<Member>, field: string, text: string, k: nat)
    ensures |Cut(flagged, field, text, k)| == |Cut(flagged, field, text, 0)| + |Escape(Excerpt(text, k))|
  {
    PutTextLength(flagged, field, Excerpt(text, k));
    PutTextLength(flagged, field, Excerpt(text, 0));
    assert Excerpt(text, 0) == "";
  }

  /** A document with this text in its field, the flag set so, and everything else as in the payload. */
  ghost predicate Shows(payload: seq<Member>, field: string, shown: seq<Member>, text: string, truncated: bool) {
    && Get(shown, field) == Some(Str(text)) && Get(shown, "truncated") == Some(Bool(truncated))
    && forall k | k != field && k != "truncated" :: Get(shown, k) == Get(payload, k)
  }

  /** A text that fits is rendered whole, and said not to be truncated. */
  lemma CompleteShows(payload: seq<Member>, field: string, text: string) returns (shown: seq<Member>)
    requires field != "truncated"
    ensures Complete(payload, field, text) == Dumps(Obj(shown)) && Shows(payload, field, shown, text, false)
  {
    hide Put, Get;
    var with := Put(payload, field, Str(text));
    shown := Put(with, "truncated", Bool(false));
    PutReads(payload, field, Str(text));
    PutReads(with, "truncated", Bool(false));
  }

  /** A text that is cut is rendered as a whole excerpt of it, and said to be truncated. */
  lemma TruncatedShows(payload: seq<Member>, field: string, text: string, k: nat)
    returns (shown: seq<Member>, e: string)
    requires field != "truncated" && k <= |text|
    ensures Truncated(payload, field, text, k) == Dumps(Obj(shown)) && Shows(payload, field, shown, e, true)
    ensures |e| == k
    ensures e <= text || exists head: nat, tail: nat ::
      IsPrefixMarkerSuffix(e, text, head, tail) && head + tail == k - |MARKER| && head <= tail <= head + 1
  {
    hide Put, Get, Excerpt;
    e := Excerpt(text, k);
    ExcerptShape(text, k);
    var with := Put(payload, field, Str(text));
    var flagged := Put(with, "truncated", Bool(true));
    shown := Put(flagged, field, Str(e));
    PutReads(payload, field, Str(text));
    PutReads(with, "truncated", Bool(true));
    PutReads(flagged, field, Str(e));
  }

  method RenderBounded(payload: seq<Member>, field: string, text: string, maxChars: int)
    returns (res: Result<string, RenderError>)
    ensures res == Err(OutOfRange) <==> maxChars < 512 || 16384 < maxChars
    ensures res.Ok? ==> |res.value| <= maxChars - 1
    ensures MIN_OUTPUT_CHARS <= maxChars <= MAX_OUTPUT_CHARS ==>
      var budget := maxChars - 1;
      if |Complete(payload, field, text)| <= budget then res == Ok(Complete(payload, field, text))
      else if |Truncated(payload, field, text, 0)| > budget then res == Err(MetadataExceedsLimit)
      else exists k: nat | k <= |text| ::
        && res == Ok(Truncated(payload, field, text, k))
        && (k < |text| ==> |Truncated(payload, field, text, k + 1)| > budget)
  {
    if !(MIN_OUTPUT_CHARS <= maxChars <= MAX_OUTPUT_CHARS) {
      return Err(OutOfRange);
    }
    var budget := maxChars - 1;
    var candidate := Put(payload, field, Str(text));
    candidate := Put(candidate, "truncated", Bool(false));
    var encoded := Encode(candidate);
    if |encoded| <= budget {
      return Ok(encoded);
    }
    PutTwice(Put(payload, field, Str(text)), "truncated", Bool(false), Bool(true));
    candidate := Put(candidate, "truncated", Bool(true));
    var best := SearchCut(candidate, field, text, budget);
    if best.None? {
      return Err(MetadataExceedsLimit);
    }
    ghost var k: nat :| k <= |text| && best.value == Cut(candidate, field, text, k)
      && (k < |text| ==> |Cut(candidate, field, text, k + 1)| > budget);
    assert best.value == Truncated(payload, field, text, k);
    assert k < |text| ==> |Truncated(payload, field, text, k + 1)| > budget;
    return Ok(best.value);
  }

  /** The binary search: the last probe that fitted, next to a probe that did not. */
  method SearchCut(flagged: seq<Member>, field: string, text: string, budget: int) returns (best: Option<string>)
    ensures best.None? <==> |Cut(flagged, field, text, 0)| > budget
    ensures best.Some? ==> |best.value| <= budget && exists k: nat | k <= |text| ::
      && best.value == Cut(flagged, field, text, k)
      && (k < |text| ==> |Cut(flagged, field, text, k + 1)| > budget)
  {
    hide Excerpt, Put;
    var candidate := flagged;
    var low: int, high: int := 0, |text|;
    best := None;
    while low <= high
      invariant 0 <= low <= high + 1 <= |text| + 1
      invariant SameButField(candidate, flagged, field)
      invariant best.None? <==> low == 0
      invariant best.Some? ==> best.value == Cut(flagged, field, text, low - 1) && |best.value| <= budget
      invariant high < |text| ==> |Cut(flagged, field, text, high + 1)| > budget
      decreases high - low
    {
      var middle := (low + high) / 2;
      PutAgain(candidate, flagged, field, Str(Excerpt(text, middle)));
      candidate := Put(candidate, field, Str(Excerpt(text, middle)));
      var encoded := Encode(candidate);
      if |encoded| <= budget {
        best := Some(encoded);
        low := middle + 1;
      } else {
        high := middle - 1;
      }
    }
    if best.Some? {
      CutNeverShorter(flagged, field, text, low - 1);
    }
  }

  ghost predicate SameButField(candidate: seq<Member>, base: seq<Member>, field: string) {
    candidate == base || exists v :: candidate == Put(base, field, v)
  }

  lemma PutAgain(candidate: seq<Member>, base: seq<Member>, field: string, v: Json)
    requires SameButField(candidate, base, field)
    ensures Put(candidate, field, v) == Put(base, field, v)
    ensures SameButField(Put(candidate, field, v), base, field)
  {
    if candidate != base {
      var w :| candidate == Put(base, field, w);
      PutTwice(base, field, w, v);
    }
  }

  function Quotes(n: nat): string {
    if n == 0 then "" else "\"" + Quotes(n - 1)
  }

  lemma {:induction false} QuotesEscape(n: nat)
    ensures |Quotes(n)| == n && |Escape(Quotes(n))| == 2 * n
    ensures forall i | 0 <= i < n :: Quotes(n)[i] == '"'
  {
    if n > 0 {
      QuotesEscape(n - 1);
      assert Quotes(n)[1..] == Quotes(n - 1);
    }
  }

  lemma {:induction false} AllQuotes(s: string, n: nat)
    requires |s| == n && forall i | 0 <= i < n :: s[i] == '"'
    ensures s == Quotes(n)
  {
    QuotesEscape(n);
  }

  lemma MarkerCost()
    ensures |Escape(MARKER)| == |MARKER| + 2
  {
    assert MARKER[0] == '\n' && MARKER[24] == '\n';
    assert forall i | 1 <= i < 24 :: MARKER[i] == ' ' || MARKER[i] == '.' || 'a' <= MARKER[i] <= 'z';
    EscapeSandwich(MARKER);
  }

  lemma EscapeSandwich(s: string)
    requires |s| == 25 && s[0] == '\n' && s[24] == '\n'
    requires forall i | 1 <= i < 24 :: s[i] == ' ' || s[i] == '.' || 'a' <= s[i] <= 'z'
    ensures |Escape(s)| == 27
  {
    var words, last := s[1..24], s[24..];
    assert s == [s[0]] + words + last;
    ExpandConcat(EscapeChar, [s[0]] + words, last);
    ExpandConcat(EscapeChar, [s[0]], words);
    EscapePlain(words);
    assert last == ['\n'] && last[1..] == "" && [s[0]][1..] == "";
  }

  lemma ExcerptsOfQuotes()
    ensures Excerpt(Quotes(30), |MARKER|) == Quotes(|MARKER|)
    ensures Excerpt(Quotes(30), |MARKER| + 1) == MARKER + Quotes(1)
  {
    var text := Quotes(30);
    QuotesEscape(30);
    AllQuotes(text[..|MARKER|], |MARKER|);
    AllQuotes(text[29..], 1);
    assert text[..0] + MARKER + text[29..] == MARKER + text[29..];
  }

  /**
   The size the search looks at can fall when the cut grows: the marker is cheaper than the escaped quotes it replaces.
   */
  lemma SizeIsNotMonotone(payload: seq<Member>, field: string)
    ensures |Truncated(payload, field, Quotes(30), |MARKER|)| > |Truncated(payload, field, Quotes(30), |MARKER| + 1)|
  {
    ExcerptsOfQuotes();
    CutNeverShorter(Flagged(payload, field, Quotes(30)), field, Quotes(30), |MARKER|);
    CutNeverShorter(Flagged(payload, field, Quotes(30)), field, Quotes(30), |MARKER| + 1);
    QuotesEscape(|MARKER|);
    QuotesEscape(1);
    MarkerCost();
    ExpandConcat(EscapeChar, MARKER, Quotes(1));
  }

  lemma {:induction false} EscapePlain(s: string)
    requires forall i | 0 <= i < |s| :: EscapeChar(s[i]) == [s[i]]
    ensures |Escape(s)| == |s|
  {
    if s != "" {
      EscapePlain(s[1..]);
    }
  }
}
