/**
 Canonical JSON text and UTF-8 bytes can be read in one way only: equal bytes come from equal values. This is what the
 hash of a record rests on, and what makes a faithful codec possible.
 */
module JsonDecoding {
  import opened Common
  import opened JsonText
  import opened Ledger
  import opened LedgerFile

  // ---------------------------------------------------------------- numbers

  predicate Digits(s: string) {
    forall i | 0 <= i < |s| :: '0' <= s[i] <= '9'
  }

  /** Nothing that could be part of a number comes next. */
  predicate Ended(rest: string) {
    rest == "" || !('0' <= rest[0] <= '9')
  }

  lemma DigitsUnique(s: string, t: string, x: string, y: string)
    requires Digits(s) && Digits(t) && Ended(x) && Ended(y) && s + x == t + y
    ensures s == t && x == y
  {
    var all := s + x;
    assert s == all[..|s|] && t == (t + y)[..|t|];
    assert x == all[|s|..] && y == (t + y)[|t|..];
  }

  function Value(s: string): nat {
    if s == "" then 0 else
    10 * Value(s[..|s| - 1]) + if s[|s| - 1] < '0' then 0 else s[|s| - 1] as int - '0' as int
  }

  lemma DigitValue(d: nat)
    requires d < 10
    ensures Digit(d) as int == '0' as int + d
  {}

  lemma {:induction false} NatValue(n: nat)
    ensures Value(NatText(n)) == n
  {
    DigitValue(n % 10);
    var front := if n < 10 then "" else NatText(n / 10);
    assert NatText(n) == front + [Digit(n % 10)];
    assert NatText(n)[..|NatText(n)| - 1] == front;
    if n >= 10 {
      NatValue(n / 10);
    }
  }

  lemma NatUnique(n: nat, m: nat, x: string, y: string)
    requires Ended(x) && Ended(y) && NatText(n) + x == NatText(m) + y
    ensures n == m && x == y
  {
    hide NatText;
    NatValue(n);
    NatValue(m);
    DigitsUnique(NatText(n), NatText(m), x, y);
  }

  lemma FirstOfInt(n: int)
    ensures IntText(n) != "" && (n < 0 <==> IntText(n)[0] == '-')
    ensures n < 0 ==> IntText(n)[1..] == NatText(-n)
    ensures n >= 0 ==> IntText(n) == NatText(n)
  {
    hide NatText;
  }

  lemma IntUnique(n: int, m: int, x: string, y: string)
    requires Ended(x) && Ended(y) && IntText(n) + x == IntText(m) + y
    ensures n == m && x == y
  {
    hide NatText, IntText;
    FirstOfInt(n);
    FirstOfInt(m);
    var s, t := IntText(n) + x, IntText(m) + y;
    assert s[0] == IntText(n)[0] && t[0] == IntText(m)[0];
    if n < 0 {
      assert s[1..] == NatText(-n) + x && t[1..] == NatText(-m) + y;
      NatUnique(-n, -m, x, y);
    } else {
      NatUnique(n, m, x, y);
    }
  }

  // ---------------------------------------------------------------- strings

  /** What tells the escapes apart: the second character, and for control characters the last two. */
  lemma EscapesDiffer(c: char, d: char, x: string, y: string)
    requires EscapeChar(c) + x == EscapeChar(d) + y
    ensures c == d && x == y
  {
    var s, t := EscapeChar(c) + x, EscapeChar(d) + y;
    assert s[0] == EscapeChar(c)[0] && t[0] == EscapeChar(d)[0];
    if s[0] == '\\' {
      assert s[1] == EscapeChar(c)[1] && t[1] == EscapeChar(d)[1];
      if s[1] == 'u' {
        assert s[4] == Digit(c as nat / 16) && t[4] == Digit(d as nat / 16);
        assert s[5] == Digit(c as nat % 16) && t[5] == Digit(d as nat % 16);
        HexUnique(c as nat / 16, d as nat / 16);
        HexUnique(c as nat % 16, d as nat % 16);
      }
    }
    assert c == d;
    assert x == s[|EscapeChar(c)|..] && y == t[|EscapeChar(d)|..];
  }

  lemma HexUnique(a: nat, b: nat)
    requires a < 16 && b < 16 && Digit(a) == Digit(b)
    ensures a == b
  {}

  lemma EscapeStarts(c: char)
    ensures EscapeChar(c) != "" && EscapeChar(c)[0] != '"'
  {}

  lemma {:induction false} EscapeUnique(s: string, t: string, x: string, y: string)
    requires Escape(s) + "\"" + x == Escape(t) + "\"" + y
    ensures s == t && x == y
  {
    hide EscapeChar;
    var a, b := Escape(s) + "\"" + x, Escape(t) + "\"" + y;
    if s != "" {
      EscapeStarts(s[0]);
      assert a == EscapeChar(s[0]) + (Escape(s[1..]) + "\"" + x);
    } else {
      assert a == "\"" + x;
    }
    if t != "" {
      EscapeStarts(t[0]);
      assert b == EscapeChar(t[0]) + (Escape(t[1..]) + "\"" + y);
    } else {
      assert b == "\"" + y;
    }
    assert a[0] == b[0];
    if s != "" && t != "" {
      EscapesDiffer(s[0], t[0], Escape(s[1..]) + "\"" + x, Escape(t[1..]) + "\"" + y);
      EscapeUnique(s[1..], t[1..], x, y);
    } else if s == "" && t == "" {
      assert x == a[1..] && y == b[1..];
    }
  }

  lemma QuoteUnique(s: string, t: string, x: string, y: string)
    requires Quote(s) + x == Quote(t) + y
    ensures s == t && x == y
  {
    assert (Quote(s) + x)[1..] == Escape(s) + "\"" + x && (Quote(t) + y)[1..] == Escape(t) + "\"" + y;
    EscapeUnique(s, t, x, y);
  }

  // ---------------------------------------------------------------- values

  /** What a text that begins with this character can be. */
  function Kind(c: char): nat {
    if c == 'n' then 0
    else if c == 't' || c == 'f' then 1
    else if c == '-' || '0' <= c <= '9' then 2
    else if c == '"' then 3
    else if c == '[' then 4
    else if c == '{' then 5
    else 6
  }

  function KindOf(j: Json): nat {
    match j
    case Null => 0
    case Bool(_) => 1
    case Num(_) => 2
    case Str(_) => 3
    case Arr(_) => 4
    case Obj(_) => 5
  }

  lemma FirstSays(j: Json)
    ensures Dumps(j) != "" && Kind(Dumps(j)[0]) == KindOf(j)
  {
    hide DumpsItems, DumpsMembers, Escape, NatText;
  }

  /** A number has to be followed by something that ends it; every other value ends itself. */
  predicate Separable(j: Json, rest: string) {
    j.Num? ==> Ended(rest)
  }

  /** Two texts that begin with canonical values and are equal begin with the same value. */
  lemma {:induction false} DumpsUnique(a: Json, b: Json, x: string, y: string)
    requires Separable(a, x) && Separable(b, y) && Dumps(a) + x == Dumps(b) + y
    ensures a == b && x == y
    decreases a, 1
  {
    hide NatText, IntText, Quote, DumpsItems, DumpsMembers;
    FirstSays(a);
    FirstSays(b);
    var s, t := Dumps(a) + x, Dumps(b) + y;
    assert s[0] == Dumps(a)[0] && t[0] == Dumps(b)[0];
    match a {
      case Null =>
        assert x == s[4..] && y == t[4..];
      case Bool(c) =>
        BoolUnique(c, b.b, x, y);
      case Num(n) =>
        IntUnique(n, b.n, x, y);
      case Str(c) =>
        QuoteUnique(c, b.s, x, y);
      case Arr(items) =>
        assert s[1..] == DumpsItems(items) + "]" + x && t[1..] == DumpsItems(b.items) + "]" + y;
        ItemsUnique(items, b.items, x, y);
      case Obj(members) =>
        assert s[1..] == DumpsMembers(members) + "}" + x && t[1..] == DumpsMembers(b.members) + "}" + y;
        MembersUnique(members, b.members, x, y);
    }
  }

  lemma BoolUnique(c: bool, d: bool, x: string, y: string)
    requires Dumps(Bool(c)) + x == Dumps(Bool(d)) + y
    ensures c == d && x == y
  {
    var s, t := Dumps(Bool(c)) + x, Dumps(Bool(d)) + y;
    assert s[0] == if c then 't' else 'f';
    assert t[0] == if d then 't' else 'f';
    assert x == s[if c then 4 else 5..] && y == t[if d then 4 else 5..];
  }

  /** What follows the first item: the end, or a comma and the rest. */
  function AfterItem(items: seq<Json>, x: string): string
    requires items != []
  {
    if |items| == 1 then "]" + x else "," + (DumpsItems(items[1..]) + "]" + x)
  }

  lemma ItemsJoin(items: seq<Json>, x: string)
    requires items != []
    ensures DumpsItems(items) + "]" + x == Dumps(items[0]) + AfterItem(items, x)
  {
    hide Dumps;
    var first := Dumps(items[0]);
    if |items| == 1 {
      assert DumpsItems(items) == first + "";
      assert first + "" == first;
      Assoc(first, "]", x);
    } else {
      var rest := DumpsItems(items[1..]);
      assert DumpsItems(items) == first + ("," + rest);
      Assoc(first + ("," + rest), "]", x);
      Assoc(first, "," + rest, "]" + x);
      Assoc(",", rest, "]" + x);
      Assoc(rest, "]", x);
    }
  }

  lemma ItemsStart(items: seq<Json>, x: string)
    requires items != []
    ensures Kind((Dumps(items[0]) + AfterItem(items, x))[0]) < 6 && Separable(items[0], AfterItem(items, x))
  {
    hide Dumps, DumpsItems, Kind;
    FirstSays(items[0]);
    var first, rest := Dumps(items[0]), AfterItem(items, x);
    assert (first + rest)[0] == first[0];
  }

  lemma NoItems(x: string)
    ensures DumpsItems([]) + "]" + x == "]" + x
  {
    assert DumpsItems([]) == "";
    assert "" + "]" == "]";
  }

  lemma ItemsText(items: seq<Json>, x: string)
    ensures items == [] ==> DumpsItems(items) + "]" + x == "]" + x
    ensures items != [] ==> DumpsItems(items) + "]" + x == Dumps(items[0]) + AfterItem(items, x)
    ensures items != [] ==> Kind((DumpsItems(items) + "]" + x)[0]) < 6 && Separable(items[0], AfterItem(items, x))
  {
    hide Dumps, DumpsItems, Kind, AfterItem, Separable;
    if items == [] {
      NoItems(x);
    } else {
      ItemsJoin(items, x);
      ItemsStart(items, x);
    }
  }

  lemma {:induction false} ItemsUnique(a: seq<Json>, b: seq<Json>, x: string, y: string)
    requires DumpsItems(a) + "]" + x == DumpsItems(b) + "]" + y
    ensures a == b && x == y
    decreases a, 0
  {
    hide Dumps, DumpsItems;
    ItemsText(a, x);
    ItemsText(b, y);
    var s, t := DumpsItems(a) + "]" + x, DumpsItems(b) + "]" + y;
    assert a == [] ==> s[0] == ']';
    assert b == [] ==> t[0] == ']';
    if a == [] {
      assert x == s[1..] && y == t[1..];
    } else {
      DumpsUnique(a[0], b[0], AfterItem(a, x), AfterItem(b, y));
      assert |a| == 1 <==> AfterItem(a, x)[0] == ']';
      assert |b| == 1 <==> AfterItem(b, y)[0] == ']';
      assert a == [a[0]] + a[1..] && b == [b[0]] + b[1..];
      if |a| == 1 {
        assert x == AfterItem(a, x)[1..] && y == AfterItem(b, y)[1..];
      } else {
        assert AfterItem(a, x)[1..] == DumpsItems(a[1..]) + "]" + x;
        assert AfterItem(b, y)[1..] == DumpsItems(b[1..]) + "]" + y;
        ItemsUnique(a[1..], b[1..], x, y);
      }
    }
  }

  function AfterMember(ms: seq<Member>, x: string): string
    requires ms != []
  {
    if |ms| == 1 then "}" + x else "," + (DumpsMembers(ms[1..]) + "}" + x)
  }

  lemma Regroup(a: string, b: string, c: string, d: string, e: string)
    ensures a + b + c + d + e == a + (b + (c + (d + e)))
  {
    Assoc(a, b, c);
    Assoc(a, b + c, d);
    Assoc(b, c, d);
    Assoc(a, b + (c + d), e);
    Assoc(b, c + d, e);
    Assoc(c, d, e);
  }

  lemma MembersJoin(ms: seq<Member>, x: string)
    requires ms != []
    ensures DumpsMembers(ms) + "}" + x == Quote(ms[0].key) + (":" + (Dumps(ms[0].val) + AfterMember(ms, x)))
  {
    hide Dumps, Quote;
    var key, val := Quote(ms[0].key), Dumps(ms[0].val);
    if |ms| == 1 {
      assert DumpsMembers(ms) == key + ":" + val + "" == key + ":" + val;
      Regroup(key, ":", val, "}", x);
    } else {
      var rest := DumpsMembers(ms[1..]);
      assert DumpsMembers(ms) == key + ":" + val + ("," + rest);
      Regroup(key, ":", val, "," + rest, "}" + x);
      Assoc(key + ":" + val + ("," + rest), "}", x);
      Assoc(",", rest, "}" + x);
      Assoc(rest, "}", x);
    }
  }

  lemma MembersText(ms: seq<Member>, x: string)
    ensures ms == [] ==> DumpsMembers(ms) + "}" + x == "}" + x
    ensures ms != [] ==>
      DumpsMembers(ms) + "}" + x == Quote(ms[0].key) + (":" + (Dumps(ms[0].val) + AfterMember(ms, x)))
    ensures ms != [] ==> (DumpsMembers(ms) + "}" + x)[0] == '"' && Separable(ms[0].val, AfterMember(ms, x))
  {
    hide Dumps, DumpsMembers, Escape;
    if ms == [] {
      assert DumpsMembers(ms) == "" by { NoMembers(); }
      assert "" + "}" == "}";
    } else {
      MembersJoin(ms, x);
    }
  }

  lemma NoMembers()
    ensures DumpsMembers([]) == ""
  {}

  lemma {:induction false} MembersUnique(a: seq<Member>, b: seq<Member>, x: string, y: string)
    requires DumpsMembers(a) + "}" + x == DumpsMembers(b) + "}" + y
    ensures a == b && x == y
    decreases a, 0
  {
    hide Dumps, DumpsMembers, Quote;
    MembersText(a, x);
    MembersText(b, y);
    var s, t := DumpsMembers(a) + "}" + x, DumpsMembers(b) + "}" + y;
    assert a == [] ==> s[0] == '}';
    assert b == [] ==> t[0] == '}';
    if a == [] {
      assert x == s[1..] && y == t[1..];
    } else {
      var u, v := Dumps(a[0].val) + AfterMember(a, x), Dumps(b[0].val) + AfterMember(b, y);
      QuoteUnique(a[0].key, b[0].key, ":" + u, ":" + v);
      assert u == (":" + u)[1..] && v == (":" + v)[1..];
      DumpsUnique(a[0].val, b[0].val, AfterMember(a, x), AfterMember(b, y));
      assert |a| == 1 <==> AfterMember(a, x)[0] == '}';
      assert |b| == 1 <==> AfterMember(b, y)[0] == '}';
      assert a == [a[0]] + a[1..] && b == [b[0]] + b[1..];
      if |a| == 1 {
        assert x == AfterMember(a, x)[1..] && y == AfterMember(b, y)[1..];
      } else {
        assert AfterMember(a, x)[1..] == DumpsMembers(a[1..]) + "}" + x;
        assert AfterMember(b, y)[1..] == DumpsMembers(b[1..]) + "}" + y;
        MembersUnique(a[1..], b[1..], x, y);
      }
    }
  }

  /** Equal canonical texts come from equal values. */
  lemma SameText(a: Json, b: Json)
    requires Dumps(a) == Dumps(b)
    ensures a == b
  {
    hide Dumps;
    assert Dumps(a) + "" == Dumps(a) && Dumps(b) + "" == Dumps(b);
    DumpsUnique(a, b, "", "");
  }

  // ---------------------------------------------------------------- records

  /** Two texts that begin with records and are equal begin with the same record. */
  lemma RecordUnique(q: Record, r: Record, x: string, y: string)
    requires RecordText(q) + x == RecordText(r) + y
    ensures q == r && x == y
  {
    hide Dumps, RecordMembers;
    DumpsUnique(Obj(RecordMembers(q)), Obj(RecordMembers(r)), x, y);
    MembersTell(q, r);
  }

  lemma MembersTell(q: Record, r: Record)
    requires RecordMembers(q) == RecordMembers(r)
    ensures q == r
  {
    var a, b := RecordMembers(q), RecordMembers(r);
    assert a[0] == b[0] && a[1] == b[1] && a[2] == b[2] && a[3] == b[3] && a[4] == b[4] && a[5] == b[5];
    assert a[6] == b[6] && a[7] == b[7] && a[8] == b[8] && a[9] == b[9] && a[10] == b[10] && a[11] == b[11];
    assert a[12] == b[12] && a[13] == b[13] && a[15] == b[15] && a[16] == b[16] && a[17] == b[17];
  }

  // ---------------------------------------------------------------- bytes

  function Width(b: Byte): nat {
    if b < 0x80 then 1 else if b < 0xE0 then 2 else if b < 0xF0 then 3 else 4
  }

  /** The code point of the character that these bytes encode. */
  function Point(b: seq<Byte>): int {
    if |b| == 1 then b[0] as int
    else if |b| == 2 then 64 * (b[0] as int - 0xC0) + b[1] as int - 0x80
    else if |b| == 3 then 64 * (64 * (b[0] as int - 0xE0) + b[1] as int - 0x80) + b[2] as int - 0x80
    else if |b| == 4 then
      64 * (64 * (64 * (b[0] as int - 0xF0) + b[1] as int - 0x80) + b[2] as int - 0x80) + b[3] as int - 0x80
    else 0
  }

  lemma Quotients(n: nat)
    ensures n / 4096 == n / 64 / 64 && n / 262144 == n / 64 / 64 / 64
  {}

  lemma PointIs(c: char)
    ensures Point(Utf8Char(c)) == c as int && |Utf8Char(c)| == Width(Utf8Char(c)[0])
  {
    Quotients(c as int);
  }

  lemma CharUnique(c: char, d: char, x: seq<Byte>, y: seq<Byte>)
    requires Utf8Char(c) + x == Utf8Char(d) + y
    ensures c == d && x == y
  {
    hide Utf8Char, Point;
    PointIs(c);
    PointIs(d);
    var s, t := Utf8Char(c) + x, Utf8Char(d) + y;
    assert s[0] == Utf8Char(c)[0] && t[0] == Utf8Char(d)[0];
    assert Utf8Char(c) == s[..|Utf8Char(c)|] && Utf8Char(d) == t[..|Utf8Char(d)|];
    assert x == s[|Utf8Char(c)|..] && y == t[|Utf8Char(d)|..];
  }

  /** Different texts have different bytes. */
  lemma {:induction false} Utf8Unique(s: string, t: string)
    requires Utf8(s) == Utf8(t)
    ensures s == t
  {
    hide Utf8Char;
    if s != "" && t != "" {
      CharUnique(s[0], t[0], Utf8(s[1..]), Utf8(t[1..]));
      Utf8Unique(s[1..], t[1..]);
    }
  }

  // ---------------------------------------------------------------- a faithful codec

  ghost function Decoded(b: seq<Byte>): Option<string> {
    if exists t :: b == Utf8(t) then
      var t :| b == Utf8(t);
      Some(t)
    else None
  }

  ghost function Loaded(s: string): Line {
    if exists r: Record :: s == RecordText(r) then
      var r: Record :| s == RecordText(r);
      Row(r)
    else Malformed
  }

  /** What the ledger's reading relies on can be had. */
  lemma FaithfulCodec() returns (codec: Codec)
    ensures Faithful(codec)
  {
    hide Utf8, RecordText;
    codec := Codec(b => Decoded(b), s => Loaded(s));
    forall b, t ensures codec.utf8(b) == Some(t) <==> b == Utf8(t) {
      if b == Utf8(t) {
        Utf8Unique(t, Decoded(b).value);
      }
    }
    forall r: Record ensures codec.loads(RecordText(r)) == Row(r) {
      LoadsBack(r);
    }
    forall r: Record, n | 0 <= n < |RecordText(r)| ensures codec.loads(RecordText(r)[..n]).Malformed? {
      NoPrefix(r, n);
    }
  }

  lemma LoadsBack(r: Record)
    ensures Loaded(RecordText(r)) == Row(r)
  {
    hide RecordText;
    forall q: Record | RecordText(r) == RecordText(q) ensures q == r {
      assert RecordText(q) + "" == RecordText(q) && RecordText(r) + "" == RecordText(r);
      RecordUnique(q, r, "", "");
    }
  }

  lemma NoPrefix(r: Record, n: nat)
    requires n < |RecordText(r)|
    ensures Loaded(RecordText(r)[..n]).Malformed?
  {
    hide RecordText;
    var text := RecordText(r);
    if q: Record :| text[..n] == RecordText(q) {
      assert text[..n] + text[n..] == text + "";
      RecordUnique(q, r, text[n..], "");
      assert false;
    }
  }
}
