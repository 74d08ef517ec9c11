/**
 JSON values and the compact text that `json.dumps(sort_keys=True, ensure_ascii=False)`
 writes for them. Objects list their members in key order, so equal values have equal texts.
 Floating-point numbers do not occur in this model.
 */
module JsonText {
  import opened Common

  datatype Json =
    | Null
    | Bool(b: bool)
    | Num(n: int)
    | Str(s: string)
    | Arr(items: seq<Json>)
    | Obj(members: seq<Member>)

  datatype Member = Member(key: string, val: Json)

  /** Code-point order, the order of Python strings. */
  predicate StrLess(a: string, b: string) {
    if b == "" then false
    else if a == "" then true
    else if a[0] != b[0] then a[0] < b[0]
    else StrLess(a[1..], b[1..])
  }

  lemma {:induction false} StrLessStrict(a: string, b: string)
    ensures !(StrLess(a, b) && StrLess(b, a))
    ensures a != b ==> StrLess(a, b) || StrLess(b, a)
  {
    if a != "" && b != "" && a[0] == b[0] {
      StrLessStrict(a[1..], b[1..]);
      assert a == [a[0]] + a[1..] && b == [b[0]] + b[1..];
    }
  }

  lemma {:induction false} StrLessTransitive(a: string, b: string, c: string)
    requires StrLess(a, b) && StrLess(b, c)
    ensures StrLess(a, c)
  {
    if a != "" && a[0] == b[0] == c[0] {
      StrLessTransitive(a[1..], b[1..], c[1..]);
    }
  }

  /** Text order: by the first character in which they differ, a prefix before what it is a prefix of. */
  lemma {:induction false} StrLessExactly(a: string, b: string)
    ensures StrLess(a, b) <==> exists n: nat :: FirstDifference(a, b, n)
  {
    if b == "" {
    } else if a == "" {
      assert FirstDifference(a, b, 0);
    } else if a[0] != b[0] {
      if a[0] < b[0] {
        assert FirstDifference(a, b, 0);
      }
      if n: nat :| FirstDifference(a, b, n) {
        FirstSame(a, b, n);
      }
    } else {
      StrLessExactly(a[1..], b[1..]);
      if n: nat :| FirstDifference(a[1..], b[1..], n) {
        assert a[..n + 1] == [a[0]] + a[1..][..n] && b[..n + 1] == [b[0]] + b[1..][..n];
        assert FirstDifference(a, b, n + 1);
      }
      if n: nat :| FirstDifference(a, b, n) {
        assert n > 0;
        assert a[1..][..n - 1] == a[..n][1..] && b[1..][..n - 1] == b[..n][1..];
        assert FirstDifference(a[1..], b[1..], n - 1);
      }
    }
  }

  lemma FirstSame(a: string, b: string, n: nat)
    requires FirstDifference(a, b, n)
    ensures n > 0 ==> a[0] == b[0]
  {
    if n > 0 {
      assert a[0] == a[..n][0] && b[0] == b[..n][0];
    }
  }

  predicate FirstDifference(a: string, b: string, n: nat) {
    n <= |a| && n < |b| && a[..n] == b[..n] && (n == |a| || a[n] < b[n])
  }

  /** What a decoded document can be: in every object the keys are distinct, and listed in order. */
  predicate Canonical(j: Json)
    decreases j, 1
  {
    match j
    case Arr(items) => CanonicalItems(items)
    case Obj(members) => Dictionary(members)
    case _ => true
  }

  predicate CanonicalItems(items: seq<Json>)
    decreases items, 0
  {
    items == [] || (Canonical(items[0]) && CanonicalItems(items[1..]))
  }

  predicate Dictionary(ms: seq<Member>)
    decreases ms, 0
  {
    ms == [] ||
    (&& Canonical(ms[0].val) && Dictionary(ms[1..])
     && (|ms| > 1 ==> StrLess(ms[0].key, ms[1].key)))
  }

  function Get(ms: seq<Member>, k: string): Option<Json> {
    if ms == [] then None
    else if ms[0].key == k then Some(ms[0].val)
    else Get(ms[1..], k)
  }

  /** `dict[k] = v`, keeping key order. */
  function Put(ms: seq<Member>, k: string, v: Json): seq<Member> {
    if ms == [] then [Member(k, v)]
    else if ms[0].key == k then [Member(k, v)] + ms[1..]
    else if StrLess(k, ms[0].key) then [Member(k, v)] + ms
    else [ms[0]] + Put(ms[1..], k, v)
  }

  lemma {:induction false} GetPut(ms: seq<Member>, k: string, v: Json, other: string)
    ensures Get(Put(ms, k, v), other) == if other == k then Some(v) else Get(ms, other)
  {
    if ms != [] && ms[0].key != k && !StrLess(k, ms[0].key) {
      GetPut(ms[1..], k, v, other);
      assert Put(ms, k, v)[1..] == Put(ms[1..], k, v);
    } else if ms != [] && ms[0].key == k {
      assert Put(ms, k, v)[1..] == ms[1..];
    } else {
      assert Put(ms, k, v)[1..] == ms;
    }
  }

  /** Setting an entry changes this entry alone. */
  lemma PutReads(ms: seq<Member>, k: string, v: Json)
    ensures forall other :: Get(Put(ms, k, v), other) == if other == k then Some(v) else Get(ms, other)
  {
    forall other ensures Get(Put(ms, k, v), other) == if other == k then Some(v) else Get(ms, other) {
      GetPut(ms, k, v, other);
    }
  }


  /** Setting an entry of a dictionary leaves a dictionary. */
  lemma {:induction false} PutDictionary(ms: seq<Member>, k: string, v: Json)
    requires Dictionary(ms) && Canonical(v)
    ensures Dictionary(Put(ms, k, v)) && Put(ms, k, v) != []
    ensures Put(ms, k, v)[0].key == k || (ms != [] && Put(ms, k, v)[0].key == ms[0].key)
  {
    hide Canonical, StrLess;
    if ms == [] {
      assert Put(ms, k, v)[1..] == [];
    } else if ms[0].key == k {
      assert Put(ms, k, v)[1..] == ms[1..];
      assert |ms| > 1 ==> Put(ms, k, v)[1] == ms[1];
    } else if StrLess(k, ms[0].key) {
      assert Put(ms, k, v)[1..] == ms;
    } else {
      PutDictionary(ms[1..], k, v);
      StrLessStrict(k, ms[0].key);
      assert Put(ms, k, v)[1..] == Put(ms[1..], k, v);
    }
  }

  lemma {:induction false} PutTwice(ms: seq<Member>, k: string, v: Json, w: Json)
    ensures Put(Put(ms, k, v), k, w) == Put(ms, k, w)
  {
    if ms != [] && ms[0].key != k && !StrLess(k, ms[0].key) {
      PutTwice(ms[1..], k, v, w);
      assert Put(ms, k, v)[1..] == Put(ms[1..], k, v);
    }
  }

  function Digit(d: nat): char
    requires d < 16
  {
    "0123456789abcdef"[d]
  }

  function NatText(n: nat): (t: string)
    ensures t != ""
    ensures forall i | 0 <= i < |t| :: '0' <= t[i] <= '9'
  {
    (if n < 10 then [] else NatText(n / 10)) + [Digit(n % 10)]
  }

  function IntText(n: int): string {
    if n < 0 then "-" + NatText(-n) else NatText(n)
  }

  /** Only the quotation mark, the reverse solidus and the control characters below U+0020 are escaped. */
  function EscapeChar(c: char): string {
    if c == '"' then "\\\""
    else if c == '\\' then "\\\\"
    else if c == '\n' then "\\n"
    else if c == '\r' then "\\r"
    else if c == '\t' then "\\t"
    else if c == '\U{000C}' then "\\f"
    else if c == '\U{0008}' then "\\b"
    else if c < ' ' then "\\u00" + [Digit(c as nat / 16), Digit(c as nat % 16)]
    else [c]
  }

  function Escape(s: string): string {
    Expand(EscapeChar, s)
  }

  function Quote(s: string): string {
    "\"" + Escape(s) + "\""
  }

  function Dumps(j: Json): string
    decreases j, 1
  {
    match j
    case Null => "null"
    case Bool(b) => if b then "true" else "false"
    case Num(n) => IntText(n)
    case Str(s) => Quote(s)
    case Arr(items) => "[" + DumpsItems(items) + "]"
    case Obj(members) => "{" + DumpsMembers(members) + "}"
  }

  function DumpsItems(items: seq<Json>): string
    decreases items, 0
  {
    if items == [] then ""
    else Dumps(items[0]) + (if |items| == 1 then "" else "," + DumpsItems(items[1..]))
  }

  function DumpsMembers(ms: seq<Member>): string
    decreases ms, 0
  {
    if ms == [] then ""
    else Quote(ms[0].key) + ":" + Dumps(ms[0].val) + (if |ms| == 1 then "" else "," + DumpsMembers(ms[1..]))
  }

  /** Writing a string member costs the escaped text on top of what the empty string costs. */
  lemma {:induction false} PutTextLength(ms: seq<Member>, k: string, t: string)
    ensures |DumpsMembers(Put(ms, k, Str(t)))| == |DumpsMembers(Put(ms, k, Str("")))| + |Escape(t)|
  {
    var a, b := Put(ms, k, Str(t)), Put(ms, k, Str(""));
    if ms != [] && ms[0].key != k && !StrLess(k, ms[0].key) {
      PutTextLength(ms[1..], k, t);
      assert a[1..] == Put(ms[1..], k, Str(t)) && b[1..] == Put(ms[1..], k, Str(""));
      assert |Put(ms[1..], k, Str(t))| == |Put(ms[1..], k, Str(""))| by { PutLength(ms[1..], k, Str(t), Str("")); }
      assert |Put(ms[1..], k, Str(t))| > 0;
    } else {
      assert a[1..] == b[1..];
    }
  }

  lemma {:induction false} PutLength(ms: seq<Member>, k: string, v: Json, w: Json)
    ensures |Put(ms, k, v)| == |Put(ms, k, w)| > 0
  {
    if ms != [] && ms[0].key != k && !StrLess(k, ms[0].key) {
      PutLength(ms[1..], k, v, w);
    }
  }
}
