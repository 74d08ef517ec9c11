/** Trimming text at both ends the way `str.strip` does. */
module Trimming {
  predicate IsSpace(c: char) {
    || '\t' <= c <= '\r' || '\U{001C}' <= c <= ' ' || c == '\U{0085}' || c == '\U{00A0}' || c == '\U{1680}'
    || '\U{2000}' <= c <= '\U{200A}' || c == '\U{2028}' || c == '\U{2029}' || c == '\U{202F}' || c == '\U{205F}'
      || c == '\U{3000}'
  }

  function StripLeft(s: string): string {
    if s != "" && IsSpace(s[0]) then StripLeft(s[1..]) else s
  }

  function StripRight(s: string): string {
    if s != "" && IsSpace(s[|s| - 1]) then StripRight(s[..|s| - 1]) else s
  }

  /** `str.strip`. */
  function Strip(s: string): string {
    StripRight(StripLeft(s))
  }

  lemma {:induction false} StripRightKeepsLeft(s: string)
    requires s == "" || !IsSpace(s[0])
    ensures StripRight(s) == "" || (!IsSpace(StripRight(s)[0]) && !IsSpace(StripRight(s)[|StripRight(s)| - 1]))
  {
    hide IsSpace;
    if s != "" && IsSpace(s[|s| - 1]) {
      StripRightKeepsLeft(s[..|s| - 1]);
    }
  }

  lemma {:induction false} StripLeftStops(s: string)
    ensures StripLeft(s) == "" || !IsSpace(StripLeft(s)[0])
  {
    hide IsSpace;
    if s != "" && IsSpace(s[0]) {
      StripLeftStops(s[1..]);
    }
  }

  lemma {:induction false} StripLeftParts(s: string) returns (front: string)
    ensures s == front + StripLeft(s) && forall i | 0 <= i < |front| :: IsSpace(front[i])
  {
    hide IsSpace;
    if s != "" && IsSpace(s[0]) {
      var rest := StripLeftParts(s[1..]);
      front := [s[0]] + rest;
      assert s == [s[0]] + s[1..];
    } else {
      front := "";
    }
  }

  lemma {:induction false} StripRightParts(s: string) returns (back: string)
    ensures s == StripRight(s) + back && forall i | 0 <= i < |back| :: IsSpace(back[i])
  {
    hide IsSpace;
    if s != "" && IsSpace(s[|s| - 1]) {
      var rest := StripRightParts(s[..|s| - 1]);
      back := rest + [s[|s| - 1]];
      assert s == s[..|s| - 1] + [s[|s| - 1]];
    } else {
      back := "";
    }
  }

  /** What is cut off is blank at both ends, and what is left begins and ends with something else, or is nothing. */
  lemma StripExactly(s: string) returns (front: string, back: string)
    ensures s == front + Strip(s) + back
    ensures forall i | 0 <= i < |front| :: IsSpace(front[i])
    ensures forall i | 0 <= i < |back| :: IsSpace(back[i])
    ensures Strip(s) == "" || (!IsSpace(Strip(s)[0]) && !IsSpace(Strip(s)[|Strip(s)| - 1]))
  {
    front := StripLeftParts(s);
    back := StripRightParts(StripLeft(s));
    StripLeftStops(s);
    StripRightKeepsLeft(StripLeft(s));
    assert s == front + (Strip(s) + back);
  }

  /** Trimming twice is trimming once. */
  lemma StripTwice(s: string)
    ensures Strip(Strip(s)) == Strip(s)
  {
    StripLeftStops(s);
    StripRightKeepsLeft(StripLeft(s));
  }
}
