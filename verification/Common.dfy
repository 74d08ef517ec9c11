/** Result types and the one sequence law shared by every module. */
module Common {
  datatype Option<+T> = None | Some(value: T)

  datatype Result<+T, +E> = Ok(value: T) | Err(error: E)

  lemma Assoc<T>(a: seq<T>, b: seq<T>, c: seq<T>)
    ensures a + (b + c) == (a + b) + c
  {}

  /** The concatenation of the images of a text's characters. */
  function Expand<T>(f: char -> seq<T>, s: string): seq<T> {
    if s == "" then [] else f(s[0]) + Expand(f, s[1..])
  }

  lemma {:induction false} ExpandConcat<T>(f: char -> seq<T>, a: string, b: string)
    ensures Expand(f, a + b) == Expand(f, a) + Expand(f, b)
  {
    if a == "" {
      assert a + b == b;
    } else {
      ExpandConcat(f, a[1..], b);
      assert (a + b)[1..] == a[1..] + b && (a + b)[0] == a[0];
      Assoc(f(a[0]), Expand(f, a[1..]), Expand(f, b));
    }
  }
}
