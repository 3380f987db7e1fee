/** A value that may be missing, and sequences cut at an end mark. */
module Wrappers {

  datatype Option<+T> = None | Some(value: T)

  /** What comes before the first `end`, as C reads a string up to its NUL. */
  function Upto<T(==)>(s: seq<T>, end: T): (r: seq<T>)
    ensures r <= s && end !in r
  {
    if s == [] || s[0] == end then [] else [s[0]] + Upto(s[1..], end)
  }

  lemma {:induction false} UptoWhole<T>(s: seq<T>, end: T)
    requires end !in s
    ensures Upto(s, end) == s
  {
    if s != [] {
      UptoWhole(s[1..], end);
      assert s == [s[0]] + s[1..];
    }
  }
}
