/** Shared value types. */
module Common {

  /** A value that may be missing: a null pointer, an unreadable file. */
  datatype Option<+T> = None | Some(value: T)

  /** The integers lo, lo + 1, .. hi - 1, in order: a counting for-loop as a value. */
  function Span(lo: int, hi: int): (r: seq<int>)
    ensures |r| == if hi <= lo then 0 else hi - lo
    ensures forall i :: 0 <= i < |r| ==> r[i] == lo + i
    decreases hi - lo
  {
    if hi <= lo then [] else Span(lo, hi - 1) + [hi - 1]
  }

  /** A non-empty sequence is its front and its last element. */
  lemma SplitLast<T>(s: seq<T>)
    requires s != []
    ensures s == s[..|s| - 1] + [s[|s| - 1]]
  {
  }

  lemma AddNothing<T>(s: seq<T>)
    ensures [] + s == s && s + [] == s
  {
  }

  lemma AddAssociates<T>(a: seq<T>, b: seq<T>, c: seq<T>)
    ensures a + (b + c) == (a + b) + c
  {
  }

  lemma TailOfSum<T>(a: seq<T>, b: seq<T>)
    requires a != []
    ensures (a + b)[0] == a[0] && (a + b)[1..] == a[1..] + b
  {
  }
}
