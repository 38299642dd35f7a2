/** Sorting a sequence by a caller-supplied comparison, as Python's `sorted` and SQL's
    `ORDER BY` do: the result is a permutation of the input in which each element is
    `le`-related to the next. */
module Sorting {

  /** Every two values are comparable one way or the other. */
  ghost predicate Total<T(!new)>(le: (T, T) -> bool)
  {
    forall a, b :: le(a, b) || le(b, a)
  }

  /** Each element is `le`-related to its successor. */
  predicate Sorted<T>(le: (T, T) -> bool, s: seq<T>)
  {
    forall i :: 0 < i < |s| ==> le(s[i - 1], s[i])
  }

  /** Inserts `x` before the first element it is `le`-related to. */
  function Insert<T(!new)>(le: (T, T) -> bool, x: T, s: seq<T>): (r: seq<T>)
    requires Total(le)
    requires Sorted(le, s)
    ensures multiset(r) == multiset(s) + multiset{x}
    ensures Sorted(le, r)
    ensures r[0] == x || (|s| > 0 && r[0] == s[0])
  {
    if |s| == 0 then [x]
    else if le(x, s[0]) then [x] + s
    else
      var rest := Insert(le, x, s[1..]);
      assert s == [s[0]] + s[1..];
      [s[0]] + rest
  }

  /** Insertion sort. */
  function Sort<T(!new)>(le: (T, T) -> bool, s: seq<T>): (r: seq<T>)
    requires Total(le)
    ensures multiset(r) == multiset(s)
    ensures Sorted(le, r)
  {
    if |s| == 0 then []
    else
      assert s == [s[0]] + s[1..];
      Insert(le, s[0], Sort(le, s[1..]))
  }
}
