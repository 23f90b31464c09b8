/**
 * The two JavaScript array searches the calendar header relies on,
 * `Array.prototype.find` and `Array.prototype.indexOf`, written as
 * recursive functions over a sequence and specified by what they find.
 */
module ArraySearch {
  import opened Wrappers

  /**
   * The position `s.find(p)` stops at: the index of the first element
   * satisfying `p`, or -1 when no element does.
   */
  function FindIndex<T>(s: seq<T>, p: T -> bool): (i: int)
    ensures -1 <= i < |s|
    ensures i == -1 <==> forall j :: 0 <= j < |s| ==> !p(s[j])
    ensures 0 <= i ==> p(s[i]) && FirstMatchAt(s, p, i)
  {
    if |s| == 0 then -1
    else if p(s[0]) then 0
    else
      var k := FindIndex(s[1..], p);
      if k == -1 then -1 else k + 1
  }

  /**
   * `s.find(p)`: the first element satisfying `p`, or `None` (JavaScript's
   * `undefined`) when no element does.
   */
  function Find<T>(s: seq<T>, p: T -> bool): (r: Option<T>)
    ensures r.None? <==> forall j :: 0 <= j < |s| ==> !p(s[j])
    ensures r.Some? ==> exists i :: 0 <= i < |s| && s[i] == r.value && p(s[i]) && FirstMatchAt(s, p, i)
  {
    var i := FindIndex(s, p);
    if i == -1 then None else Some(s[i])
  }

  /** No element before index `i` satisfies `p`. */
  predicate FirstMatchAt<T>(s: seq<T>, p: T -> bool, i: int)
    requires 0 <= i <= |s|
  {
    forall j :: 0 <= j < i ==> !p(s[j])
  }

  /**
   * `s.indexOf(x)`: the index of the first occurrence of `x` under strict
   * equality, or -1 when `x` does not occur.
   */
  function IndexOf<T(==)>(s: seq<T>, x: T): (r: int)
    ensures -1 <= r < |s|
    ensures r == -1 <==> x !in s
    ensures 0 <= r ==> s[r] == x && forall j :: 0 <= j < r ==> s[j] != x
  {
    if |s| == 0 then -1
    else if s[0] == x then 0
    else
      var k := IndexOf(s[1..], x);
      if k == -1 then -1 else k + 1
  }

  /** In a sequence without duplicates, `indexOf` inverts indexing. */
  lemma IndexOfDistinct<T>(s: seq<T>, i: int)
    requires 0 <= i < |s|
    requires Distinct(s)
    ensures IndexOf(s, s[i]) == i
  {
  }

  /** No value occurs twice in `s`. */
  predicate Distinct<T(==)>(s: seq<T>) {
    forall i, j :: 0 <= i < j < |s| ==> s[i] != s[j]
  }
}
