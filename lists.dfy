/**
 * The array operations the handlers use: `find`/`findIndex` (and Mongo's
 * `findOne`, which returns the first document of a collection that matches a
 * filter), `indexOf`, and `splice(i, 1)`.
 */
module Lists {
  import opened Wrappers

  /** The index of the first element that satisfies `p`, or None when no element does. */
  function FirstIndex<T>(s: seq<T>, p: T -> bool): (r: Option<nat>)
    ensures r.Some? ==> r.value < |s| && p(s[r.value])
    ensures r.Some? ==> forall j :: 0 <= j < r.value ==> !p(s[j])
    ensures r.None? <==> forall j :: 0 <= j < |s| ==> !p(s[j])
  {
    if s == [] then None
    else if p(s[0]) then Some(0)
    else match FirstIndex(s[1..], p)
      case None => None
      case Some(i) => Some(i + 1)
  }

  /** Two tests that agree on every element find the same first index. */
  lemma {:induction false} FirstIndexAgrees<T>(s: seq<T>, p: T -> bool, q: T -> bool)
    requires forall j :: 0 <= j < |s| ==> p(s[j]) == q(s[j])
    ensures FirstIndex(s, p) == FirstIndex(s, q)
  {
    if s != [] && !p(s[0]) {
      FirstIndexAgrees(s[1..], p, q);
    }
  }

  /** `s.indexOf(x)`: the first position of `x`, or -1. */
  function IndexOf<T(==)>(s: seq<T>, x: T): (i: int)
    ensures -1 <= i < |s|
    ensures i == -1 <==> x !in s
    ensures 0 <= i ==> s[i] == x && x !in s[..i]
  {
    match FirstIndex(s, y => y == x)
    case None => -1
    case Some(k) => k
  }

  /** `s.splice(i, 1)`: the sequence without its element at `i`. */
  function Splice<T>(s: seq<T>, i: nat): seq<T>
    requires i < |s|
  {
    s[..i] + s[i + 1..]
  }

  /** `indexOf` followed by `splice(index, 1)` when the element is present; `s` otherwise. */
  function RemoveFirst<T(==)>(s: seq<T>, x: T): (r: seq<T>)
    ensures r == s <==> x !in s
  {
    var i := IndexOf(s, x);
    if i == -1 then s else Splice(s, i)
  }

  /**
   * Removing a present element takes out exactly its first occurrence: one
   * element fewer, everything before and after it in the same order, and one
   * copy fewer of `x`, so later duplicates remain.
   */
  lemma RemoveFirstPresent<T>(s: seq<T>, x: T)
    requires x in s
    ensures var r, i := RemoveFirst(s, x), IndexOf(s, x);
      && |r| == |s| - 1
      && r[..i] == s[..i]
      && r[i..] == s[i + 1..]
      && multiset(r) == multiset(s) - multiset{x}
      && multiset(r)[x] == multiset(s)[x] - 1
  {
    var r, i := RemoveFirst(s, x), IndexOf(s, x);
    assert s == s[..i] + [x] + s[i + 1..];
    assert r == s[..i] + s[i + 1..];
    calc {
      multiset(s);
      multiset(s[..i]) + multiset{x} + multiset(s[i + 1..]);
      multiset(r) + multiset{x};
    }
  }
}
