/**
 * List operations of the Kotlin standard library that the plugin leans on:
 * `distinct()` and `toSet()` (first occurrences, in order), `list - elements` and
 * `retainAll`.
 */
module Collections {

  predicate NoDuplicates<T(==)>(s: seq<T>) {
    forall i, j :: 0 <= i < j < |s| ==> s[i] != s[j]
  }

  /** `distinct()` / `toSet()` on a list: the first occurrence of each element, in order. */
  function Distinct<T(==,!new)>(s: seq<T>): (r: seq<T>)
    ensures NoDuplicates(r)
    ensures forall x :: x in r <==> x in s
    ensures |r| <= |s|
  {
    if s == [] then []
    else
      var d := Distinct(s[..|s| - 1]);
      assert forall x :: x in s <==> x in s[..|s| - 1] || x == s[|s| - 1];
      if s[|s| - 1] in d then d else d + [s[|s| - 1]]
  }

  /** A list that already has no duplicates is its own `distinct()`. */
  lemma {:induction false} DistinctOfDistinct<T(!new)>(s: seq<T>)
    requires NoDuplicates(s)
    ensures Distinct(s) == s
  {
    if s != [] {
      DistinctOfDistinct(s[..|s| - 1]);
      assert s == s[..|s| - 1] + [s[|s| - 1]];
    }
  }

  /** `list - elements`: every occurrence of the given elements removed, order kept. */
  function Minus<T(==,!new)>(s: seq<T>, removed: seq<T>): (r: seq<T>)
    ensures forall x :: x in r <==> x in s && x !in removed
    ensures |r| <= |s|
  {
    if s == [] then []
    else
      var rest := Minus(s[1..], removed);
      assert forall x :: x in s <==> x == s[0] || x in s[1..];
      if s[0] in removed then rest else [s[0]] + rest
  }

  /** Removing at least one element that is present makes the list strictly shorter. */
  lemma {:induction false} MinusShrinks<T(!new)>(s: seq<T>, removed: seq<T>, x: T)
    requires x in s && x in removed
    ensures |Minus(s, removed)| < |s|
  {
    if s[0] != x {
      MinusShrinks(s[1..], removed, x);
    }
  }

  /** `retainAll(keep)` on an insertion-ordered set: the elements also in `keep`, order kept. */
  function Retain<T(==,!new)>(s: seq<T>, keep: seq<T>): (r: seq<T>)
    ensures forall x :: x in r <==> x in s && x in keep
    ensures |r| <= |s|
    ensures NoDuplicates(s) ==> NoDuplicates(r)
  {
    if s == [] then []
    else
      var rest := Retain(s[1..], keep);
      assert forall x :: x in s <==> x == s[0] || x in s[1..];
      if s[0] in keep then [s[0]] + rest else rest
  }

  /** The position of the first occurrence of `x` in `s`. */
  function FirstIndex<T(==)>(s: seq<T>, x: T): (i: nat)
    requires x in s
    ensures i < |s| && s[i] == x
    ensures forall k :: 0 <= k < i ==> s[k] != x
  {
    if s[0] == x then 0 else 1 + FirstIndex(s[1..], x)
  }

  /** `r` lists elements of `s` in the order of their first occurrences in `s`. */
  predicate InFirstOccurrenceOrder<T(==)>(r: seq<T>, s: seq<T>) {
    && (forall x :: x in r ==> x in s)
    && forall i, j :: 0 <= i < j < |r| ==> FirstIndex(s, r[i]) < FirstIndex(s, r[j])
  }

  /** Dropping the last element of `s` keeps the first occurrence of every element still present. */
  lemma FirstIndexOfPrefix<T>(s: seq<T>, x: T)
    requires |s| > 0 && x in s[..|s| - 1]
    ensures FirstIndex(s, x) == FirstIndex(s[..|s| - 1], x)
  {
    var p := s[..|s| - 1];
    assert forall k :: 0 <= k < |p| ==> p[k] == s[k];
  }

  /** `distinct()` keeps the elements in the order of their first occurrences. */
  lemma {:induction false} DistinctInOrder<T(!new)>(s: seq<T>)
    ensures InFirstOccurrenceOrder(Distinct(s), s)
  {
    if s != [] {
      var p := s[..|s| - 1];
      var last := s[|s| - 1];
      var d := Distinct(p);
      DistinctInOrder(p);
      assert forall x :: x in d ==> x in p;
      forall x | x in d ensures FirstIndex(s, x) == FirstIndex(p, x) {
        FirstIndexOfPrefix(s, x);
      }
      if last !in d {
        var r := d + [last];
        assert last !in p;
        assert FirstIndex(s, last) == |s| - 1 by {
          assert forall k :: 0 <= k < |p| ==> p[k] == s[k] && p[k] in p;
        }
        forall i, j | 0 <= i < j < |r| ensures FirstIndex(s, r[i]) < FirstIndex(s, r[j]) {
          assert r[i] == d[i];
          if j < |d| {
            assert r[j] == d[j];
          }
        }
      }
    }
  }

  /** `retainAll` keeps the surviving elements in the order they had. */
  lemma {:induction false} RetainInOrder<T(!new)>(r: seq<T>, keep: seq<T>, s: seq<T>)
    requires InFirstOccurrenceOrder(r, s)
    ensures InFirstOccurrenceOrder(Retain(r, keep), s)
  {
    if r != [] {
      var tail := r[1..];
      assert InFirstOccurrenceOrder(tail, s) by {
        forall i, j | 0 <= i < j < |tail| ensures FirstIndex(s, tail[i]) < FirstIndex(s, tail[j]) {
          assert tail[i] == r[i + 1] && tail[j] == r[j + 1];
        }
      }
      RetainInOrder(tail, keep, s);
      var rest := Retain(tail, keep);
      if r[0] in keep {
        var out := [r[0]] + rest;
        forall i, j | 0 <= i < j < |out| ensures FirstIndex(s, out[i]) < FirstIndex(s, out[j]) {
          if i == 0 {
            assert out[j] == rest[j - 1] && rest[j - 1] in tail;
            var k :| 0 <= k < |tail| && tail[k] == out[j];
            assert r[k + 1] == out[j];
          } else {
            assert out[i] == rest[i - 1] && out[j] == rest[j - 1];
          }
        }
      }
    }
  }
}
