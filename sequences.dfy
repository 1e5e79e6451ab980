/** Order-preserving sub-lists, duplicate-freedom and `Array.from(new Set(...))`. */
module Sequences {

  /** `a` is `b` with some elements dropped and the rest kept in their order. */
  predicate IsSubsequence<T(==)>(a: seq<T>, b: seq<T>)
    decreases |b|
  {
    a == [] || (|b| > 0 && ((a[0] == b[0] && IsSubsequence(a[1..], b[1..])) || IsSubsequence(a, b[1..])))
  }

  predicate NoDuplicates<T(==)>(s: seq<T>)
  {
    forall i, j :: 0 <= i < j < |s| ==> s[i] != s[j]
  }

  /** Putting a new element in front keeps a list duplicate-free. */
  lemma NoDuplicatesCons<T>(x: T, s: seq<T>)
    ensures x !in s && NoDuplicates(s) ==> NoDuplicates([x] + s)
  {
  }

  /** Position of the first occurrence of `x` in `s`. */
  function FirstIndex<T(==)>(s: seq<T>, x: T): (k: nat)
    requires x in s
    ensures k < |s| && s[k] == x
    ensures forall j :: 0 <= j < k ==> s[j] != x
  {
    if s[0] == x then 0 else 1 + FirstIndex(s[1..], x)
  }

  /**
   * `Array.from(new Set(s))`: each element once, at the place where it first
   * appears. A `Set` remembers insertion order, and re-inserting a present
   * element does not move it, so the list is built from the left.
   */
  function Dedup<T(==)>(s: seq<T>): (r: seq<T>)
    ensures NoDuplicates(r)
    ensures forall k :: 0 <= k < |s| ==> s[k] in r
    ensures forall k :: 0 <= k < |r| ==> r[k] in s
    decreases |s|
  {
    if s == [] then []
    else
      var d := Dedup(s[..|s| - 1]);
      var x := s[|s| - 1];
      assert forall k :: 0 <= k < |s| - 1 ==> s[k] == s[..|s| - 1][k];
      if x in d then d else d + [x]
  }

  /** The de-duplicated list keeps first-appearance order. */
  lemma {:induction false} DedupFirstAppearanceOrder<T>(s: seq<T>, i: nat, j: nat)
    requires i < j < |Dedup(s)|
    ensures Dedup(s)[i] in s && Dedup(s)[j] in s
    ensures FirstIndex(s, Dedup(s)[i]) < FirstIndex(s, Dedup(s)[j])
    decreases |s|
  {
    var p := s[..|s| - 1];
    var x := s[|s| - 1];
    var d := Dedup(p);
    var r := Dedup(s);
    assert r[i] in s && r[j] in s;
    FirstIndexOfPrefix(s, p, r[i]);
    if j < |d| {
      assert r[i] == d[i] && r[j] == d[j];
      DedupFirstAppearanceOrder(p, i, j);
      FirstIndexOfPrefix(s, p, r[j]);
    } else {
      assert r[j] == x && x !in p;
      assert r[i] == d[i] && d[i] in p;
      assert FirstIndex(s, x) == |s| - 1;
    }
  }

  /** An element of a prefix is first found inside that prefix. */
  lemma FirstIndexOfPrefix<T>(s: seq<T>, p: seq<T>, x: T)
    requires |p| <= |s| && p == s[..|p|] && x in p
    ensures x in s && FirstIndex(s, x) == FirstIndex(p, x)
  {
  }
}
