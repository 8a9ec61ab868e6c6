/** Sequence vocabulary shared by the node, walker and environment
    modules: duplicate-freedom, the set of a sequence's elements and
    order-keeping filtering. */
module Seqs {
  predicate NoDup<T(==)>(s: seq<T>)
  {
    forall i, j :: 0 <= i < j < |s| ==> s[i] != s[j]
  }

  function Elems<T>(s: seq<T>): set<T>
  {
    set x | x in s
  }

  /** Order-keeping removal of every element of excl (Python's filter with a
      not-in test). */
  function Without<T(==)>(s: seq<T>, excl: seq<T>): (r: seq<T>)
    ensures forall i :: 0 <= i < |r| ==> r[i] in s && r[i] !in excl
    ensures forall i :: 0 <= i < |s| && s[i] !in excl ==> s[i] in r
    ensures |r| <= |s|
  {
    if s == [] then []
    else if s[0] in excl then Without(s[1..], excl)
    else [s[0]] + Without(s[1..], excl)
  }

  /** Filtering distributes over concatenation, so it keeps the order of
      what it keeps. */
  lemma {:induction false} WithoutAppend<T>(a: seq<T>, b: seq<T>, excl: seq<T>)
    ensures Without(a + b, excl) == Without(a, excl) + Without(b, excl)
    decreases |a|
  {
    if a != [] {
      assert (a + b)[0] == a[0] && (a + b)[1..] == a[1..] + b;
      WithoutAppend(a[1..], b, excl);
      if a[0] in excl {
        assert Without(a + b, excl) == Without(a[1..] + b, excl);
      } else {
        assert Without(a + b, excl) == [a[0]] + Without(a[1..] + b, excl);
        assert Without(a, excl) == [a[0]] + Without(a[1..], excl);
        assert Without(a[1..] + b, excl) == Without(a[1..], excl) + Without(b, excl);
      }
    } else {
      assert a + b == b;
    }
  }

  /** With nothing to exclude, filtering changes nothing. */
  lemma {:induction false} WithoutNothing<T>(s: seq<T>)
    ensures Without(s, []) == s
    decreases |s|
  {
    if s != [] {
      WithoutNothing(s[1..]);
    }
  }

  /** Filtering by a list that holds every element leaves nothing. */
  lemma {:induction false} WithoutCovered<T>(s: seq<T>, excl: seq<T>)
    requires forall i :: 0 <= i < |s| ==> s[i] in excl
    ensures Without(s, excl) == []
    decreases |s|
  {
    if s != [] {
      WithoutCovered(s[1..], excl);
    }
  }

  /** A non-empty sequence is its front followed by its last element. */
  lemma InitLast<T>(s: seq<T>)
    requires s != []
    ensures s[..|s| - 1] + [s[|s| - 1]] == s
  {
  }
}
