/** The two deduplication rules of SubstitutionEnvironment.MergeFlags: a
    key ending in PATH keeps the leftmost copy of each element, any other
    key the rightmost, and the kept elements stay in their order. */
module EnvMerge {
  import opened Seqs

  /** What the PATH loop builds: an element is appended unless it is
      already there, so each element sits at its first occurrence. */
  function KeepFirst<T(==)>(s: seq<T>): seq<T>
    decreases |s|
  {
    if s == [] then []
    else
      var t := KeepFirst(s[..|s| - 1]);
      if s[|s| - 1] in t then t else t + [s[|s| - 1]]
  }

  /** What the reversed loop with insert(0, v) builds: each element sits at
      its last occurrence. */
  function KeepLast<T(==)>(s: seq<T>): seq<T>
    decreases |s|
  {
    if s == [] then []
    else
      var t := KeepLast(s[1..]);
      if s[0] in t then t else [s[0]] + t
  }

  /** `for v in orig: if v not in t: t.append(v)` */
  method LeftmostLoop<T(==)>(orig: seq<T>) returns (t: seq<T>)
    ensures t == KeepFirst(orig)
  {
    t := [];
    for i := 0 to |orig|
      invariant t == KeepFirst(orig[..i])
    {
      assert orig[..i + 1][..i] == orig[..i];
      if orig[i] !in t {
        t := t + [orig[i]];
      }
    }
    assert orig[..|orig|] == orig;
  }

  /** `orig.reverse(); for v in orig: if v not in t: t.insert(0, v)`; the
      reversed list is walked from its end instead of being reversed. */
  method RightmostLoop<T(==)>(orig: seq<T>) returns (t: seq<T>)
    ensures t == KeepLast(orig)
  {
    t := [];
    var i := |orig|;
    while i > 0
      invariant 0 <= i <= |orig|
      invariant t == KeepLast(orig[i..])
    {
      assert orig[i - 1..][1..] == orig[i..];
      if orig[i - 1] !in t {
        t := [orig[i - 1]] + t;
      }
      i := i - 1;
    }
  }

  /** Both rules drop duplicates and nothing else. */
  lemma {:induction false} KeepFirstElems<T>(s: seq<T>)
    ensures NoDup(KeepFirst(s)) && Elems(KeepFirst(s)) == Elems(s)
    decreases |s|
  {
    if s != [] {
      var p := s[..|s| - 1];
      KeepFirstElems(p);
      assert s == p + [s[|s| - 1]];
      assert Elems(s) == Elems(p) + {s[|s| - 1]};
    }
  }

  lemma {:induction false} KeepLastElems<T>(s: seq<T>)
    ensures NoDup(KeepLast(s)) && Elems(KeepLast(s)) == Elems(s)
    decreases |s|
  {
    if s != [] {
      KeepLastElems(s[1..]);
      assert s == [s[0]] + s[1..];
      assert Elems(s) == {s[0]} + Elems(s[1..]);
    }
  }

  lemma {:induction false} KeepFirstIn<T>(s: seq<T>, x: T)
    ensures x in KeepFirst(s) <==> x in s
    decreases |s|
  {
    if s != [] {
      var p := s[..|s| - 1];
      KeepFirstIn(p, x);
      assert s == p + [s[|s| - 1]];
    }
  }

  lemma {:induction false} KeepLastIn<T>(s: seq<T>, x: T)
    ensures x in KeepLast(s) <==> x in s
    decreases |s|
  {
    if s != [] {
      KeepLastIn(s[1..], x);
      assert s == [s[0]] + s[1..];
    }
  }

  /** The PATH rule keeps an element exactly when it does not occur
      earlier: each element is kept at its leftmost occurrence. */
  lemma KeepFirstSnoc<T>(s: seq<T>, x: T)
    ensures KeepFirst(s + [x]) == KeepFirst(s) + (if x in s then [] else [x])
  {
    assert (s + [x])[..|s + [x]| - 1] == s;
    KeepFirstIn(s, x);
  }

  /** The other rule keeps an element exactly when it does not occur
      later: each element is kept at its rightmost occurrence. */
  lemma KeepLastCons<T>(x: T, s: seq<T>)
    ensures KeepLast([x] + s) == (if x in s then [] else [x]) + KeepLast(s)
  {
    assert ([x] + s)[1..] == s;
    KeepLastIn(s, x);
  }

  lemma WithoutSnoc<T>(s: seq<T>, x: T, excl: seq<T>)
    ensures Without(s + [x], excl) == Without(s, excl) + (if x in excl then [] else [x])
  {
    WithoutAppend(s, [x], excl);
    assert [x][1..] == [];
  }

  lemma WithoutCons<T>(x: T, s: seq<T>, excl: seq<T>)
    ensures Without([x] + s, excl) == (if x in excl then [] else [x]) + Without(s, excl)
  {
    assert ([x] + s)[0] == x && ([x] + s)[1..] == s;
  }

  /** A list without duplicates comes through either rule unchanged. */
  lemma {:induction false} KeepFirstNoDup<T>(s: seq<T>)
    requires NoDup(s)
    ensures KeepFirst(s) == s
    decreases |s|
  {
    if s != [] {
      var p := s[..|s| - 1];
      assert NoDup(p);
      KeepFirstNoDup(p);
      assert s[|s| - 1] !in p by {
        forall i | 0 <= i < |p| ensures p[i] != s[|s| - 1] { assert p[i] == s[i]; }
      }
      assert s == p + [s[|s| - 1]];
    }
  }

  lemma {:induction false} KeepLastNoDup<T>(s: seq<T>)
    requires NoDup(s)
    ensures KeepLast(s) == s
    decreases |s|
  {
    if s != [] {
      assert NoDup(s[1..]);
      KeepLastNoDup(s[1..]);
      assert s[0] !in s[1..] by {
        forall i | 0 <= i < |s[1..]| ensures s[1..][i] != s[0] { assert s[1..][i] == s[i + 1]; }
      }
      assert s == [s[0]] + s[1..];
    }
  }

  /** Filtering keeps a list duplicate-free. */
  lemma {:induction false} WithoutNoDup<T>(s: seq<T>, excl: seq<T>)
    requires NoDup(s)
    ensures NoDup(Without(s, excl))
    decreases |s|
  {
    if s != [] {
      assert NoDup(s[1..]);
      WithoutNoDup(s[1..], excl);
      assert s[0] !in s[1..] by {
        forall i | 0 <= i < |s[1..]| ensures s[1..][i] != s[0] { assert s[1..][i] == s[i + 1]; }
      }
    }
  }

  /** Merging a duplicate-free list into a duplicate-free PATH value keeps
      the old entries where they are and appends only the new ones. */
  lemma {:induction false} MergePath<T>(orig: seq<T>, value: seq<T>)
    requires NoDup(orig) && NoDup(value)
    ensures KeepFirst(orig + value) == orig + Without(value, orig)
    decreases |value|
  {
    if value == [] {
      assert orig + value == orig;
      KeepFirstNoDup(orig);
    } else {
      var v1, x := value[..|value| - 1], value[|value| - 1];
      assert value == v1 + [x];
      assert NoDup(v1);
      MergePath(orig, v1);
      assert x !in v1 by {
        forall i | 0 <= i < |v1| ensures v1[i] != x { assert v1[i] == value[i]; }
      }
      PathStep(orig, v1, x);
    }
  }

  lemma PathStep<T>(orig: seq<T>, v1: seq<T>, x: T)
    requires x !in v1
    requires KeepFirst(orig + v1) == orig + Without(v1, orig)
    ensures KeepFirst(orig + (v1 + [x])) == orig + Without(v1 + [x], orig)
  {
    var e: seq<T> := if x in orig then [] else [x];
    calc {
      KeepFirst(orig + (v1 + [x]));
    == { assert orig + (v1 + [x]) == (orig + v1) + [x]; }
      KeepFirst((orig + v1) + [x]);
    == { KeepFirstSnoc(orig + v1, x); assert (x in orig + v1) == (x in orig); }
      (orig + Without(v1, orig)) + e;
    == { WithoutSnoc(v1, x, orig); }
      orig + Without(v1 + [x], orig);
    }
  }

  /** For any other key the merged value moves to the end: the old entries
      it repeats are dropped from their old places. */
  lemma {:induction false} MergeOther<T>(orig: seq<T>, value: seq<T>)
    requires NoDup(orig) && NoDup(value)
    ensures KeepLast(orig + value) == Without(orig, value) + value
    decreases |orig|
  {
    if orig == [] {
      assert orig + value == value;
      KeepLastNoDup(value);
    } else {
      var x, o1 := orig[0], orig[1..];
      assert orig == [x] + o1;
      assert NoDup(o1);
      MergeOther(o1, value);
      assert x !in o1 by {
        forall i | 0 <= i < |o1| ensures o1[i] != x { assert o1[i] == orig[i + 1]; }
      }
      OtherStep(x, o1, value);
    }
  }

  lemma OtherStep<T>(x: T, o1: seq<T>, value: seq<T>)
    requires x !in o1
    requires KeepLast(o1 + value) == Without(o1, value) + value
    ensures KeepLast(([x] + o1) + value) == Without([x] + o1, value) + value
  {
    var e: seq<T> := if x in value then [] else [x];
    calc {
      KeepLast(([x] + o1) + value);
    == { assert ([x] + o1) + value == [x] + (o1 + value); }
      KeepLast([x] + (o1 + value));
    == { KeepLastCons(x, o1 + value); assert (x in o1 + value) == (x in value); }
      e + (Without(o1, value) + value);
    == { WithoutCons(x, o1, value); }
      Without([x] + o1, value) + value;
    }
  }
}
