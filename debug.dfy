/** SCons.Debug: the trimming of file names in profile listings, and the
    choice of the tracked classes a report covers.  The tracked class names
    are the keys of tracked_classes, given as a list; os.sep
    is a parameter. */
module Debug {
  import opened Strings

  /** An entry of shorten_list: a path fragment and whether the cut falls
      after it (true) or at its start (false). */
  datatype Shorten = Shorten(fragment: string, after: bool)

  /** shorten_list, with '/' replaced by os.sep when the separator differs. */
  function ShortenList(sep: char): (r: seq<Shorten>)
    ensures |r| == 3
    ensures sep == '/' ==> r == [Shorten("/scons/SCons/", true), Shorten("/src/engine/SCons/", true),
                                 Shorten("/usr/lib/python", false)]
  {
    var base := [Shorten("/scons/SCons/", true), Shorten("/src/engine/SCons/", true),
                 Shorten("/usr/lib/python", false)];
    if sep == '/' then base
    else [Shorten(ReplaceChar(base[0].fragment, '/', sep), base[0].after),
          Shorten(ReplaceChar(base[1].fragment, '/', sep), base[1].after),
          Shorten(ReplaceChar(base[2].fragment, '/', sep), base[2].after)]
  }

  /** The index of the first entry whose fragment occurs in f, or -1. */
  function FirstFragment(f: string, list: seq<Shorten>): (k: int)
    ensures -1 <= k < |list|
    ensures k == -1 <==> forall j :: 0 <= j < |list| ==> !Contains(f, list[j].fragment)
    ensures k >= 0 ==> Contains(f, list[k].fragment) && forall j :: 0 <= j < k ==> !Contains(f, list[j].fragment)
    decreases |list|
  {
    if list == [] then -1
    else if Contains(f, list[0].fragment) then 0
    else
      var k := FirstFragment(f, list[1..]);
      if k == -1 then -1 else k + 1
  }

  /** The tail of f from the first occurrence of the entry's fragment, or
      from right after it when the entry's flag is set. */
  function Cut(f: string, e: Shorten): string
    requires Contains(f, e.fragment)
  {
    var i := Find(f, e.fragment);
    f[(if e.after then i + |e.fragment| else i)..]
  }

  /** The file name func_shorten leaves: cut at the first fragment that
      occurs, unchanged when none does. */
  function Shortened(f: string, list: seq<Shorten>): string
  {
    var k := FirstFragment(f, list);
    if k == -1 then f else Cut(f, list[k])
  }

  /** A profile entry: file name, line number and function name. */
  datatype FuncTuple = FuncTuple(file: string, line: int, name: string)

  /** func_shorten */
  method FuncShorten(func: FuncTuple, list: seq<Shorten>) returns (r: FuncTuple)
    ensures r == FuncTuple(Shortened(func.file, list), func.line, func.name)
  {
    var f := func.file;
    for k := 0 to |list|
      invariant forall j :: 0 <= j < k ==> !Contains(f, list[j].fragment)
      invariant f == func.file
    {
      var t := list[k];
      var i := Find(f, t.fragment);
      if i >= 0 {
        FirstFragmentAt(f, list, k);
        if t.after {
          i := i + |t.fragment|;
        }
        f := f[i..];
        return FuncTuple(f, func.line, func.name);
      }
    }
    return FuncTuple(f, func.line, func.name);
  }

  /** The first entry that occurs is the one FirstFragment names. */
  lemma {:induction false} FirstFragmentAt(f: string, list: seq<Shorten>, k: nat)
    requires k < |list| && Contains(f, list[k].fragment)
    requires forall j :: 0 <= j < k ==> !Contains(f, list[j].fragment)
    ensures FirstFragment(f, list) == k
    decreases k
  {
    if k > 0 {
      FirstFragmentAt(f, list[1..], k - 1);
    }
  }

  /** Cutting keeps a tail of the name: from the fragment, or after it. */
  lemma CutShape(f: string, e: Shorten)
    requires Contains(f, e.fragment)
    ensures IsSuffix(Cut(f, e), f)
    ensures !e.after ==> IsPrefix(e.fragment, Cut(f, e))
    ensures e.after ==> f == f[..Find(f, e.fragment)] + e.fragment + Cut(f, e)
  {
    var p := e.fragment;
    var i := Find(f, p);
    assert OccursAt(f, p, i);
    if e.after {
      assert f == f[..i] + f[i..i + |p|] + f[i + |p|..];
    }
  }

  /** The shortened name is the tail of the name that starts at the
      matching fragment, or right after it, and is the whole name when
      nothing matches. */
  lemma ShortenedCut(f: string, list: seq<Shorten>)
    ensures IsSuffix(Shortened(f, list), f)
    ensures FirstFragment(f, list) == -1 ==> Shortened(f, list) == f
    ensures var k := FirstFragment(f, list);
      k >= 0 && !list[k].after ==> IsPrefix(list[k].fragment, Shortened(f, list))
    ensures var k := FirstFragment(f, list);
      k >= 0 && list[k].after ==> f == f[..Find(f, list[k].fragment)] + list[k].fragment + Shortened(f, list)
  {
    var k := FirstFragment(f, list);
    if k >= 0 {
      CutShape(f, list[k]);
    }
  }

  /** Python 2's comparison of byte strings: code point by code point, a
      proper prefix first. */
  predicate StrLe(a: string, b: string)
    decreases |a|
  {
    a == [] || (b != [] && (a[0] < b[0] || (a[0] == b[0] && StrLe(a[1..], b[1..]))))
  }

  lemma {:induction false} StrLeTotal(a: string, b: string)
    ensures StrLe(a, b) || StrLe(b, a)
    decreases |a|
  {
    if a != [] && b != [] && a[0] == b[0] {
      StrLeTotal(a[1..], b[1..]);
    }
  }

  predicate Sorted(s: seq<string>)
  {
    forall i :: 0 <= i < |s| - 1 ==> StrLe(s[i], s[i + 1])
  }

  function Insert(x: string, s: seq<string>): (r: seq<string>)
    requires Sorted(s)
    ensures Sorted(r) && multiset(r) == multiset(s) + multiset{x}
    ensures r != [] && (r[0] == x || (s != [] && r[0] == s[0]))
    decreases |s|
  {
    if s == [] || StrLe(x, s[0]) then [x] + s
    else
      StrLeTotal(x, s[0]);
      var t := Insert(x, s[1..]);
      assert s == [s[0]] + s[1..];
      [s[0]] + t
  }

  /** list.sort() on strings. */
  function Sort(s: seq<string>): (r: seq<string>)
    ensures Sorted(r) && multiset(r) == multiset(s)
    decreases |s|
  {
    if s == [] then []
    else
      assert s == [s[0]] + s[1..];
      Insert(s[0], Sort(s[1..]))
  }

  /** string_to_classes: "*" is every tracked class, sorted; anything else
      is split into the names it lists. */
  function StringToClasses(s: string, tracked: seq<string>): (r: seq<string>)
    ensures s == "*" ==> Sorted(r) && multiset(r) == multiset(tracked)
    ensures s == "*" ==> |r| == |tracked| && forall x :: x in r <==> x in tracked
    ensures s != "*" ==> r == Split(s)
  {
    if s == "*" then
      var r := Sort(tracked);
      assert forall x :: x in r <==> x in multiset(r);
      assert forall x :: x in tracked <==> x in multiset(tracked);
      r
    else Split(s)
  }
}
