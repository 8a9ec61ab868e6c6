/** Base.ReplaceIxes of SCons.Environment: the file-name part of a path
    loses an old prefix and suffix (each only when present) and gains a
    new pair, with the directory split off and joined back by the POSIX
    rules of os.path.  The '$'-expansion of the four variable names is a
    parameter. */
module EnvIxes {
  import opened Strings

  predicate AllSlashes(s: string) { forall i :: 0 <= i < |s| ==> s[i] == '/' }

  /** p.rfind('/') + 1 */
  function AfterLastSlash(p: string): (i: nat)
    ensures i <= |p|
    ensures i > 0 ==> p[i - 1] == '/'
    ensures '/' !in p[i..]
  {
    if p == [] then 0
    else if p[|p| - 1] == '/' then |p|
    else
      var i := AfterLastSlash(p[..|p| - 1]);
      assert p[i..] == p[..|p| - 1][i..] + [p[|p| - 1]];
      i
  }

  /** s.rstrip('/') */
  function RStripSlash(s: string): (r: string)
    ensures |r| <= |s| && r == s[..|r|]
    ensures r == [] || r[|r| - 1] != '/'
    ensures AllSlashes(s[|r|..])
  {
    if s != [] && s[|s| - 1] == '/' then
      var r := RStripSlash(s[..|s| - 1]);
      assert s[|r|..] == s[..|s| - 1][|r|..] + ['/'];
      r
    else s
  }

  /** posixpath.split: the head keeps its trailing slashes only when it
      is nothing but slashes. */
  function SplitPath(p: string): (string, string)
  {
    var i := AfterLastSlash(p);
    var head, tail := p[..i], p[i..];
    if head != [] && !AllSlashes(head) then (RStripSlash(head), tail) else (head, tail)
  }

  /** posixpath.join of two parts. */
  function JoinPath(a: string, b: string): string
  {
    if b != [] && b[0] == '/' then b
    else if a == [] || a[|a| - 1] == '/' then a + b
    else a + "/" + b
  }

  /** The name rewriting as written with slices: the prefix test
      name[:len(old_prefix)] and the suffix test name[-len(old_suffix):]. */
  function RenameName(name: string, oldPrefix: string, oldSuffix: string): string
  {
    var n1 := if PyHead(name, |oldPrefix|) == oldPrefix then PyFrom(name, |oldPrefix|) else name;
    if PyLast(n1, |oldSuffix|) == oldSuffix then PyButLast(n1, |oldSuffix|) else n1
  }

  /** The path rewriting on the expanded affixes. */
  function Rename(path: string, oldPrefix: string, oldSuffix: string, newPrefix: string, newSuffix: string): string
  {
    var (dir, name) := SplitPath(path);
    JoinPath(dir, newPrefix + RenameName(name, oldPrefix, oldSuffix) + newSuffix)
  }

  /** ReplaceIxes: the four arguments name construction variables, each
      expanded as `$name` by subst. */
  function ReplaceIxes(path: string, oldPrefix: string, oldSuffix: string, newPrefix: string, newSuffix: string,
                       subst: string -> string): (r: string)
    ensures r == Rename(path, subst("$" + oldPrefix), subst("$" + oldSuffix),
                        subst("$" + newPrefix), subst("$" + newSuffix))
  {
    var op, os := subst("$" + oldPrefix), subst("$" + oldSuffix);
    var np, ns := subst("$" + newPrefix), subst("$" + newSuffix);
    Rename(path, op, os, np, ns)
  }

  /** The affixes removed, stated without slices: the prefix when the name
      starts with it, then a non-empty suffix when what is left ends with
      it. */
  function StripAffixes(name: string, prefix: string, suffix: string): (r: string)
  {
    var n1 := if IsPrefix(prefix, name) then name[|prefix|..] else name;
    if suffix != [] && IsSuffix(suffix, n1) then n1[..|n1| - |suffix|] else n1
  }

  /** The slice tests remove an affix exactly when it is present; an empty
      suffix removes nothing, although `[:-0]` alone would cut everything. */
  lemma RenameNameStrips(name: string, prefix: string, suffix: string)
    ensures RenameName(name, prefix, suffix) == StripAffixes(name, prefix, suffix)
  {
    PrefixSlice(name, prefix);
    var n1 := if IsPrefix(prefix, name) then name[|prefix|..] else name;
    SuffixSlice(n1, suffix);
  }

  lemma PrefixSlice(name: string, prefix: string)
    ensures (PyHead(name, |prefix|) == prefix) == IsPrefix(prefix, name)
    ensures IsPrefix(prefix, name) ==> PyFrom(name, |prefix|) == name[|prefix|..]
  {
  }

  lemma SuffixSlice(n1: string, suffix: string)
    ensures (if PyLast(n1, |suffix|) == suffix then PyButLast(n1, |suffix|) else n1)
         == (if suffix != [] && IsSuffix(suffix, n1) then n1[..|n1| - |suffix|] else n1)
  {
    var k := |suffix|;
    if PyLast(n1, k) == suffix {
      if k == 0 {
        assert n1 == [];
      } else if k >= |n1| {
        assert n1 == suffix;
      }
    }
  }

  /** A head as split returns it: empty, all slashes, or without a
      trailing slash. */
  predicate CanonicalHead(h: string) { h == [] || AllSlashes(h) || h[|h| - 1] != '/' }

  predicate NoDoubleSlash(p: string)
  {
    forall i :: 0 <= i < |p| - 1 ==> !(p[i] == '/' && p[i + 1] == '/')
  }

  /** split returns a canonical head and a tail without slashes. */
  lemma SplitShape(p: string)
    ensures CanonicalHead(SplitPath(p).0) && '/' !in SplitPath(p).1
  {
  }

  /** Splitting a joined path gives its parts back. */
  lemma SplitJoin(h: string, t: string)
    requires CanonicalHead(h) && '/' !in t
    ensures SplitPath(JoinPath(h, t)) == (h, t)
  {
    var p := JoinPath(h, t);
    if h == [] {
      assert p == t;
      NoSlashSplit(t);
    } else if AllSlashes(h) {
      assert p == h + t;
      SlashesThenName(h, t);
    } else {
      assert p == (h + "/") + t;
      SlashesThenName(h + "/", t);
      RStripOne(h);
    }
  }

  lemma NoSlashSplit(t: string)
    requires '/' !in t
    ensures AfterLastSlash(t) == 0
  {
  }

  /** The last slash of head + t is the last character of head. */
  lemma {:induction false} SlashesThenName(head: string, t: string)
    requires head != [] && head[|head| - 1] == '/' && '/' !in t
    ensures AfterLastSlash(head + t) == |head|
    decreases |t|
  {
    var p := head + t;
    if t == [] {
      assert p == head;
    } else {
      assert p[|p| - 1] == t[|t| - 1];
      assert p[..|p| - 1] == head + t[..|t| - 1];
      assert t == t[..|t| - 1] + [t[|t| - 1]];
      SlashesThenName(head, t[..|t| - 1]);
    }
  }

  lemma RStripOne(h: string)
    requires h != [] && h[|h| - 1] != '/'
    ensures RStripSlash(h + "/") == h && !AllSlashes(h + "/")
  {
    var s := h + "/";
    assert s[..|s| - 1] == h;
    assert s[|h| - 1] != '/';
  }

  /** Without a doubled slash, joining the parts of a split gives the path
      back. */
  lemma JoinSplit(p: string)
    requires NoDoubleSlash(p)
    ensures JoinPath(SplitPath(p).0, SplitPath(p).1) == p
  {
    var i := AfterLastSlash(p);
    var head, tail := p[..i], p[i..];
    assert p == head + tail;
    assert tail == [] || tail[0] != '/' by {
      if tail != [] { assert tail[0] in tail; }
    }
    if head != [] && !AllSlashes(head) {
      var r := RStripSlash(head);
      assert i >= 2 && p[i - 2] != '/';
      RStripKeeps(head, i - 2);
      assert |r| == i - 1;
      assert head == head[..i - 1] + [head[i - 1]];
    }
  }

  /** rstrip stops at the last character that is not a slash. */
  lemma {:induction false} RStripKeeps(s: string, k: nat)
    requires k < |s| && s[k] != '/'
    ensures |RStripSlash(s)| > k
    decreases |s|
  {
    if s[|s| - 1] == '/' {
      RStripKeeps(s[..|s| - 1], k);
    }
  }

  /** Renaming there and back: a file name carrying the old affixes around
      a core gets the new ones, and renaming back with the roles swapped
      restores the path, as long as the new name has no slash and the
      path no doubled slash. */
  lemma RenameRoundTrip(p: string, core: string, op: string, os: string, np: string, ns: string)
    requires NoDoubleSlash(p) && SplitPath(p).1 == op + core + os
    requires '/' !in np + core + ns
    ensures Rename(p, op, os, np, ns) == JoinPath(SplitPath(p).0, np + core + ns)
    ensures Rename(Rename(p, op, os, np, ns), np, ns, op, os) == p
  {
    var (dir, name) := SplitPath(p);
    RenameNameStrips(name, op, os);
    StripAround(op, core, os);
    SplitShape(p);
    var r := Rename(p, op, os, np, ns);
    SplitJoin(dir, np + core + ns);
    RenameNameStrips(np + core + ns, np, ns);
    StripAround(np, core, ns);
    JoinSplit(p);
  }

  lemma StripAround(prefix: string, core: string, suffix: string)
    ensures StripAffixes(prefix + core + suffix, prefix, suffix) == core
  {
    var name := prefix + core + suffix;
    assert name[..|prefix|] == prefix;
    var n1 := name[|prefix|..];
    assert n1 == core + suffix;
    if suffix != [] {
      assert n1[|n1| - |suffix|..] == suffix;
      assert n1[..|n1| - |suffix|] == core;
    }
  }
}
