/** SCons.Tool.jar: the generators that build the jar command line.  A
    source whose contents start with "Manifest-Version" is the manifest; it
    is passed with the m flag and kept out of the list of files to archive.
    The path of a source relative to JARCHDIR is a parameter. */
module Jar {
  import opened Errors
  import opened Strings

  /** A source node: its path and its contents. */
  datatype Source = Source(path: string, contents: string)

  const ManifestHead: string := "Manifest-Version"

  /** contents[:16] == "Manifest-Version" */
  predicate IsManifest(s: Source)
  {
    PyHead(s.contents, |ManifestHead|) == ManifestHead
  }

  /** The index of the first manifest, or -1. */
  function FirstManifest(sources: seq<Source>): (i: int)
    ensures -1 <= i < |sources|
    ensures i == -1 <==> forall k :: 0 <= k < |sources| ==> !IsManifest(sources[k])
    ensures i >= 0 ==> IsManifest(sources[i]) && forall k :: 0 <= k < i ==> !IsManifest(sources[k])
    decreases |sources|
  {
    if sources == [] then -1
    else if IsManifest(sources[0]) then 0
    else
      var j := FirstManifest(sources[1..]);
      if j == -1 then -1 else j + 1
  }

  /** jarManifest: the first manifest source, or None for ''. */
  method JarManifest(sources: seq<Source>) returns (r: Option<Source>)
    ensures FirstManifest(sources) == -1 ==> r == None
    ensures FirstManifest(sources) >= 0 ==> r == Some(sources[FirstManifest(sources)])
  {
    for i := 0 to |sources|
      invariant forall k :: 0 <= k < i ==> !IsManifest(sources[k])
    {
      if PyHead(sources[i].contents, 16) == ManifestHead {
        return Some(sources[i]);
      }
    }
    return None;
  }

  /** The sources that are not manifests, in their order. */
  function Kept(sources: seq<Source>): seq<Source>
    decreases |sources|
  {
    if sources == [] then []
    else
      var last := sources[|sources| - 1];
      Kept(sources[..|sources| - 1]) + (if IsManifest(last) then [] else [last])
  }

  /** Exactly the sources that are not manifests are archived; in
      particular a manifest never is. */
  lemma {:induction false} KeptMembers(sources: seq<Source>)
    ensures forall x :: x in Kept(sources) <==> x in sources && !IsManifest(x)
    decreases |sources|
  {
    if sources != [] {
      var init := sources[..|sources| - 1];
      KeptMembers(init);
      assert sources == init + [sources[|sources| - 1]];
    }
  }

  /** What one kept source contributes. */
  function SourceArgs(s: Source, jarchdir: string, relative: (string, string) -> string): seq<string>
  {
    if jarchdir != "" then ["-C", jarchdir, relative(s.path, jarchdir)] else [s.path]
  }

  function ArgsFor(kept: seq<Source>, jarchdir: string, relative: (string, string) -> string): seq<string>
    decreases |kept|
  {
    if kept == [] then []
    else ArgsFor(kept[..|kept| - 1], jarchdir, relative) + SourceArgs(kept[|kept| - 1], jarchdir, relative)
  }

  /** jarSources */
  method JarSources(sources: seq<Source>, jarchdir: string, relative: (string, string) -> string)
    returns (result: seq<string>)
    ensures result == ArgsFor(Kept(sources), jarchdir, relative)
  {
    result := [];
    for i := 0 to |sources|
      invariant result == ArgsFor(Kept(sources[..i]), jarchdir, relative)
    {
      var src := sources[i];
      ArgsStep(sources, i, jarchdir, relative);
      if PyHead(src.contents, 16) != ManifestHead {
        if jarchdir != "" {
          var rel := relative(src.path, jarchdir);
          result := result + ["-C", jarchdir, rel];
        } else {
          result := result + [src.path];
        }
      }
    }
    assert sources[..|sources|] == sources;
  }

  lemma KeptSnoc(s: seq<Source>, x: Source)
    ensures Kept(s + [x]) == Kept(s) + (if IsManifest(x) then [] else [x])
  {
    assert (s + [x])[..|s|] == s;
  }

  lemma ArgsSnoc(k: seq<Source>, x: Source, jarchdir: string, relative: (string, string) -> string)
    ensures ArgsFor(k + [x], jarchdir, relative) == ArgsFor(k, jarchdir, relative) + SourceArgs(x, jarchdir, relative)
  {
    assert (k + [x])[..|k|] == k;
  }

  lemma ArgsStep(sources: seq<Source>, i: nat, jarchdir: string, relative: (string, string) -> string)
    requires i < |sources|
    ensures ArgsFor(Kept(sources[..i + 1]), jarchdir, relative) ==
      ArgsFor(Kept(sources[..i]), jarchdir, relative) +
      (if IsManifest(sources[i]) then [] else SourceArgs(sources[i], jarchdir, relative))
  {
    assert sources[..i + 1] == sources[..i] + [sources[i]];
    KeptSnoc(sources[..i], sources[i]);
    if !IsManifest(sources[i]) {
      ArgsSnoc(Kept(sources[..i]), sources[i], jarchdir, relative);
    } else {
      assert Kept(sources[..i]) + [] == Kept(sources[..i]);
    }
  }

  /** Keeping commutes with concatenation: the order of the sources is the
      order of the arguments. */
  lemma {:induction false} KeptAppend(a: seq<Source>, b: seq<Source>)
    ensures Kept(a + b) == Kept(a) + Kept(b)
    decreases |b|
  {
    if b == [] {
      assert a + b == a;
    } else {
      var b1 := b[..|b| - 1];
      var x := b[|b| - 1];
      assert (a + b)[..|a + b| - 1] == a + b1 && (a + b)[|a + b| - 1] == x;
      KeptAppend(a, b1);
    }
  }

  /** Without JARCHDIR the arguments are the kept paths; with it, each kept
      path comes as -C, the directory and the path relative to it. */
  lemma {:induction false} ArgsForShape(kept: seq<Source>, jarchdir: string, relative: (string, string) -> string)
    ensures jarchdir == "" ==> (|ArgsFor(kept, jarchdir, relative)| == |kept| &&
      forall j :: 0 <= j < |kept| ==> ArgsFor(kept, jarchdir, relative)[j] == kept[j].path)
    ensures jarchdir != "" ==> (|ArgsFor(kept, jarchdir, relative)| == 3 * |kept| &&
      forall j :: 0 <= j < |kept| ==>
        ArgsFor(kept, jarchdir, relative)[3 * j] == "-C" &&
        ArgsFor(kept, jarchdir, relative)[3 * j + 1] == jarchdir &&
        ArgsFor(kept, jarchdir, relative)[3 * j + 2] == relative(kept[j].path, jarchdir))
    decreases |kept|
  {
    if kept != [] {
      var k1 := kept[..|kept| - 1];
      ArgsForShape(k1, jarchdir, relative);
      assert forall j :: 0 <= j < |k1| ==> kept[j] == k1[j];
    }
  }

  /** jarFlags: m is added when there is a manifest and the flags lack it. */
  function FlagsFor(sources: seq<Source>, jarflags: string): (r: string)
    ensures 'm' in r <==> 'm' in jarflags || FirstManifest(sources) >= 0
    ensures IsPrefix(jarflags, r) && |r| <= |jarflags| + 1
  {
    if FirstManifest(sources) >= 0 && 'm' !in jarflags then jarflags + "m" else jarflags
  }

  method JarFlags(sources: seq<Source>, jarflags: string) returns (r: string)
    ensures r == FlagsFor(sources, jarflags)
  {
    for i := 0 to |sources|
      invariant forall k :: 0 <= k < i ==> !IsManifest(sources[k])
    {
      if PyHead(sources[i].contents, 16) == ManifestHead {
        if 'm' !in jarflags {
          return jarflags + "m";
        }
        break;
      }
    }
    return jarflags;
  }
}
