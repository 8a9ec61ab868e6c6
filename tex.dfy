/** SCons.Tool.tex: the emitter that lists the side files of a TeX run,
    the test that tells LaTeX sources from plain TeX, and the order and
    number of the actions the LaTeX builder runs.  File contents, the .aux
    names the log file mentions and the state of the log after each run are
    inputs; SCons.Util.splitext is not part of this model, so the base name
    of the first source is an argument. */
module Tex {
  import opened Errors
  import opened Strings

  const MakeIndexCmd: string := "\\makeindex"
  const BibliographyCmd: string := "\\bibliography"

  /** What one source adds: the index files when it calls \makeindex, the
      bibliography files when it calls \bibliography. */
  function SourceBlock(base: string, content: string): seq<string>
  {
    (if Contains(content, MakeIndexCmd) then [base + ".ilg", base + ".ind", base + ".idx"] else []) +
    (if Contains(content, BibliographyCmd) then [base + ".bbl", base + ".blg"] else [])
  }

  /** The blocks of all sources, in source order. */
  function SourceTargets(base: string, contents: seq<string>): seq<string>
    decreases |contents|
  {
    if contents == [] then []
    else SourceTargets(base, contents[..|contents| - 1]) + SourceBlock(base, contents[|contents| - 1])
  }

  /** filter(lambda f: f != b, names) */
  function Drop(names: seq<string>, b: string): seq<string>
    decreases |names|
  {
    if names == [] then []
    else (if names[0] == b then [] else [names[0]]) + Drop(names[1..], b)
  }

  /** The filter keeps exactly the names other than b. */
  lemma {:induction false} DropMembers(names: seq<string>, b: string)
    ensures b !in Drop(names, b)
    ensures forall x :: x in Drop(names, b) <==> x in names && x != b
    decreases |names|
  {
    if names != [] {
      DropMembers(names[1..], b);
      assert names == [names[0]] + names[1..];
    }
  }

  /** What tex_emitter adds: base.aux and base.log, then the blocks of the
      sources, then the .aux files the log names other than base.aux (None
      when there is no log file). */
  function Added(base: string, contents: seq<string>, logAux: Option<seq<string>>): seq<string>
  {
    [base + ".aux", base + ".log"] + SourceTargets(base, contents) +
    (if logAux.Some? then Drop(logAux.value, base + ".aux") else [])
  }

  /** tex_emitter: the given targets, then what it adds. */
  function Emitted(target: seq<string>, base: string, contents: seq<string>, logAux: Option<seq<string>>): seq<string>
  {
    target + Added(base, contents, logAux)
  }

  /** The emitter loop. */
  method TexEmitter(target: seq<string>, base: string, contents: seq<string>, logAux: Option<seq<string>>)
    returns (t: seq<string>)
    ensures t == Emitted(target, base, contents, logAux)
  {
    t := target + [base + ".aux"];
    t := t + [base + ".log"];
    ghost var front := t;
    assert front == target + [base + ".aux", base + ".log"];
    for i := 0 to |contents|
      invariant t == front + SourceTargets(base, contents[..i])
    {
      SourceTargetsStep(base, contents, i);
      t := AppendBlock(t, base, contents[i]);
    }
    assert contents[..|contents|] == contents;
    var kept: seq<string> := [];
    if logAux.Some? {
      kept := DropLoop(logAux.value, base + ".aux");
      t := t + kept;
    }
    EmittedSplit(target, base, contents, logAux);
  }

  lemma EmittedSplit(target: seq<string>, base: string, contents: seq<string>, logAux: Option<seq<string>>)
    ensures Emitted(target, base, contents, logAux) ==
      target + [base + ".aux", base + ".log"] + SourceTargets(base, contents) +
      (if logAux.Some? then Drop(logAux.value, base + ".aux") else [])
  {
    var front := [base + ".aux", base + ".log"];
    var st := SourceTargets(base, contents);
    var aux := if logAux.Some? then Drop(logAux.value, base + ".aux") else [];
    assert Added(base, contents, logAux) == front + st + aux;
    assert target + (front + st + aux) == target + front + st + aux;
  }

  lemma SourceTargetsStep(base: string, contents: seq<string>, i: nat)
    requires i < |contents|
    ensures SourceTargets(base, contents[..i + 1]) == SourceTargets(base, contents[..i]) + SourceBlock(base, contents[i])
  {
    assert contents[..i + 1][..i] == contents[..i];
  }

  /** One source's checks and appends. */
  method AppendBlock(t0: seq<string>, base: string, content: string) returns (t: seq<string>)
    ensures t == t0 + SourceBlock(base, content)
  {
    t := t0;
    if Find(content, MakeIndexCmd) != -1 {
      t := t + [base + ".ilg"];
      t := t + [base + ".ind"];
      t := t + [base + ".idx"];
    }
    if Find(content, BibliographyCmd) != -1 {
      t := t + [base + ".bbl"];
      t := t + [base + ".blg"];
    }
  }

  /** filter as a loop. */
  method DropLoop(names: seq<string>, b: string) returns (kept: seq<string>)
    ensures kept == Drop(names, b)
  {
    kept := [];
    var i := |names|;
    while i > 0
      invariant 0 <= i <= |names|
      invariant kept == Drop(names[i..], b)
    {
      assert names[i - 1..][1..] == names[i..];
      if names[i - 1] != b {
        kept := [names[i - 1]] + kept;
      }
      i := i - 1;
    }
  }

  /** The sources' blocks are added source by source. */
  lemma {:induction false} SourceTargetsAppend(base: string, a: seq<string>, b: seq<string>)
    ensures SourceTargets(base, a + b) == SourceTargets(base, a) + SourceTargets(base, b)
    decreases |b|
  {
    if b == [] {
      assert a + b == a;
    } else {
      var b1 := b[..|b| - 1];
      calc {
        SourceTargets(base, a + b);
      == { assert (a + b)[..|a + b| - 1] == a + b1 && (a + b)[|a + b| - 1] == b[|b| - 1]; }
        SourceTargets(base, a + b1) + SourceBlock(base, b[|b| - 1]);
      == { SourceTargetsAppend(base, a, b1); }
        SourceTargets(base, a) + SourceTargets(base, b1) + SourceBlock(base, b[|b| - 1]);
      }
    }
  }

  /** The names a source can add. */
  predicate SideFile(base: string, x: string)
  {
    x in [base + ".ilg", base + ".ind", base + ".idx", base + ".bbl", base + ".blg"]
  }

  lemma {:induction false} SourceTargetsNames(base: string, contents: seq<string>)
    ensures forall x :: x in SourceTargets(base, contents) ==> SideFile(base, x)
    decreases |contents|
  {
    if contents != [] {
      SourceTargetsNames(base, contents[..|contents| - 1]);
    }
  }

  /** The emitter keeps the given targets in front, always adds base.aux
      and base.log right after them, and adds nothing but side files of the
      base name and other .aux files the log names. */
  lemma EmittedShape(target: seq<string>, base: string, contents: seq<string>, logAux: Option<seq<string>>)
    ensures var r := Emitted(target, base, contents, logAux);
      |r| >= |target| + 2 && r[..|target|] == target &&
      r[|target|] == base + ".aux" && r[|target| + 1] == base + ".log"
    ensures var r := Emitted(target, base, contents, logAux);
      forall x :: x in r[|target| + 2..] ==>
        SideFile(base, x) || (logAux.Some? && x in logAux.value && x != base + ".aux")
  {
    var r := Emitted(target, base, contents, logAux);
    var added := Added(base, contents, logAux);
    assert r[..|target|] == target;
    assert r[|target|..] == added;
    assert r[|target| + 2..] == added[2..];
    AddedNames(base, contents, logAux);
  }

  lemma AddedNames(base: string, contents: seq<string>, logAux: Option<seq<string>>)
    ensures var added := Added(base, contents, logAux);
      forall x :: x in added[2..] ==>
        SideFile(base, x) || (logAux.Some? && x in logAux.value && x != base + ".aux")
  {
    var st := SourceTargets(base, contents);
    var aux := if logAux.Some? then Drop(logAux.value, base + ".aux") else [];
    assert Added(base, contents, logAux)[2..] == st + aux;
    SourceTargetsNames(base, contents);
    if logAux.Some? {
      DropMembers(logAux.value, base + ".aux");
    }
    forall x | x in st + aux
      ensures SideFile(base, x) || (logAux.Some? && x in logAux.value && x != base + ".aux")
    {
      if x !in st {
        assert x in aux;
      }
    }
  }

  /** `\\document(style|class)` */
  predicate LaTeXContent(content: string)
  {
    Contains(content, "\\documentstyle") || Contains(content, "\\documentclass")
  }

  /** is_LaTeX: 1 as soon as a source declares a LaTeX document. */
  method IsLaTeX(contents: seq<string>) returns (r: int)
    ensures r == 1 <==> exists i :: 0 <= i < |contents| && LaTeXContent(contents[i])
    ensures r == 0 || r == 1
  {
    for i := 0 to |contents|
      invariant forall j :: 0 <= j < i ==> !LaTeXContent(contents[j])
    {
      if Find(contents[i], "\\documentstyle") != -1 || Find(contents[i], "\\documentclass") != -1 {
        return 1;
      }
    }
    return 0;
  }

  /** What InternalLaTeXAuxAction runs. */
  datatype Action = LaTeXRun | BibTeXRun | MakeIndexRun

  /** The reruns: while retries remain, LaTeX runs again when the log
      exists and asks for a rerun or reports undefined references.
      logAfter(t) is the state of the log after t reruns: None when there is
      no log file, otherwise whether it asks for another run. */
  function Reruns(retries: int, logAfter: nat -> Option<bool>, t: nat): seq<Action>
    decreases if retries > t then retries - t else 0
  {
    if t >= retries then []
    else if logAfter(t) == Some(true) then [LaTeXRun] + Reruns(retries, logAfter, t + 1)
    else []
  }

  /** A first LaTeX run, BibTeX when an .aux file the log names contains
      bibdata, MakeIndex followed by LaTeX when there is an .idx file, then
      the reruns. */
  function AuxActions(retries: int, bibdata: bool, idxExists: bool, logAfter: nat -> Option<bool>): seq<Action>
  {
    [LaTeXRun] + (if bibdata then [BibTeXRun] else []) + (if idxExists then [MakeIndexRun, LaTeXRun] else []) +
    Reruns(retries, logAfter, 0)
  }

  /** The builder's rerun loop. */
  method RerunLoop(retries: int, logAfter: nat -> Option<bool>) returns (runs: seq<Action>)
    ensures runs == Reruns(retries, logAfter, 0)
  {
    runs := [];
    var trial := 0;
    while trial < retries
      invariant 0 <= trial && |runs| == trial
      invariant runs + Reruns(retries, logAfter, trial) == Reruns(retries, logAfter, 0)
      decreases retries - trial
    {
      RerunsStep(retries, logAfter, trial);
      if logAfter(trial) != Some(true) {
        assert runs + [] == runs;
        break;
      }
      assert runs + [LaTeXRun] + Reruns(retries, logAfter, trial + 1) == runs + Reruns(retries, logAfter, trial);
      runs := runs + [LaTeXRun];
      trial := trial + 1;
    }
  }

  lemma RerunsStep(retries: int, logAfter: nat -> Option<bool>, t: nat)
    requires t < retries
    ensures logAfter(t) == Some(true) ==> Reruns(retries, logAfter, t) == [LaTeXRun] + Reruns(retries, logAfter, t + 1)
    ensures logAfter(t) != Some(true) ==> Reruns(retries, logAfter, t) == []
  {
  }

  method LaTeXAuxAction(retries: int, bibdata: bool, idxExists: bool, logAfter: nat -> Option<bool>)
    returns (actions: seq<Action>)
    ensures actions == AuxActions(retries, bibdata, idxExists, logAfter)
  {
    actions := [LaTeXRun];
    if bibdata {
      actions := actions + [BibTeXRun];
    }
    if idxExists {
      actions := actions + [MakeIndexRun, LaTeXRun];
    }
    var reruns := RerunLoop(retries, logAfter);
    actions := actions + reruns;
  }

  /** At most LATEXRETRIES reruns, all of them LaTeX, and none past the
      first log that no longer asks for one. */
  lemma {:induction false} RerunsBound(retries: int, logAfter: nat -> Option<bool>, t: nat)
    ensures |Reruns(retries, logAfter, t)| <= (if retries > t then retries - t else 0)
    ensures forall i :: 0 <= i < |Reruns(retries, logAfter, t)| ==> Reruns(retries, logAfter, t)[i] == LaTeXRun
    ensures forall k :: t <= k && logAfter(k) != Some(true) ==> |Reruns(retries, logAfter, t)| <= k - t
    decreases if retries > t then retries - t else 0
  {
    if t < retries && logAfter(t) == Some(true) {
      RerunsBound(retries, logAfter, t + 1);
    }
  }

  /** So the whole builder runs LaTeX at most LATEXRETRIES + 2 times. */
  lemma AuxActionsBound(retries: int, bibdata: bool, idxExists: bool, logAfter: nat -> Option<bool>)
    ensures |AuxActions(retries, bibdata, idxExists, logAfter)| <=
      1 + (if bibdata then 1 else 0) + (if idxExists then 2 else 0) + (if retries > 0 then retries else 0)
    ensures AuxActions(retries, bibdata, idxExists, logAfter)[0] == LaTeXRun
  {
    RerunsBound(retries, logAfter, 0);
  }
}
