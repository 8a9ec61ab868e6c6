/** SCons.Tool.javah: the emitter that names the C headers javah writes for
    a set of class files, and the generator of its output flag.  Nodes keep
    the attributes the emitter sets on them.  env.Dir(..).rdir(), the
    javac class-name rule, os.sep and the lookup of a file in the target
    directory are parameters. */
module JavaH {
  import opened Errors
  import opened Strings

  /** The node class of a target: File, Dir, or an Entry not yet decided. */
  datatype Kind = FileKind | DirKind | EntryKind

  /** A file system node and the java attributes stored on it; None is an
      attribute that is not set. */
  class JavaNode {
    const path: string
    var kind: Kind
    var javaClassdir: Option<string>
    var javaClassname: Option<string>
    var javaLookupdir: Option<string>

    constructor(path: string, kind: Kind)
      ensures this.path == path && this.kind == kind
      ensures javaClassdir == None && javaClassname == None && javaLookupdir == None
    {
      this.path := path;
      this.kind := kind;
      javaClassdir := None;
      javaClassname := None;
      javaLookupdir := None;
    }
  }

  const DefaultClassSuffix: string := ".class"

  /** env.get('JAVACLASSSUFFIX', '.class') */
  function ClassSuffix(envSuffix: Option<string>): (r: string)
    ensures envSuffix.None? ==> r == DefaultClassSuffix
    ensures envSuffix.Some? ==> r == envSuffix.value
  {
    if envSuffix.Some? then envSuffix.value else DefaultClassSuffix
  }

  /** The class directory before rdir(): JAVACLASSDIR when it is set and not
      empty, else the classdir attribute of the first source, else ".".
      firstAttr is None when there is no source and Some(a) with the first
      source's attribute a otherwise. */
  function ClassdirName(envClassdir: Option<string>, firstAttr: Option<Option<string>>): (r: string)
    ensures envClassdir.Some? && envClassdir.value != "" ==> r == envClassdir.value
    ensures (envClassdir.None? || envClassdir.value == "") && (firstAttr.None? || firstAttr.value.None?) ==> r == "."
    ensures (envClassdir.None? || envClassdir.value == "") && firstAttr.Some? && firstAttr.value.Some? ==>
      r == firstAttr.value.value
  {
    if envClassdir.Some? && envClassdir.value != "" then envClassdir.value
    else if firstAttr.Some? && firstAttr.value.Some? then firstAttr.value.value
    else "."
  }

  /** c_: None for the current directory, else the directory and a separator. */
  function DirPrefix(classdir: string, sep: string): (r: Option<string>)
    ensures r.None? <==> classdir == "."
    ensures r.Some? ==> r.value == classdir + sep
  {
    if classdir == "." then None else Some(classdir + sep)
  }

  /** The path without the class directory prefix and the class suffix, put
      through the javac class-name rule. */
  function DerivedClassName(path: string, prefix: Option<string>, suffix: string, javac: string -> string): string
  {
    var a := if prefix.Some? && prefix.value != "" && PyHead(path, |prefix.value|) == prefix.value
             then path[|prefix.value|..] else path;
    var b := if suffix != "" && PyLast(a, |suffix|) == suffix then a[..|a| - |suffix|] else a;
    javac(b)
  }

  /** A class file under the class directory gives back the name it was
      made from, in both the current directory and another one. */
  lemma DerivedClassNameRoundTrip(classdir: string, sep: string, name: string, suffix: string, javac: string -> string)
    requires suffix != "" && sep != ""
    ensures classdir != "." ==>
      DerivedClassName(classdir + sep + name + suffix, DirPrefix(classdir, sep), suffix, javac) == javac(name)
    ensures DerivedClassName(name + suffix, DirPrefix(".", sep), suffix, javac) == javac(name)
  {
    var p := classdir + sep;
    var path := p + name + suffix;
    assert PyHead(path, |p|) == p;
    assert path[|p|..] == name + suffix;
    assert PyLast(name + suffix, |suffix|) == suffix;
    assert (name + suffix)[..|name + suffix| - |suffix|] == name;
  }

  /** With no prefix and no suffix to strip, the path itself is the name. */
  lemma DerivedClassNamePlain(path: string, prefix: Option<string>, suffix: string, javac: string -> string)
    requires prefix.None? || !IsPrefix(prefix.value, path)
    requires suffix == "" || !IsSuffix(suffix, path)
    ensures DerivedClassName(path, prefix, suffix, javac) == javac(path)
  {
    if prefix.Some? && prefix.value != "" && |prefix.value| > |path| {
      assert PyHead(path, |prefix.value|) == path;
    }
    if suffix != "" && |suffix| >= |path| {
      assert PyLast(path, |suffix|) == path;
    }
  }

  /** The header javah writes for a class: dots become underscores, then ".h". */
  function HeaderName(classname: string): (r: string)
    ensures |r| == |classname| + 2 && IsSuffix(".h", r)
    ensures forall i :: 0 <= i < |classname| ==> r[i] != '.' && (classname[i] != '.' ==> r[i] == classname[i])
  {
    ReplaceChar(classname, '.', '_') + ".h"
  }

  /** The class name a source ends up with: its attribute when it had one,
      else the derived name. */
  function FinalClassName(attr: Option<string>, path: string, prefix: Option<string>, suffix: string,
                          javac: string -> string): string
  {
    if attr.Some? then attr.value else DerivedClassName(path, prefix, suffix, javac)
  }

  /** emit_java_headers, first half: the class directory and the class
      name of every source.  rfile() of a source is the source itself. */
  method SetClassAttributes(source: seq<JavaNode>, classdir: string, prefix: Option<string>, suffix: string,
                            javac: string -> string)
    modifies set n | n in source
    ensures forall i :: 0 <= i < |source| ==> source[i].javaClassdir == Some(classdir)
    ensures forall i :: 0 <= i < |source| ==>
      source[i].javaClassname == Some(FinalClassName(old(source[i].javaClassname), source[i].path, prefix, suffix, javac))
    ensures forall i :: 0 <= i < |source| ==> source[i].kind == old(source[i].kind) && source[i].javaLookupdir == old(source[i].javaLookupdir)
  {
    for i := 0 to |source|
      invariant forall j :: 0 <= j < i ==> source[j].javaClassdir == Some(classdir)
      invariant forall j :: 0 <= j < i ==>
        source[j].javaClassname == Some(FinalClassName(old(source[j].javaClassname), source[j].path, prefix, suffix, javac))
      invariant forall j :: i <= j < |source| && source[j] !in source[..i] ==>
        source[j].javaClassname == old(source[j].javaClassname)
      invariant forall j :: 0 <= j < |source| ==> source[j].kind == old(source[j].kind) && source[j].javaLookupdir == old(source[j].javaLookupdir)
    {
      var src := source[i];
      var classname: string;
      if src.javaClassname.Some? {
        classname := src.javaClassname.value;
      } else {
        classname := DerivedClassName(src.path, prefix, suffix, javac);
      }
      src.javaClassdir := Some(classdir);
      src.javaClassname := Some(classname);
    }
  }

  /** emit_java_headers, second half, for a target that is not a File: the
      target becomes a Dir, and each source gets a header file in it that
      remembers the directory. */
  method HeaderTargets(target0: JavaNode, source: seq<JavaNode>, fileIn: (string, string) -> string)
    returns (tlist: seq<JavaNode>)
    requires target0.kind != FileKind
    requires forall i :: 0 <= i < |source| ==> source[i].javaClassname.Some?
    modifies target0
    ensures target0.kind == DirKind
    ensures target0.javaClassdir == old(target0.javaClassdir) && target0.javaClassname == old(target0.javaClassname)
    ensures target0.javaLookupdir == old(target0.javaLookupdir)
    ensures |tlist| == |source|
    ensures forall i :: 0 <= i < |tlist| ==> fresh(tlist[i])
    ensures forall i :: 0 <= i < |tlist| ==>
      tlist[i].path == fileIn(target0.path, HeaderName(source[i].javaClassname.value)) &&
      tlist[i].kind == FileKind && tlist[i].javaLookupdir == Some(target0.path)
  {
    target0.kind := DirKind;
    label Morphed:
    tlist := [];
    for i := 0 to |source|
      invariant unchanged@Morphed(target0)
      invariant |tlist| == i
      invariant forall j :: 0 <= j < i ==> fresh(tlist[j])
      invariant forall j :: 0 <= j < i ==>
        tlist[j].path == fileIn(target0.path, HeaderName(source[j].javaClassname.value)) &&
        tlist[j].kind == FileKind && tlist[j].javaLookupdir == Some(target0.path)
    {
      var fname := HeaderName(source[i].javaClassname.value);
      var t := new JavaNode(fileIn(target0.path, fname), FileKind);
      t.javaLookupdir := Some(target0.path);
      tlist := tlist + [t];
    }
  }

  /** JavaHOutFlagGenerator for a target list: -d and the lookup directory
      when the first target has one, else -o and the target. */
  function OutFlag(target: seq<JavaNode>): (r: Result<string>)
    reads if |target| > 0 then {target[0]} else {}
    ensures target == [] ==> r == Err(IndexError)
    ensures target != [] && target[0].javaLookupdir.Some? ==> r == Ok("-d " + target[0].javaLookupdir.value)
    ensures target != [] && target[0].javaLookupdir.None? ==> r == Ok("-o " + target[0].path)
  {
    if target == [] then Err(IndexError)
    else if target[0].javaLookupdir.Some? then Ok("-d " + target[0].javaLookupdir.value)
    else Ok("-o " + target[0].path)
  }

  /** emit_java_headers: every source gets the class directory and its class
      name; a File target list is returned as it is, any other first target
      turns into the directory of one header per source, and the output flag
      then names that directory.  Nothing else changes: the other targets
      keep their attributes unless they are sources too, and the sources
      keep their kind and lookup directory unless one is the first target.
      A node's path is a constant of the node, so no path changes. */
  method EmitJavaHeaders(target: seq<JavaNode>, source: seq<JavaNode>, envSuffix: Option<string>,
                         envClassdir: Option<string>, rdir: string -> string, javac: string -> string,
                         sep: string, fileIn: (string, string) -> string)
    returns (r: Result<seq<JavaNode>>)
    modifies set n | n in source, set n | n in target
    ensures var cd := rdir(ClassdirName(envClassdir, if source == [] then None else Some(old(source[0].javaClassdir))));
      forall i :: 0 <= i < |source| ==>
        source[i].javaClassdir == Some(cd) &&
        source[i].javaClassname == Some(FinalClassName(old(source[i].javaClassname), source[i].path,
                                                       DirPrefix(cd, sep), ClassSuffix(envSuffix), javac))
    ensures target == [] ==> r == Err(IndexError)
    ensures target != [] && old(target[0].kind) == FileKind ==> r == Ok(target) && target[0].kind == FileKind
    ensures target != [] && old(target[0].kind) != FileKind ==>
      r.Ok? && target[0].kind == DirKind && |r.value| == |source| &&
      (forall i :: 0 <= i < |source| ==> fresh(r.value[i])) &&
      (forall i :: 0 <= i < |source| ==>
        r.value[i].path == fileIn(target[0].path, HeaderName(source[i].javaClassname.value)) &&
        r.value[i].kind == FileKind && r.value[i].javaLookupdir == Some(target[0].path)) &&
      (source != [] ==> OutFlag(r.value) == Ok("-d " + target[0].path))
    ensures forall i :: 0 <= i < |source| && (target == [] || source[i] != target[0]) ==>
      source[i].kind == old(source[i].kind) && source[i].javaLookupdir == old(source[i].javaLookupdir)
    ensures target != [] && target[0] !in source ==>
      target[0].javaClassdir == old(target[0].javaClassdir) && target[0].javaClassname == old(target[0].javaClassname) &&
      target[0].javaLookupdir == old(target[0].javaLookupdir)
    ensures forall k :: 1 <= k < |target| && target[k] !in source && target[k] != target[0] ==>
      target[k].kind == old(target[k].kind) && target[k].javaClassdir == old(target[k].javaClassdir) &&
      target[k].javaClassname == old(target[k].javaClassname) && target[k].javaLookupdir == old(target[k].javaLookupdir)
  {
    var suffix := ClassSuffix(envSuffix);
    var firstAttr: Option<Option<string>> := if source == [] then None else Some(source[0].javaClassdir);
    var classdir := rdir(ClassdirName(envClassdir, firstAttr));
    var prefix := DirPrefix(classdir, sep);
    SetClassAttributes(source, classdir, prefix, suffix, javac);
    if target == [] {
      return Err(IndexError);
    }
    if target[0].kind == FileKind {
      return Ok(target);
    }
    var tlist := HeaderTargets(target[0], source, fileIn);
    r := Ok(tlist);
  }
}
