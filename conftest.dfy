/** SCons.Conftest: the language table, the HAVE_ symbol and its config.h
    line, the yes/no report and the CheckLib search over libraries.  The
    context the checks run in is a class: its havedict, config_h text, LIBS
    and the messages it displays change as the checks run; building the test
    program is a parameter. */
module Conftest {
  import opened Errors
  import opened Strings
  import opened Values

  /** What _lang2suffix returns: (lang, suffix, None) or (None, None, msg). */
  datatype LangInfo = Supported(name: string, suffix: string) | Unsupported(msg: string)

  const CNames: seq<string> := ["C", "c"]
  const CxxNames: seq<string> := ["c++", "C++", "cpp", "CXX", "cxx"]

  /** A Python string argument that is truthy: given and not empty. */
  predicate HasText(s: Option<string>) { s.Some? && s.value != "" }

  /** _lang2suffix: no language means C. */
  function LangToSuffix(lang: Option<string>): (r: LangInfo)
    ensures r == Supported("C", ".c") <==> !HasText(lang) || lang.value in CNames
    ensures r == Supported("C++", ".cpp") <==> HasText(lang) && lang.value in CxxNames
    ensures r.Unsupported? <==> HasText(lang) && lang.value !in CNames && lang.value !in CxxNames
    ensures r.Unsupported? ==> r.msg == "Unsupported language: " + lang.value
  {
    if !HasText(lang) || lang.value in CNames then Supported("C", ".c")
    else if lang.value in CxxNames then Supported("C++", ".cpp")
    else Unsupported("Unsupported language: " + lang.value)
  }

  /** The unified name a supported language is reported under is itself
      recognised, as the same language. */
  lemma LangToSuffixCanonical(lang: Option<string>)
    requires LangToSuffix(lang).Supported?
    ensures LangToSuffix(Some(LangToSuffix(lang).name)) == LangToSuffix(lang)
  {
  }

  /** The characters a HAVE_ symbol keeps: [A-Z0-9_]. */
  predicate KeyChar(c: char) { 'A' <= c <= 'Z' || '0' <= c <= '9' || c == '_' }

  /** The symbol _Have stores: upper case, every other character '_'. */
  function HaveKey(key: string): (r: string)
    ensures |r| == |key|
    ensures forall i :: 0 <= i < |r| ==> KeyChar(r[i])
    ensures forall i :: 0 <= i < |key| ==> r[i] == (if KeyChar(UpperChar(key[i])) then UpperChar(key[i]) else '_')
  {
    seq(|key|, i requires 0 <= i < |key| => var c := UpperChar(key[i]); if KeyChar(c) then c else '_')
  }

  /** Normalising a symbol twice is normalising it once, and a symbol made
      only of [A-Z0-9_] is kept as it is. */
  lemma HaveKeyIdempotent(key: string)
    ensures HaveKey(HaveKey(key)) == HaveKey(key)
    ensures (forall i :: 0 <= i < |key| ==> KeyChar(key[i])) ==> HaveKey(key) == key
  {
    var k := HaveKey(key);
    forall i | 0 <= i < |k| ensures HaveKey(k)[i] == k[i] {
      KeyCharUpper(k[i]);
    }
    if forall i :: 0 <= i < |key| ==> KeyChar(key[i]) {
      forall i | 0 <= i < |key| ensures HaveKey(key)[i] == key[i] {
        KeyCharUpper(key[i]);
      }
    }
  }

  lemma KeyCharUpper(c: char)
    requires KeyChar(c)
    ensures UpperChar(c) == c
  {
  }

  /** Case does not matter: have_foo and HAVE_FOO name the same symbol. */
  lemma HaveKeyIgnoresCase(key: string)
    ensures HaveKey(ToLower(key)) == HaveKey(key)
  {
    forall i | 0 <= i < |key| ensures HaveKey(ToLower(key))[i] == HaveKey(key)[i] {
      assert UpperChar(LowerChar(key[i])) == UpperChar(key[i]);
    }
  }

  /** The text a value other than 0 and 1 is defined to: %d of an int,
      str() of anything else. */
  function HaveText(have: Value): string
  {
    if have.Int? then IntToString(have.i) else ToString(have)
  }

  const UndefOpen: string := "/* #undef "
  const UndefClose: string := " */\n"
  const DefineOpen: string := "#define "

  /** The config.h line _Have writes for a symbol. */
  function HaveLine(key: string, have: Value): (line: string)
  {
    if have == Int(1) then DefineOpen + key + "\n"
    else if have == Int(0) then UndefOpen + key + UndefClose
    else DefineOpen + key + " " + HaveText(have) + "\n"
  }

  /** What a config.h line says: a symbol defined, with or without a
      value, or a symbol recorded as not defined. */
  datatype Define = Defined(key: string, text: Option<string>) | Undefined(key: string)

  /** Reading a config.h line back. */
  function ParseLine(line: string): Option<Define>
  {
    if |line| >= |UndefOpen| + |UndefClose| && IsPrefix(UndefOpen, line) && IsSuffix(UndefClose, line) then
      Some(Undefined(line[|UndefOpen|..|line| - |UndefClose|]))
    else if |line| > |DefineOpen| && IsPrefix(DefineOpen, line) && line[|line| - 1] == '\n' then
      var body := line[|DefineOpen|..|line| - 1];
      if ' ' in body then
        var i := IndexOf(body, ' ');
        Some(Defined(body[..i], Some(body[i + 1..])))
      else Some(Defined(body, None))
    else None
  }

  /** The line for a symbol reads back as that symbol: defined when the
      value is 1, recorded as undefined when it is 0, and defined to the
      value's text otherwise. */
  lemma HaveLineParses(key: string, have: Value)
    ensures var k := HaveKey(key);
      ParseLine(HaveLine(k, have)) ==
        Some(if have == Int(1) then Defined(k, None)
             else if have == Int(0) then Undefined(k)
             else Defined(k, Some(HaveText(have))))
  {
    var k := HaveKey(key);
    assert ' ' !in k by {
      forall i | 0 <= i < |k| ensures k[i] != ' ' { assert KeyChar(k[i]); }
    }
    if have == Int(0) {
      UndefParses(k);
    } else if have == Int(1) {
      DefineParses(k);
    } else {
      DefineValueParses(k, HaveText(have));
    }
  }

  lemma UndefParses(k: string)
    ensures ParseLine(UndefOpen + k + UndefClose) == Some(Undefined(k))
  {
    var line := UndefOpen + k + UndefClose;
    assert line[..|UndefOpen|] == UndefOpen;
    assert line[|line| - |UndefClose|..] == UndefClose;
    assert line[|UndefOpen|..|line| - |UndefClose|] == k;
  }

  lemma DefineParses(k: string)
    requires ' ' !in k
    ensures ParseLine(DefineOpen + k + "\n") == Some(Defined(k, None))
  {
    var line := DefineOpen + k + "\n";
    NotUndef(line);
    assert line[..|DefineOpen|] == DefineOpen;
    assert line[|DefineOpen|..|line| - 1] == k;
  }

  lemma DefineValueParses(k: string, text: string)
    requires ' ' !in k
    ensures ParseLine(DefineOpen + k + " " + text + "\n") == Some(Defined(k, Some(text)))
  {
    var line := DefineOpen + k + " " + text + "\n";
    NotUndef(line);
    assert line[..|DefineOpen|] == DefineOpen;
    var body := line[|DefineOpen|..|line| - 1];
    assert body == k + " " + text;
    SpaceAfterKey(k, text);
  }

  /** A line starting with '#' is not an #undef line. */
  lemma NotUndef(line: string)
    requires line != [] && line[0] == '#'
    ensures !IsPrefix(UndefOpen, line)
  {
    if |UndefOpen| <= |line| {
      assert line[..|UndefOpen|][0] == '#';
    }
  }

  lemma SpaceAfterKey(k: string, text: string)
    requires ' ' !in k
    ensures var body := k + " " + text;
      ' ' in body && IndexOf(body, ' ') == |k| && body[..|k|] == k && body[|k| + 1..] == text
  {
    var body := k + " " + text;
    assert body[|k|] == ' ';
    IndexOfAfter(k, " " + text);
  }

  /** The first space of k + s, with none in k, is at |k|. */
  lemma {:induction false} IndexOfAfter(k: string, s: string)
    requires ' ' !in k && s != [] && s[0] == ' '
    ensures ' ' in k + s && IndexOf(k + s, ' ') == |k|
    decreases |k|
  {
    assert (k + s)[|k|] == ' ';
    if k != [] {
      assert (k + s)[1..] == k[1..] + s;
      assert k[0] in k;
      IndexOfAfter(k[1..], s);
    }
  }

  /** `not ret`: a test passed when its message is empty. */
  function Passed(ret: string): Value { if ret == "" then Int(1) else Int(0) }

  /** What the context's state consists of, as a value. */
  datatype State = State(havedict: map<string, Value>, configH: Option<string>, libs: seq<string>, shown: seq<string>)

  /** _Have: the symbol is recorded in havedict; its line goes to the header
      file when there is one (not modelled: a file write), otherwise to
      config_h when the context has one. */
  function HaveState(st: State, headerFile: Option<string>, key: string, have: Value): (r: State)
    ensures r.havedict == st.havedict[HaveKey(key) := have]
    ensures r.libs == st.libs && r.shown == st.shown
    ensures !HasText(headerFile) && st.configH.Some? ==>
      r.configH.Some? && IsPrefix(st.configH.value, r.configH.value) &&
      ParseLine(r.configH.value[|st.configH.value|..]).Some?
    ensures HasText(headerFile) || st.configH.None? ==> r.configH == st.configH
  {
    var k := HaveKey(key);
    var line := HaveLine(k, have);
    HaveLineParses(key, have);
    var c := if !HasText(headerFile) && st.configH.Some? then Some(st.configH.value + line) else st.configH;
    assert c != st.configH ==> c.value[|st.configH.value|..] == line;
    st.(havedict := st.havedict[k := have], configH := c)
  }

  /** _YesNoResult: the symbol (when there is one) records whether the test
      passed, and "yes" or "no" is displayed.  The failure log is not
      modelled. */
  function YesNoState(st: State, headerFile: Option<string>, ret: string, key: Option<string>): (r: State)
    ensures key.Some? ==> HaveKey(key.value) in r.havedict && r.havedict[HaveKey(key.value)] == Passed(ret)
    ensures key.None? ==> r.havedict == st.havedict && r.configH == st.configH
    ensures r.libs == st.libs
    ensures r.shown == st.shown + [if ret == "" then "yes\n" else "no\n"]
  {
    var s := if key.Some? then HaveState(st, headerFile, key.value, Passed(ret)) else st;
    s.(shown := s.shown + [if ret == "" then "yes\n" else "no\n"])
  }

  /** calltext: the text before the first newline followed by "..", when
      that newline is not the first character; otherwise the call without a
      trailing ';', or the call as given. */
  function CallText(call: string): (r: string)
    requires call != []
    ensures '\n' in call && call[0] != '\n' ==>
      var k := IndexOf(call, '\n');
      k > 0 && r == call[..k] + ".." && '\n' !in call[..k]
    ensures '\n' !in call || call[0] == '\n' ==> r == (if call[|call| - 1] == ';' then call[..|call| - 1] else call)
  {
    var i := Find(call, "\n");
    FindChar(call, '\n');
    if i > 0 then call[..i] + ".."
    else if call[|call| - 1] == ';' then call[..|call| - 1]
    else call
  }

  /** string.find for one character is its first index, or -1. */
  lemma FindChar(s: string, c: char)
    ensures Find(s, [c]) == (if c in s then IndexOf(s, c) else -1)
  {
    var r := Find(s, [c]);
    if c in s {
      var k := IndexOf(s, c);
      assert s[k..k + 1] == [c] && OccursAt(s, [c], k);
      forall j | 0 <= j < k ensures !OccursAt(s, [c], j) {
        assert s[..k][j] == s[j] && s[j..j + 1][0] == s[j];
      }
      assert r != -1;
      assert r <= k;
      assert OccursAt(s, [c], r);
      assert r >= k;
    } else {
      forall j | 0 <= j <= |s| ensures !OccursAt(s, [c], j) {
        assert j + 1 <= |s| ==> s[j..j + 1][0] == s[j];
      }
    }
  }

  /** The call the test program makes: the given one, or `f();` for a
      function other than main when none is given. */
  function EffectiveCall(funcName: Option<string>, call: Option<string>): Option<string>
  {
    if HasText(funcName) && funcName.value != "main" && !HasText(call) then Some(funcName.value + "();")
    else call
  }

  /** The test program CheckLib builds. */
  function ProgramText(headerFile: Option<string>, header: Option<string>, funcName: Option<string>,
                       call: Option<string>): (text: string)
    ensures IsSuffix("\nint\nmain() {\n  " + (if HasText(EffectiveCall(funcName, call)) then EffectiveCall(funcName, call).value else "")
                     + "\nreturn 0;\n}\n", text)
  {
    var includeText := if HasText(headerFile) then "#include \"" + headerFile.value + "\"" else "";
    var hdr := if HasText(header) then header.value else "";
    var t0 := "\n" + includeText + "\n" + hdr;
    var t1 :=
      if HasText(funcName) && funcName.value != "main" && hdr == "" then
        t0 + "\n#ifdef __cplusplus\nextern \"C\"\n#endif\nchar " + funcName.value + "();\n"
      else t0;
    var c := EffectiveCall(funcName, call);
    t1 + ("\nint\nmain() {\n  " + (if HasText(c) then c.value else "") + "\nreturn 0;\n}\n")
  }

  /** What stays fixed over the libraries CheckLib tries. */
  datatype Check = Check(text: string, suffix: string, lang: string, callText: Option<string>,
                         extra: seq<string>, autoadd: bool)

  /** `if lib_name:` */
  predicate Named(lib: Option<string>) { HasText(lib) }

  /** %s of a library name that may be None. */
  function LibText(lib: Option<string>): string { if lib.Some? then lib.value else "None" }

  function CheckingMessage(c: Check, lib: Option<string>): string
  {
    if c.callText.Some? then "Checking for " + c.callText.value + " in " + c.lang + " library " + LibText(lib) + "... "
    else "Checking for " + c.lang + " library " + LibText(lib) + "... "
  }

  /** LIBS while a library is tried: the library and the extra libraries
      appended, or LIBS untouched for a None library. */
  function LibsFor(orig: seq<string>, lib: Option<string>, extra: seq<string>): seq<string>
  {
    if Named(lib) then orig + [lib.value] + extra else orig
  }

  /** The program builds with lib added to LIBS. */
  predicate Succeeds(orig: seq<string>, build: (string, string, seq<string>) -> string, c: Check, lib: Option<string>)
  {
    build(c.text, c.suffix, LibsFor(orig, lib, c.extra)) == ""
  }

  /** One library of the CheckLib loop: LIBS is put back after a failure or
      when autoadd is off. */
  function TryLib(st: State, headerFile: Option<string>, build: (string, string, seq<string>) -> string,
                  c: Check, lib: Option<string>): (r: (State, string))
    ensures r.1 == build(c.text, c.suffix, LibsFor(st.libs, lib, c.extra))
    ensures r.0.libs == (if r.1 == "" && c.autoadd then LibsFor(st.libs, lib, c.extra) else st.libs)
    ensures r.0.shown == st.shown + [CheckingMessage(c, lib), if r.1 == "" then "yes\n" else "no\n"]
  {
    var s1 := st.(shown := st.shown + [CheckingMessage(c, lib)]);
    var s2 := s1.(libs := LibsFor(st.libs, lib, c.extra));
    var ret := build(c.text, c.suffix, s2.libs);
    var s3 := YesNoState(s2, headerFile, ret, if Named(lib) then Some("HAVE_LIB" + lib.value) else None);
    var s4 := if Named(lib) && (ret != "" || !c.autoadd) then s3.(libs := st.libs) else s3;
    (s4, ret)
  }

  /** The loop over the libraries; `last` is the message of the previous
      failure, None before the first library. */
  function TryLibs(st: State, headerFile: Option<string>, build: (string, string, seq<string>) -> string,
                   c: Check, libs: seq<Option<string>>, last: Option<string>): (State, Result<string>)
    decreases |libs|
  {
    if libs == [] then (st, if last.Some? then Ok(last.value) else Err(UnboundLocalError("ret")))
    else
      var (s1, ret) := TryLib(st, headerFile, build, c, libs[0]);
      if ret == "" then (s1, Ok(ret)) else TryLibs(s1, headerFile, build, c, libs[1..], Some(ret))
  }

  /** CheckLib: the language is looked up at the first library (an
      unsupported one ends the check with its message); with no library at
      all `ret` is never bound. */
  function CheckLibResult(st: State, headerFile: Option<string>, build: (string, string, seq<string>) -> string,
                          libs: seq<Option<string>>, funcName: Option<string>, header: Option<string>,
                          extra: seq<string>, call: Option<string>, language: Option<string>,
                          autoadd: bool): (State, Result<string>)
  {
    var text := ProgramText(headerFile, header, funcName, call);
    var c := EffectiveCall(funcName, call);
    var callText := if HasText(c) then Some(CallText(c.value)) else None;
    if libs == [] then (st, Err(UnboundLocalError("ret")))
    else
      match LangToSuffix(language)
      case Unsupported(msg) =>
        (st.(shown := st.shown + ["Cannot check for library " + LibText(libs[0]) + ": " + msg + "\n"]), Ok(msg))
      case Supported(name, suffix) =>
        TryLibs(st, headerFile, build, Check(text, suffix, name, callText, extra, autoadd), libs, None)
  }

  /** k is the first library whose build succeeds. */
  predicate FirstSuccess(orig: seq<string>, build: (string, string, seq<string>) -> string, c: Check,
                         libs: seq<Option<string>>, k: int)
  {
    0 <= k < |libs| && Succeeds(orig, build, c, libs[k]) &&
    forall j :: 0 <= j < k ==> !Succeeds(orig, build, c, libs[j])
  }

  /** The search stops at the first library that builds and reports
      success; LIBS then keeps that library only when autoadd is on.  When
      none builds, every library was tried, the last message is returned
      and LIBS is as before. */
  lemma {:induction false} TryLibsOutcome(st: State, headerFile: Option<string>, build: (string, string, seq<string>) -> string,
                                          c: Check, libs: seq<Option<string>>, last: Option<string>)
    requires last != Some("")
    ensures var (s, r) := TryLibs(st, headerFile, build, c, libs, last);
      r == Ok("") ==> exists k :: FirstSuccess(st.libs, build, c, libs, k) &&
                       s.libs == (if c.autoadd then LibsFor(st.libs, libs[k], c.extra) else st.libs)
    ensures var (s, r) := TryLibs(st, headerFile, build, c, libs, last);
      r != Ok("") ==> s.libs == st.libs && forall k :: 0 <= k < |libs| ==> !Succeeds(st.libs, build, c, libs[k])
    ensures var (s, r) := TryLibs(st, headerFile, build, c, libs, last);
      libs != [] && r != Ok("") ==> r == Ok(build(c.text, c.suffix, LibsFor(st.libs, libs[|libs| - 1], c.extra)))
    decreases |libs|
  {
    if libs != [] {
      var (s1, ret) := TryLib(st, headerFile, build, c, libs[0]);
      if ret == "" {
        assert FirstSuccess(st.libs, build, c, libs, 0);
      } else {
        assert s1.libs == st.libs;
        var rest := libs[1..];
        TryLibsOutcome(s1, headerFile, build, c, rest, Some(ret));
        var (s, r) := TryLibs(s1, headerFile, build, c, rest, Some(ret));
        if r == Ok("") {
          var k :| FirstSuccess(st.libs, build, c, rest, k) &&
                   s.libs == (if c.autoadd then LibsFor(st.libs, rest[k], c.extra) else st.libs);
          ShiftFirst(st.libs, build, c, libs, k);
        } else {
          forall k | 0 <= k < |libs| ensures !Succeeds(st.libs, build, c, libs[k]) {
            if k > 0 { assert libs[k] == rest[k - 1]; }
          }
          if rest != [] { assert libs[|libs| - 1] == rest[|rest| - 1]; }
        }
      }
    }
  }

  lemma ShiftFirst(orig: seq<string>, build: (string, string, seq<string>) -> string, c: Check,
                   libs: seq<Option<string>>, k: int)
    requires libs != [] && !Succeeds(orig, build, c, libs[0])
    requires FirstSuccess(orig, build, c, libs[1..], k)
    ensures FirstSuccess(orig, build, c, libs, k + 1) && libs[k + 1] == libs[1..][k]
  {
    forall j | 0 <= j < k + 1 ensures !Succeeds(orig, build, c, libs[j]) {
      if j > 0 { assert libs[j] == libs[1..][j - 1]; }
    }
  }

  /** A None (or empty) library name never changes LIBS. */
  lemma UnnamedKeepsLibs(st: State, headerFile: Option<string>, build: (string, string, seq<string>) -> string,
                         c: Check, libs: seq<Option<string>>)
    requires forall k :: 0 <= k < |libs| ==> !Named(libs[k])
    ensures TryLibs(st, headerFile, build, c, libs, None).0.libs == st.libs
  {
    TryLibsOutcome(st, headerFile, build, c, libs, None);
  }

  /** The context a check runs in. */
  class Context {
    var havedict: map<string, Value>
    var configH: Option<string>
    var libs: seq<string>
    var shown: seq<string>
    const headerFile: Option<string>
    /** BuildProg with the LIBS it is given: '' when the program builds,
        otherwise an error message. */
    const build: (string, string, seq<string>) -> string

    constructor(headerFile: Option<string>, configH: Option<string>, libs: seq<string>,
                build: (string, string, seq<string>) -> string)
      ensures St() == State(map[], configH, libs, [])
      ensures this.headerFile == headerFile && this.build == build
    {
      this.havedict := map[];
      this.configH := configH;
      this.libs := libs;
      this.shown := [];
      this.headerFile := headerFile;
      this.build := build;
    }

    function St(): State
      reads this
    {
      State(havedict, configH, libs, shown)
    }

    method Display(msg: string)
      modifies this
      ensures St() == old(St()).(shown := old(shown) + [msg])
    {
      shown := shown + [msg];
    }

    /** AppendLIBS: the old LIBS is returned. */
    method AppendLibs(l: seq<string>) returns (oldLibs: seq<string>)
      modifies this
      ensures oldLibs == old(libs) && St() == old(St()).(libs := old(libs) + l)
    {
      oldLibs := libs;
      libs := libs + l;
    }

    method SetLibs(val: seq<string>) returns (oldLibs: seq<string>)
      modifies this
      ensures oldLibs == old(libs) && St() == old(St()).(libs := val)
    {
      oldLibs := libs;
      libs := val;
    }

    method Have(key: string, have: Value)
      modifies this
      ensures St() == HaveState(old(St()), headerFile, key, have)
    {
      var keyUp := HaveKey(key);
      havedict := havedict[keyUp := have];
      var line := HaveLine(keyUp, have);
      if HasText(headerFile) {
        // appended to the header file: not modelled
      } else if configH.Some? {
        configH := Some(configH.value + line);
      }
    }

    method YesNoResult(ret: string, key: Option<string>)
      modifies this
      ensures St() == YesNoState(old(St()), headerFile, ret, key)
    {
      if key.Some? {
        Have(key.value, Passed(ret));
      }
      if ret != "" {
        Display("no\n");
      } else {
        Display("yes\n");
      }
    }

    /** One pass of the CheckLib loop body. */
    method TryLibrary(c: Check, lib: Option<string>) returns (ret: string)
      modifies this
      ensures (St(), ret) == TryLib(old(St()), headerFile, build, c, lib)
    {
      Display(CheckingMessage(c, lib));
      var oldLibs: seq<string> := [];
      var restore := false;
      var sym: Option<string> := None;
      if Named(lib) {
        oldLibs := AppendLibs([lib.value] + c.extra);
        restore := true;
        sym := Some("HAVE_LIB" + lib.value);
      }
      assert libs == LibsFor(old(libs), lib, c.extra);
      ret := build(c.text, c.suffix, libs);
      YesNoResult(ret, sym);
      if restore && (ret != "" || !c.autoadd) {
        var _ := SetLibs(oldLibs);
      }
    }

    /** CheckLib.  The language does not change between libraries, so it
        is looked up once before the loop. */
    method CheckLib(libNames: seq<Option<string>>, funcName: Option<string>, header: Option<string>,
                    extra: seq<string>, call: Option<string>, language: Option<string>, autoadd: bool)
      returns (ret: Result<string>)
      modifies this
      ensures (St(), ret) == CheckLibResult(old(St()), headerFile, build, libNames, funcName, header,
                                            extra, call, language, autoadd)
    {
      var text := ProgramText(headerFile, header, funcName, call);
      var effective := EffectiveCall(funcName, call);
      var callText := if HasText(effective) then Some(CallText(effective.value)) else None;
      if libNames == [] {
        return Err(UnboundLocalError("ret"));
      }
      var lang := LangToSuffix(language);
      if lang.Unsupported? {
        Display("Cannot check for library " + LibText(libNames[0]) + ": " + lang.msg + "\n");
        return Ok(lang.msg);
      }
      var c := Check(text, lang.suffix, lang.name, callText, extra, autoadd);
      ret := TryLibraries(c, libNames);
    }

    /** The CheckLib loop over the libraries. */
    method TryLibraries(c: Check, libNames: seq<Option<string>>) returns (ret: Result<string>)
      modifies this
      ensures (St(), ret) == TryLibs(old(St()), headerFile, build, c, libNames, None)
    {
      ghost var goal := TryLibs(St(), headerFile, build, c, libNames, None);
      var last: Option<string> := None;
      var i := 0;
      while i < |libNames|
        invariant 0 <= i <= |libNames|
        invariant TryLibs(St(), headerFile, build, c, libNames[i..], last) == goal
      {
        assert libNames[i..][0] == libNames[i] && libNames[i..][1..] == libNames[i + 1..];
        var r := TryLibrary(c, libNames[i]);
        if r == "" {
          return Ok(r);
        }
        last := Some(r);
        i := i + 1;
      }
      ret := if last.Some? then Ok(last.value) else Err(UnboundLocalError("ret"));
    }
  }
}
