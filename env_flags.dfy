/** SubstitutionEnvironment.ParseFlags of SCons.Environment: the words of
    compiler and linker command lines sorted into the construction
    variables they belong to.  A word that needs the following word as its
    argument (a bare `-L`, `-framework`, `-arch`, ...) leaves that key
    pending for the next word of the same string.  Running a `!command`
    (backtick) and making a File node of a library name are parameters. */
module EnvFlags {
  import opened Errors
  import opened Strings
  import opened Values

  /** The keys of the dictionary ParseFlags returns. */
  const FlagKeys: set<string> := {"ASFLAGS", "CCFLAGS", "CPPDEFINES", "CPPFLAGS", "CPPPATH",
    "FRAMEWORKPATH", "FRAMEWORKS", "LIBPATH", "LIBS", "LINKFLAGS", "RPATH"}

  /** The values append_next_arg_to takes: a key of the dictionary, or one
      of the three options whose argument is paired with the option. */
  const PendingTargets: set<string> := {"CPPDEFINES", "-include", "-isysroot", "-arch",
    "LIBPATH", "LIBS", "CPPPATH", "FRAMEWORKS", "FRAMEWORKPATH"}

  /** The dictionary being filled: each key with the list appended to. */
  type Flags = map<string, seq<Value>>

  predicate WellKeyed(d: Flags) { d.Keys == FlagKeys }

  predicate PendingOk(pending: Option<string>)
  {
    pending.Some? ==> pending.value in PendingTargets
  }

  /** The dictionary ParseFlags starts from: every key with an empty list. */
  function NoFlags(): (d: Flags)
    ensures WellKeyed(d) && forall k :: k in d ==> d[k] == []
  {
    map k | k in FlagKeys :: []
  }

  /** dict[key].append(v) for each (key, v), in order. */
  function AddAll(d: Flags, adds: seq<(string, Value)>): (r: Flags)
    requires forall i :: 0 <= i < |adds| ==> adds[i].0 in d
    ensures r.Keys == d.Keys
    ensures forall k :: k in d ==> d[k] <= r[k]
    decreases |adds|
  {
    if adds == [] then d
    else
      var (k, v) := adds[0];
      AddAll(d[k := d[k] + [v]], adds[1..])
  }

  /** append_define: `name`, or `[name, value]` split at the first `=` with
      the rest rejoined. */
  function Define(name: string): Value
  {
    var t := SplitOn(name, '=');
    if |t| == 1 then Str(name) else Lst([Str(t[0]), Str(Join(t[1..], "="))])
  }

  /** What one word does, one of them pending: where its text goes, and
      what it leaves pending for the next word. */
  datatype Action = Action(adds: seq<(string, Value)>, next: Option<string>)

  function Put(key: string, v: Value): Action { Action([(key, v)], None) }
  function PutBoth(a: string): Action { Action([("CCFLAGS", Str(a)), ("LINKFLAGS", Str(a))], None) }
  function Await(key: string): Action { Action([], Some(key)) }

  predicate KeysOk(a: Action)
  {
    (forall i :: 0 <= i < |a.adds| ==> a.adds[i].0 in FlagKeys) && PendingOk(a.next)
  }

  /** The argument of a pending option: a define, a `-include` file, an
      `-isysroot` or `-arch` pair (for compiling and linking), or a plain
      value for the key itself. */
  function PendingArg(target: string, arg: string, file: string -> Value): (a: Action)
    requires target in PendingTargets
    ensures KeysOk(a) && a.next.None?
  {
    if target == "CPPDEFINES" then Put("CPPDEFINES", Define(arg))
    else if target == "-include" then Put("CCFLAGS", Tup([Str("-include"), file(arg)]))
    else if target == "-isysroot" || target == "-arch" then
      var t := Tup([Str(target), Str(arg)]);
      Action([("CCFLAGS", t), ("LINKFLAGS", t)], None)
    else Put(target, Str(arg))
  }

  /** The chain of tests for a word with nothing pending.  A bare `-D`
      assigns a misspelled local (appencd_next_arg_to), so it leaves
      nothing pending. */
  function Word(arg: string, file: string -> Value): (a: Action)
    requires arg != []
    ensures KeysOk(a)
  {
    if arg[0] != '-' && arg[0] != '+' then Put("LIBS", file(arg))
    else if IsPrefix("-L", arg) then (if |arg| > 2 then Put("LIBPATH", Str(arg[2..])) else Await("LIBPATH"))
    else if IsPrefix("-l", arg) then (if |arg| > 2 then Put("LIBS", Str(arg[2..])) else Await("LIBS"))
    else if IsPrefix("-I", arg) then (if |arg| > 2 then Put("CPPPATH", Str(arg[2..])) else Await("CPPPATH"))
    else if IsPrefix("-Wa,", arg) then Action([("ASFLAGS", Str(arg[4..])), ("CCFLAGS", Str(arg))], None)
    else if IsPrefix("-Wl,", arg) then
      if IsPrefix("-Wl,-rpath=", arg) then Put("RPATH", Str(arg[11..]))
      else if IsPrefix("-Wl,-R,", arg) then Put("RPATH", Str(arg[7..]))
      else if IsPrefix("-Wl,-R", arg) then Put("RPATH", Str(arg[6..]))
      else Put("LINKFLAGS", Str(arg))
    else if IsPrefix("-Wp,", arg) then Put("CPPFLAGS", Str(arg))
    else if IsPrefix("-D", arg) then (if |arg| > 2 then Put("CPPDEFINES", Define(arg[2..])) else Action([], None))
    else if arg == "-framework" then Await("FRAMEWORKS")
    else if IsPrefix("-frameworkdir=", arg) then Put("FRAMEWORKPATH", Str(arg[14..]))
    else if IsPrefix("-F", arg) then (if |arg| > 2 then Put("FRAMEWORKPATH", Str(arg[2..])) else Await("FRAMEWORKPATH"))
    else if arg == "-mno-cygwin" then PutBoth(arg)
    else if arg == "-mwindows" then Put("LINKFLAGS", Str(arg))
    else if arg == "-pthread" then PutBoth(arg)
    else if arg[0] == '+' then PutBoth(arg)
    else if arg == "-include" || arg == "-isysroot" || arg == "-arch" then Await(arg)
    else Put("CCFLAGS", Str(arg))
  }

  /** One turn of the word loop. */
  function Turn(pending: Option<string>, arg: string, file: string -> Value): (a: Action)
    requires arg != [] && PendingOk(pending)
    ensures KeysOk(a)
  {
    if pending.Some? then PendingArg(pending.value, arg, file) else Word(arg, file)
  }

  predicate Words(ws: seq<string>) { forall i :: 0 <= i < |ws| ==> ws[i] != [] }

  /** The word loop of do_parse from a given pending state.  It keeps the
      keys and only ever appends. */
  function ParseWords(d: Flags, ws: seq<string>, pending: Option<string>, file: string -> Value): (r: Flags)
    requires WellKeyed(d) && Words(ws) && PendingOk(pending)
    ensures WellKeyed(r)
    ensures forall k :: k in d ==> d[k] <= r[k]
    decreases |ws|
  {
    if ws == [] then d
    else
      var a := Turn(pending, ws[0], file);
      var d1 := AddAll(d, a.adds);
      var r := ParseWords(d1, ws[1..], a.next, file);
      assert forall k :: k in d ==> d[k] <= d1[k] <= r[k];
      r
  }

  /** A string argument; one starting with `!` is a command whose output is
      parsed instead. */
  function ParseText(d: Flags, s: string, backtick: string -> string, file: string -> Value): (r: Flags)
    requires WellKeyed(d) && s != []
    ensures WellKeyed(r)
  {
    var text := if s[0] == '!' then backtick(s[1..]) else s;
    ParseWords(d, Split(text), None, file)
  }

  /** Python's truth value of an argument. */
  predicate Falsy(v: Value)
  {
    match v
    case Str(s) => s == []
    case Int(i) => i == 0
    case Lst(items) => items == []
    case Tup(items) => items == []
    case Dict(entries) => entries == map[]
    case Null => true
    case _ => false
  }

  /** do_parse: a false argument adds nothing, a string is parsed, a list
      or tuple is parsed element by element; anything else cannot be
      iterated. */
  function ParseValue(d: Flags, v: Value, backtick: string -> string, file: string -> Value): (r: Result<Flags>)
    requires WellKeyed(d)
    ensures r.Ok? ==> WellKeyed(r.value)
    decreases Size(v), 0
  {
    if Falsy(v) then Ok(d)
    else
      match v
      case Str(s) => Ok(ParseText(d, s, backtick, file))
      case Lst(items) => ParseItems(d, items, backtick, file)
      case Tup(items) => ParseItems(d, items, backtick, file)
      case _ => Err(TypeError("iteration over non-sequence"))
  }

  function ParseItems(d: Flags, items: seq<Value>, backtick: string -> string, file: string -> Value): (r: Result<Flags>)
    requires WellKeyed(d)
    ensures r.Ok? ==> WellKeyed(r.value)
    decreases SizeSeq(items), 1
  {
    if items == [] then Ok(d)
    else
      match ParseValue(d, items[0], backtick, file)
      case Err(e) => Err(e)
      case Ok(d1) => ParseItems(d1, items[1..], backtick, file)
  }

  /** The loop over the words of one string, with append_next_arg_to. */
  method ParseString(d: Flags, s: string, backtick: string -> string, file: string -> Value) returns (r: Flags)
    requires WellKeyed(d) && s != []
    ensures r == ParseText(d, s, backtick, file)
  {
    var text := if s[0] == '!' then backtick(s[1..]) else s;
    var params := Split(text);
    var pending: Option<string> := None;
    ghost var goal := ParseWords(d, params, None, file);
    assert params[0..] == params;
    r := d;
    var i := 0;
    while i < |params|
      invariant 0 <= i <= |params|
      invariant WellKeyed(r) && PendingOk(pending) && Words(params[i..])
      invariant ParseWords(r, params[i..], pending, file) == goal
    {
      var arg := params[i];
      TurnStep(r, params, i, pending, file);
      var a := Turn(pending, arg, file);
      r := AddAll(r, a.adds);
      pending := a.next;
      i := i + 1;
    }
  }

  /** One turn of the word loop at index i. */
  lemma TurnStep(d: Flags, ws: seq<string>, i: nat, pending: Option<string>, file: string -> Value)
    requires i < |ws| && WellKeyed(d) && PendingOk(pending) && Words(ws[i..])
    ensures ws[i] != [] && Words(ws[i + 1..])
    ensures var a := Turn(pending, ws[i], file);
      ParseWords(d, ws[i..], pending, file) == ParseWords(AddAll(d, a.adds), ws[i + 1..], a.next, file)
  {
    assert ws[i..][0] == ws[i] && ws[i..][1..] == ws[i + 1..];
  }

  /** do_parse, recursing into the elements of a list or tuple. */
  method DoParse(d: Flags, arg: Value, backtick: string -> string, file: string -> Value) returns (r: Result<Flags>)
    requires WellKeyed(d)
    ensures r == ParseValue(d, arg, backtick, file)
    decreases Size(arg), 0
  {
    if Falsy(arg) {
      return Ok(d);
    }
    match arg {
      case Str(s) =>
        var d1 := ParseString(d, s, backtick, file);
        return Ok(d1);
      case Lst(items) =>
        r := DoParseAll(d, items, backtick, file);
      case Tup(items) =>
        r := DoParseAll(d, items, backtick, file);
      case _ =>
        return Err(TypeError("iteration over non-sequence"));
    }
  }

  /** `for t in arg: me(t, me)`, stopping at the first exception. */
  method DoParseAll(d: Flags, items: seq<Value>, backtick: string -> string, file: string -> Value) returns (r: Result<Flags>)
    requires WellKeyed(d)
    ensures r == ParseItems(d, items, backtick, file)
    decreases SizeSeq(items), 1
  {
    var cur := d;
    var i := 0;
    while i < |items|
      invariant 0 <= i <= |items| && WellKeyed(cur)
      invariant ParseItems(cur, items[i..], backtick, file) == ParseItems(d, items, backtick, file)
    {
      assert items[i..][0] == items[i] && items[i..][1..] == items[i + 1..];
      var r1 := DoParse(cur, items[i], backtick, file);
      if r1.Err? {
        return Err(r1.error);
      }
      cur := r1.value;
      i := i + 1;
    }
    return Ok(cur);
  }

  /** ParseFlags(*flags): every argument parsed into one dictionary that
      starts with the eleven empty lists. */
  method ParseFlags(flags: seq<Value>, backtick: string -> string, file: string -> Value) returns (r: Result<Flags>)
    ensures r == ParseItems(NoFlags(), flags, backtick, file)
    ensures r.Ok? ==> WellKeyed(r.value)
  {
    r := DoParseAll(NoFlags(), flags, backtick, file);
  }

  // ---------------------------------------------------------------
  // What each kind of word does

  /** A word with nothing pending is handled by the chain of tests and
      leaves behind what that word asks for. */
  lemma WordTurn(d: Flags, a: string, rest: seq<string>, file: string -> Value)
    requires WellKeyed(d) && a != [] && Words(rest)
    ensures Words([a] + rest)
    ensures ParseWords(d, [a] + rest, None, file)
         == ParseWords(AddAll(d, Word(a, file).adds), rest, Word(a, file).next, file)
  {
    var ws := [a] + rest;
    assert ws[0] == a && ws[1..] == rest;
  }

  /** The tests of the chain that a word starting with `-` and then c
      cannot pass. */
  lemma DashChar(a: string, c: char)
    requires |a| >= 2 && a[0] == '-' && a[1] == c
    ensures c != 'L' ==> !IsPrefix("-L", a)
    ensures c != 'l' ==> !IsPrefix("-l", a)
    ensures c != 'I' ==> !IsPrefix("-I", a)
    ensures c != 'W' ==> !IsPrefix("-Wa,", a) && !IsPrefix("-Wl,", a) && !IsPrefix("-Wp,", a)
    ensures c != 'D' ==> !IsPrefix("-D", a)
    ensures c != 'f' ==> a != "-framework" && !IsPrefix("-frameworkdir=", a)
    ensures c != 'F' ==> !IsPrefix("-F", a)
    ensures c != 'm' ==> a != "-mno-cygwin" && a != "-mwindows"
    ensures c != 'p' ==> a != "-pthread"
    ensures c != 'i' ==> a != "-include" && a != "-isysroot"
    ensures c != 'a' ==> a != "-arch"
  {
  }

  /** The key a bare option sends the next word to. */
  function DetachedKey(flag: string): string
  {
    match flag
    case "-L" => "LIBPATH"
    case "-l" => "LIBS"
    case "-I" => "CPPPATH"
    case "-F" => "FRAMEWORKPATH"
    case _ => "FRAMEWORKS"
  }

  /** `-Lx`, `-lx`, `-Ix` and `-Fx` put x in LIBPATH, LIBS, CPPPATH and
      FRAMEWORKPATH, and leave nothing pending. */
  lemma AttachedArgument(flag: string, x: string, file: string -> Value)
    requires flag in {"-L", "-l", "-I", "-F"} && x != []
    ensures Word(flag + x, file) == Action([(DetachedKey(flag), Str(x))], None)
  {
    var a := flag + x;
    assert a[..2] == flag && a[2..] == x;
    DashChar(a, flag[1]);
  }

  /** A pending option takes the next word, whatever it looks like, and
      leaves nothing pending. */
  lemma PendingTurn(d: Flags, k: string, x: string, rest: seq<string>, file: string -> Value)
    requires WellKeyed(d) && k in PendingTargets && x != [] && Words(rest)
    ensures Words([x] + rest)
    ensures ParseWords(d, [x] + rest, Some(k), file)
         == ParseWords(AddAll(d, PendingArg(k, x, file).adds), rest, None, file)
  {
    var ws := [x] + rest;
    assert ws[0] == x && ws[1..] == rest;
  }

  /** A bare `-L`, `-l`, `-I`, `-F` or `-framework` sends the next word,
      whatever it looks like, to its key and then clears the pending
      state, so the word after that is read as a flag again. */
  lemma DetachedArgument(d: Flags, flag: string, x: string, rest: seq<string>, file: string -> Value)
    requires WellKeyed(d) && flag in {"-L", "-l", "-I", "-F", "-framework"} && x != [] && Words(rest)
    ensures Words([flag, x] + rest)
    ensures ParseWords(d, [flag, x] + rest, None, file)
         == ParseWords(AddAll(d, [(DetachedKey(flag), Str(x))]), rest, None, file)
  {
    var k := DetachedKey(flag);
    DetachedWord(flag, file);
    DetachedPending(flag, x, file);
    PendingPair(d, flag, k, x, rest, file);
  }

  lemma DetachedPending(flag: string, x: string, file: string -> Value)
    requires flag in {"-L", "-l", "-I", "-F", "-framework"}
    ensures DetachedKey(flag) in FlagKeys && DetachedKey(flag) in PendingTargets
    ensures PendingArg(DetachedKey(flag), x, file) == Put(DetachedKey(flag), Str(x))
  {
  }

  /** A flag that only sets the pending state, followed by its argument. */
  lemma PendingPair(d: Flags, flag: string, k: string, x: string, rest: seq<string>, file: string -> Value)
    requires WellKeyed(d) && flag != [] && x != [] && Words(rest) && k in PendingTargets
    requires Word(flag, file) == Action([], Some(k))
    ensures Words([flag, x] + rest)
    ensures ParseWords(d, [flag, x] + rest, None, file)
         == ParseWords(AddAll(d, PendingArg(k, x, file).adds), rest, None, file)
  {
    PendingTurn(d, k, x, rest, file);
    WordTurn(d, flag, [x] + rest, file);
    assert [flag, x] + rest == [flag] + ([x] + rest);
  }

  lemma DetachedWord(flag: string, file: string -> Value)
    requires flag in {"-L", "-l", "-I", "-F", "-framework"}
    ensures Word(flag, file) == Action([], Some(DetachedKey(flag)))
  {
    if flag == "-framework" {
      DashChar(flag, 'f');
      Mismatch("-frameworkdir=", flag, 10);
    } else {
      DashChar(flag, flag[1]);
    }
  }

  lemma AddOne(d: Flags, k: string, v: Value)
    requires k in d
    ensures AddAll(d, [(k, v)]) == d[k := d[k] + [v]]
  {
    var adds := [(k, v)];
    assert adds[1..] == [];
  }

  /** `-isysroot x` and `-arch x` append the pair (option, x) to both
      CCFLAGS and LINKFLAGS. */
  lemma PairedArgument(d: Flags, flag: string, x: string, rest: seq<string>, file: string -> Value)
    requires WellKeyed(d) && flag in {"-isysroot", "-arch"} && x != [] && Words(rest)
    ensures Words([flag, x] + rest)
    ensures var t := Tup([Str(flag), Str(x)]);
      ParseWords(d, [flag, x] + rest, None, file)
      == ParseWords(AddAll(d, [("CCFLAGS", t), ("LINKFLAGS", t)]), rest, None, file)
  {
    PairedWord(flag, file);
    var t := Tup([Str(flag), Str(x)]);
    assert PendingArg(flag, x, file) == Action([("CCFLAGS", t), ("LINKFLAGS", t)], None);
    PendingPair(d, flag, flag, x, rest, file);
  }

  /** `-include x` appends the pair (option, File(x)) to CCFLAGS only. */
  lemma IncludeArgument(d: Flags, x: string, rest: seq<string>, file: string -> Value)
    requires WellKeyed(d) && x != [] && Words(rest)
    ensures Words(["-include", x] + rest)
    ensures ParseWords(d, ["-include", x] + rest, None, file)
         == ParseWords(AddAll(d, [("CCFLAGS", Tup([Str("-include"), file(x)]))]), rest, None, file)
  {
    PairedWord("-include", file);
    PendingPair(d, "-include", "-include", x, rest, file);
  }

  lemma PairedWord(flag: string, file: string -> Value)
    requires flag in {"-isysroot", "-arch", "-include"}
    ensures Word(flag, file) == Action([], Some(flag))
  {
    DashChar(flag, flag[1]);
  }

  /** `-Dname` adds the define of name to CPPDEFINES. */
  lemma DefineArgument(name: string, file: string -> Value)
    requires name != []
    ensures Word("-D" + name, file) == Action([("CPPDEFINES", Define(name))], None)
  {
    var a := "-D" + name;
    assert a[..2] == "-D" && a[2..] == name;
    DashChar(a, 'D');
  }

  /** `name=value` becomes the pair [name, value], split at the first `=`
      and the rest, further `=` included, kept whole; without `=` the name
      stays a string. */
  lemma DefineSplitsAtFirstEquals(name: string, value: string)
    requires '=' !in name
    ensures Define(name) == Str(name)
    ensures Define(name + "=" + value) == Lst([Str(name), Str(value)])
  {
    SplitOnFirst(name, value);
    var t := SplitOn(name + "=" + value, '=');
    assert t[0] == name && t[1..] == SplitOn(value, '=');
    JoinSplitOn(value, '=');
  }

  lemma SplitOnFirst(name: string, value: string)
    requires '=' !in name
    ensures SplitOn(name + "=" + value, '=') == [name] + SplitOn(value, '=')
  {
    var s := name + "=" + value;
    IndexOfFirst(name, value);
    assert s[..|name|] == name && s[|name| + 1..] == value;
  }

  lemma {:induction false} IndexOfFirst(name: string, value: string)
    requires '=' !in name
    ensures '=' in name + "=" + value && IndexOf(name + "=" + value, '=') == |name|
    decreases |name|
  {
    var s := name + "=" + value;
    assert s[|name|] == '=';
    if name != [] {
      IndexOfFirst(name[1..], value);
      assert s[1..] == name[1..] + "=" + value;
    }
  }

  /** A bare `-D` sets the misspelled local appencd_next_arg_to, so
      nothing is pending and the next word is read as a flag of its own. */
  lemma BareDefineIgnored(d: Flags, rest: seq<string>, file: string -> Value)
    requires WellKeyed(d) && Words(rest)
    ensures Words(["-D"] + rest)
    ensures ParseWords(d, ["-D"] + rest, None, file) == ParseWords(d, rest, None, file)
  {
    DashChar("-D", 'D');
    assert Word("-D", file) == Action([], None);
    WordTurn(d, "-D", rest, file);
  }

  /** So `-D NAME` defines nothing: NAME becomes a library file. */
  lemma BareDefineNameIsLibrary(name: string, file: string -> Value)
    requires name != [] && name[0] != '-' && name[0] != '+'
    ensures ParseWords(NoFlags(), ["-D", name], None, file) == NoFlags()["LIBS" := [file(name)]]
  {
    var d := NoFlags();
    BareDefineIgnored(d, [name], file);
    LibraryWord(name, file);
    WordTurn(d, name, [], file);
    assert [name] + [] == [name] && ["-D"] + [name] == ["-D", name];
    AddOne(d, "LIBS", file(name));
    var d1 := AddAll(d, Word(name, file).adds);
    assert ParseWords(d1, [], None, file) == d1;
    assert d["LIBS"] == [] && [] + [file(name)] == [file(name)];
  }

  /** A word that cannot start with p: it differs from p at index i. */
  lemma Mismatch(p: string, a: string, i: nat)
    requires i < |p| && (i >= |a| || a[i] != p[i])
    ensures !IsPrefix(p, a)
  {
    if |p| <= |a| {
      assert a[..|p|][i] == a[i];
    }
  }

  /** `-Wl,-rpath=x`, `-Wl,-R,x` and `-Wl,-Rx` all put x in RPATH. */
  lemma RpathForms(x: string, file: string -> Value)
    ensures Word("-Wl,-rpath=" + x, file) == Action([("RPATH", Str(x))], None)
    ensures Word("-Wl,-R," + x, file) == Action([("RPATH", Str(x))], None)
    ensures (x == [] || x[0] != ',') ==> Word("-Wl,-R" + x, file) == Action([("RPATH", Str(x))], None)
  {
    var a := "-Wl,-rpath=" + x;
    assert a[..11] == "-Wl,-rpath=" && a[11..] == x && a[..4] == "-Wl,";
    DashChar(a, 'W');
    var b := "-Wl,-R," + x;
    assert b[..7] == "-Wl,-R," && b[7..] == x && b[..4] == "-Wl,";
    DashChar(b, 'W');
    Mismatch("-Wl,-rpath=", b, 5);
    var c := "-Wl,-R" + x;
    assert c[..6] == "-Wl,-R" && c[6..] == x && c[..4] == "-Wl,";
    DashChar(c, 'W');
    Mismatch("-Wl,-rpath=", c, 5);
    if x == [] || x[0] != ',' {
      Mismatch("-Wl,-R,", c, 6);
    }
  }

  /** Any other `-Wl,` word goes whole to LINKFLAGS. */
  lemma OtherLinkerFlag(a: string, file: string -> Value)
    requires IsPrefix("-Wl,", a) && !IsPrefix("-Wl,-R", a) && !IsPrefix("-Wl,-rpath=", a)
    ensures Word(a, file) == Action([("LINKFLAGS", Str(a))], None)
  {
    assert a[0] == a[..4][0] && a[1] == a[..4][1];
    DashChar(a, 'W');
    assert !IsPrefix("-Wl,-R,", a) by {
      if |a| >= 7 { assert a[..7][..6] == a[..6]; }
    }
  }

  /** `+x`, `-pthread` and `-mno-cygwin` go to both CCFLAGS and LINKFLAGS. */
  lemma CompileAndLink(a: string, file: string -> Value)
    requires a == "-pthread" || a == "-mno-cygwin" || (a != [] && a[0] == '+')
    ensures Word(a, file) == Action([("CCFLAGS", Str(a)), ("LINKFLAGS", Str(a))], None)
  {
    if a[0] == '+' {
      Mismatch("-L", a, 0); Mismatch("-l", a, 0); Mismatch("-I", a, 0);
      Mismatch("-Wa,", a, 0); Mismatch("-Wl,", a, 0); Mismatch("-Wp,", a, 0);
      Mismatch("-D", a, 0); Mismatch("-frameworkdir=", a, 0); Mismatch("-F", a, 0);
    } else {
      DashChar(a, a[1]);
    }
  }

  /** A word that does not start with `-` or `+` is a library file. */
  lemma LibraryWord(a: string, file: string -> Value)
    requires a != [] && a[0] != '-' && a[0] != '+'
    ensures Word(a, file) == Action([("LIBS", file(a))], None)
  {
  }
}
