/** SCons.SConf: the configure cache mode, the #include lines of header
    checks, the yes/no report of a CheckContext with its "(cached)" prefix,
    the up-to-date decision of SConfBuildTask, the BuildNodes verdict and
    the guards around Finish and the tests. */
module SConf {
  import opened Errors
  import opened Values
  import opened Seqs
  import Node

  const Auto: int := 0
  const Force: int := 1
  const Cache: int := 2

  /** The mode a name selects. */
  function ModeOf(mode: string): (r: Result<int>)
    ensures r.Ok? <==> mode in {"auto", "force", "cache"}
    ensures r.Ok? ==> r.value in {Auto, Force, Cache}
    ensures r.Err? ==> r.error == ValueError("SCons.SConf.SetCacheMode: Unknown mode " + mode)
  {
    if mode == "auto" then Ok(Auto)
    else if mode == "force" then Ok(Force)
    else if mode == "cache" then Ok(Cache)
    else Err(ValueError("SCons.SConf.SetCacheMode: Unknown mode " + mode))
  }

  /** The name of a mode, the inverse of ModeOf. */
  function ModeName(m: int): string
    requires m in {Auto, Force, Cache}
  {
    if m == Auto then "auto" else if m == Force then "force" else "cache"
  }

  /** Each mode has exactly one name: ModeOf and ModeName are inverse. */
  lemma ModeRoundTrip(mode: string, m: int)
    ensures ModeOf(mode).Ok? ==> ModeName(ModeOf(mode).value) == mode
    ensures m in {Auto, Force, Cache} ==> ModeOf(ModeName(m)) == Ok(m)
  {
    if ModeOf(mode).Ok? {
      assert mode == "auto" || mode == "force" || mode == "cache";
    }
  }

  /** The module's global settings. */
  class Settings {
    var cacheMode: int
    var dryrun: bool

    constructor()
      ensures cacheMode == Auto && !dryrun
    {
      cacheMode := Auto;
      dryrun := false;
    }

    /** SetCacheMode: an unknown name leaves the mode as it was. */
    method SetCacheMode(mode: string) returns (err: Option<Error>)
      modifies this
      ensures ModeOf(mode).Ok? ==> err == None && cacheMode == ModeOf(mode).value
      ensures ModeOf(mode).Err? ==> err == Some(ModeOf(mode).error) && cacheMode == old(cacheMode)
      ensures dryrun == old(dryrun)
    {
      if mode == "auto" {
        cacheMode := Auto;
      } else if mode == "force" {
        cacheMode := Force;
      } else if mode == "cache" {
        cacheMode := Cache;
      } else {
        return Some(ValueError("SCons.SConf.SetCacheMode: Unknown mode " + mode));
      }
      err := None;
    }
  }

  /** The headers argument: a list, or anything else taken as one header. */
  datatype Headers = HeaderList(names: seq<string>) | OneHeader(name: string)

  function HeaderSeq(h: Headers): seq<string>
  {
    match h
    case HeaderList(names) => names
    case OneHeader(name) => [name]
  }

  /** One #include line with the two quote characters around the name. */
  function IncludeLine(q: string, name: string): string
    requires |q| >= 2
  {
    "#include " + [q[0]] + name + [q[1]] + "\n"
  }

  /** The include lines of a list of headers, in order. */
  function IncludeLines(q: string, names: seq<string>): string
    requires |q| >= 2
    decreases |names|
  {
    if names == [] then "" else IncludeLine(q, names[0]) + IncludeLines(q, names[1..])
  }

  /** createIncludesFromHeaders: the include lines, and with leaveLast the
      last header kept apart.  An empty list with leaveLast, and include
      quotes shorter than two characters when there is a line to write, are
      the IndexErrors of the Python code. */
  function CreateIncludes(headers: Headers, leaveLast: bool, q: string): (r: Result<(string, Option<string>)>)
    ensures var hs := HeaderSeq(headers);
      r.Err? <==> (leaveLast && hs == []) || (|q| < 2 && |hs| > (if leaveLast then 1 else 0))
    ensures r.Ok? && leaveLast ==> var hs := HeaderSeq(headers);
      r.value.1 == Some(hs[|hs| - 1]) && (|q| >= 2 ==> r.value.0 == IncludeLines(q, hs[..|hs| - 1]))
    ensures r.Ok? && !leaveLast ==> r.value.1 == None && (|q| >= 2 ==> r.value.0 == IncludeLines(q, HeaderSeq(headers)))
  {
    var hs := HeaderSeq(headers);
    if leaveLast && hs == [] then Err(IndexError)
    else
      var emitted := if leaveLast then hs[..|hs| - 1] else hs;
      var last := if leaveLast then Some(hs[|hs| - 1]) else None;
      if emitted == [] then Ok(("", last))
      else if |q| < 2 then Err(IndexError)
      else Ok((IncludeLines(q, emitted), last))
  }

  /** The lines of two lists are the lines of their concatenation. */
  lemma {:induction false} IncludeLinesAppend(q: string, a: seq<string>, b: seq<string>)
    requires |q| >= 2
    ensures IncludeLines(q, a + b) == IncludeLines(q, a) + IncludeLines(q, b)
    decreases |a|
  {
    if a == [] {
      assert a + b == b;
    } else {
      calc {
        IncludeLines(q, a + b);
      == { assert (a + b)[0] == a[0] && (a + b)[1..] == a[1..] + b; }
        IncludeLine(q, a[0]) + IncludeLines(q, a[1..] + b);
      == { IncludeLinesAppend(q, a[1..], b); }
        IncludeLine(q, a[0]) + (IncludeLines(q, a[1..]) + IncludeLines(q, b));
      }
    }
  }

  /** With leaveLast the caller adds the last header's line itself: both
      together are the lines of the whole list. */
  lemma LeaveLastCompletes(headers: Headers, q: string)
    requires |q| >= 2 && HeaderSeq(headers) != []
    ensures var r := CreateIncludes(headers, true, q);
      r.Ok? && r.value.0 + IncludeLine(q, r.value.1.value) == IncludeLines(q, HeaderSeq(headers))
  {
    var hs := HeaderSeq(headers);
    var init, x := hs[..|hs| - 1], hs[|hs| - 1];
    assert CreateIncludes(headers, true, q) == Ok((IncludeLines(q, init), Some(x)));
    InitLast(hs);
    LastLine(q, init, x);
  }

  lemma LastLine(q: string, init: seq<string>, x: string)
    requires |q| >= 2
    ensures IncludeLines(q, init) + IncludeLine(q, x) == IncludeLines(q, init + [x])
  {
    assert [x][1..] == [];
    assert IncludeLines(q, [x]) == IncludeLine(q, x);
    IncludeLinesAppend(q, init, [x]);
  }

  /** A single header is the list holding only it. */
  lemma OneHeaderIsList(name: string, leaveLast: bool, q: string)
    ensures CreateIncludes(OneHeader(name), leaveLast, q) == CreateIncludes(HeaderList([name]), leaveLast, q)
  {
  }

  /** The text Result displays: "yes"/"no" for an int (bools are ints),
      a string as it is, TypeError for anything else. */
  function ResultText(res: Value): (r: Result<string>)
    ensures r.Ok? <==> res.Int? || res.Str?
    ensures res.Int? ==> r == Ok(if res.i != 0 then "yes" else "no")
    ensures res.Str? ==> r == Ok(res.s)
  {
    match res
    case Int(i) => Ok(if i != 0 then "yes" else "no")
    case Str(s) => Ok(s)
    case _ => Err(TypeError("Expected string, int or bool, got " + TypeName(res)))
  }

  /** str(type(res)) */
  function TypeName(v: Value): string
  {
    match v
    case Str(_) => "<type 'str'>"
    case Int(_) => "<type 'int'>"
    case Lst(_) => "<type 'list'>"
    case Tup(_) => "<type 'tuple'>"
    case Dict(_) => "<type 'dict'>"
    case Null => "<type 'NoneType'>"
    case Func(_) => "<type 'function'>"
    case Obj(_, _, _) => "<type 'instance'>"
  }

  /** What Display writes for a message: "(cached) " first when a cached
      result is being reported. */
  function Shown(cached: bool, msg: string): (r: string)
    ensures cached <==> |r| == |msg| + 9
    ensures |r| >= |msg| && r[|r| - |msg|..] == msg
  {
    if cached then "(cached) " + msg else msg
  }

  /** What one SConfBuildTask target brings to the decision: its stored
      build information (an SConfBuildInfo or something else), the signature
      computed now, and whether the environment compares build signatures
      (otherwise content signatures). */
  datatype StoredInfo = SConfInfo(bsig: int, csig: int, result: bool) | OtherInfo
  datatype Target = Target(name: string, info: StoredInfo, newSig: int, useBuildSig: bool)

  predicate SigMatches(t: Target)
    requires t.info.SConfInfo?
  {
    t.newSig == (if t.useBuildSig then t.info.bsig else t.info.csig)
  }

  /** collect_node_states: every target has SConf
      information for the tests to be cachable; they are up to date when,
      moreover, in any mode but CACHE all signatures match; the cached
      error is whether any stored result was an error.  In CACHE mode the
      targets with SConf information are marked up to date. */
  method CollectNodeStates(targets: seq<Target>, cacheMode: int)
    returns (isUpToDate: bool, cachedError: bool, cachable: bool, marked: seq<nat>)
    ensures cachable <==> forall i :: 0 <= i < |targets| ==> targets[i].info.SConfInfo?
    ensures isUpToDate <==> cachable && (cacheMode == Cache || forall i :: 0 <= i < |targets| ==> SigMatches(targets[i]))
    ensures cachedError <==> exists i :: 0 <= i < |targets| && targets[i].info.SConfInfo? && targets[i].info.result
    ensures forall i :: i in marked <==> 0 <= i < |targets| && cacheMode == Cache && targets[i].info.SConfInfo?
  {
    isUpToDate, cachedError, cachable, marked := true, false, true, [];
    var sigsMatch := true;
    for i := 0 to |targets|
      invariant cachable <==> forall j :: 0 <= j < i ==> targets[j].info.SConfInfo?
      invariant cacheMode != Cache ==>
        (sigsMatch <==> forall j :: 0 <= j < i && targets[j].info.SConfInfo? ==> SigMatches(targets[j]))
      invariant isUpToDate <==> cachable && (cacheMode == Cache || sigsMatch)
      invariant cachedError <==> exists j :: 0 <= j < i && targets[j].info.SConfInfo? && targets[j].info.result
      invariant forall j :: j in marked <==> 0 <= j < i && cacheMode == Cache && targets[j].info.SConfInfo?
    {
      var t := targets[i];
      if t.info.SConfInfo? {
        if cacheMode == Cache {
          marked := marked + [i];
        } else {
          var match_ := SigMatches(t);
          sigsMatch := sigsMatch && match_;
          isUpToDate := isUpToDate && match_;
        }
        cachedError := cachedError || t.info.result;
      } else {
        cachable := false;
        isUpToDate := false;
      }
    }
  }

  /** What SConfBuildTask.execute does. */
  datatype Decision =
    | RaiseCacheError     // ConfigureCacheError(targets[0])
    | RaiseCachedFailure  // BuildError: failed before, sources up to date
    | ReportUpToDate
    | RaiseDryRunError    // ConfigureDryRunError(targets[0])
    | BuildTarget

  /** The decision table of execute, in its order. */
  function Decide(cacheMode: int, isUpToDate: bool, cachedError: bool, cachable: bool, dryrun: bool): (d: Decision)
    ensures d == RaiseCacheError <==> cacheMode == Cache && !cachable
    ensures d == RaiseCachedFailure <==> !(cacheMode == Cache && !cachable) && cacheMode != Force && cachedError && isUpToDate
    ensures d == ReportUpToDate <==> !(cacheMode == Cache && !cachable) && cacheMode != Force && !cachedError && isUpToDate
    ensures d == BuildTarget ==> !dryrun
    ensures d == RaiseDryRunError <==> !(cacheMode == Cache && !cachable) && (cacheMode == Force || !isUpToDate) && dryrun
  {
    if cacheMode == Cache && !cachable then RaiseCacheError
    else
      var upToDate := if cacheMode == Force then false else isUpToDate;
      if cachedError && upToDate then RaiseCachedFailure
      else if upToDate then ReportUpToDate
      else if dryrun then RaiseDryRunError
      else BuildTarget
  }

  /** A pure collect_node_states, the reference for the lemmas below. */
  function Collected(targets: seq<Target>, cacheMode: int): (bool, bool, bool)
  {
    var cachable := forall i :: 0 <= i < |targets| ==> targets[i].info.SConfInfo?;
    var upToDate := cachable && (cacheMode == Cache || forall i :: 0 <= i < |targets| ==> SigMatches(targets[i]));
    var cachedError := exists i :: 0 <= i < |targets| && targets[i].info.SConfInfo? && targets[i].info.result;
    (upToDate, cachedError, cachable)
  }

  /** In CACHE mode nothing is ever rebuilt: the tests come from the cache
      (as a result or as the stored failure) or the cache error is raised. */
  lemma CacheModeNeverBuilds(targets: seq<Target>, dryrun: bool)
    ensures var (u, e, c) := Collected(targets, Cache);
      Decide(Cache, u, e, c, dryrun) in {RaiseCacheError, RaiseCachedFailure, ReportUpToDate}
  {
  }

  /** In FORCE mode nothing is reported up to date: every test is built
      again (or refused in a dry run). */
  lemma ForceModeRebuilds(targets: seq<Target>, dryrun: bool)
    ensures var (u, e, c) := Collected(targets, Force);
      Decide(Force, u, e, c, dryrun) == (if dryrun then RaiseDryRunError else BuildTarget)
  {
  }

  /** A target that was never built in a configure context is always
      built (in AUTO mode, outside a dry run). */
  lemma NewTargetBuilds(targets: seq<Target>, k: int)
    requires 0 <= k < |targets| && targets[k].info.OtherInfo?
    ensures var (u, e, c) := Collected(targets, Auto);
      Decide(Auto, u, e, c, false) == BuildTarget
  {
    var (u, e, c) := Collected(targets, Auto);
    assert !c;
  }

  /** BuildNodes: 1 unless some node ends in a state other than executed
      and up_to_date. */
  method BuildNodesResult(states: seq<int>) returns (ret: int)
    ensures ret == 0 <==> exists i :: 0 <= i < |states| && states[i] != Node.Executed && states[i] != Node.UpToDate
    ensures ret == 0 || ret == 1
  {
    ret := 1;
    for i := 0 to |states|
      invariant ret == 0 <==> exists j :: 0 <= j < i && states[j] != Node.Executed && states[j] != Node.UpToDate
      invariant ret == 0 || ret == 1
    {
      if states[i] != Node.Executed && states[i] != Node.UpToDate {
        ret := 0;
      }
    }
  }

  const FinishTwice: string := "Finish may be called only once!"
  const AfterFinish: string := "Test called after sconf.Finish()"

  /** The guard of TestWrapper.__call__ as written: `raise (UserError,
      msg)` raises the first element of the tuple, so the error carries no
      message. */
  function TestGuardAsWritten(active: bool): (r: Option<Error>)
    ensures r.Some? <==> !active
    ensures r.Some? ==> r.value == UserError("")
  {
    if !active then Some(UserError("")) else None
  }

  /** The guard with the message it is meant to carry. */
  function TestGuard(active: bool): (r: Option<Error>)
    ensures r.Some? <==> !active
    ensures r.Some? ==> r.value == UserError(AfterFinish)
  {
    if !active then Some(UserError(AfterFinish)) else None
  }

  /** After Finish, the written guard reports a UserError whose message is
      empty; the intended one names the misuse. */
  lemma TestGuardLosesMessage()
    ensures TestGuardAsWritten(false).value.msg == ""
    ensures TestGuard(false).value.msg == AfterFinish && AfterFinish != ""
  {
  }

  /** A Configure context: whether it is active, whether a cached result is
      being reported, the messages shown, and the config.h text it
      collects (config_h is None when no config.h file was asked for). */
  class SConfContext {
    var active: bool
    var cached: bool
    var shown: seq<string>
    var configHText: string
    const configH: Option<string>
    /** _ac_config_hs: the config.h texts of all finished contexts. */
    var configHs: map<string, string>

    constructor(configH: Option<string>, configHs: map<string, string>)
      ensures active && !cached && shown == [] && this.configH == configH && this.configHs == configHs
      ensures configHText == (if configH.Some? && configH.value in configHs then configHs[configH.value] else "")
    {
      this.active := true;
      this.cached := false;
      this.shown := [];
      this.configH := configH;
      this.configHs := configHs;
      this.configHText := if configH.Some? && configH.value in configHs then configHs[configH.value] else "";
    }

    /** _shutdown: only once; the config.h text is handed on. */
    method Shutdown() returns (err: Option<Error>)
      modifies this
      ensures !old(active) ==> err == Some(UserError(FinishTwice)) && configHs == old(configHs)
      ensures old(active) ==> (err == None &&
        configHs == (if configH.Some? then old(configHs)[configH.value := configHText] else old(configHs)))
      ensures !active && cached == old(cached) && shown == old(shown) && configHText == old(configHText)
    {
      if !active {
        return Some(UserError(FinishTwice));
      }
      active := false;
      if configH.Some? {
        configHs := configHs[configH.value := configHText];
      }
      err := None;
    }

    /** TestWrapper.__call__ with the message it is meant to carry.  The
        test itself is abstract: its return value, the config.h text it
        produced, the messages it showed, the cached flag it left behind
        (Message sets it) and whether it displayed a result are parameters.
        When the test did not display a result, "error: no result" is
        shown, with the "(cached) " prefix when the test left the flag set. */
    method CallTest(ret: Value, testConfigH: string, testShown: seq<string>, testCached: bool, testShowed: bool)
      returns (r: Result<Value>)
      modifies this
      ensures !old(active) ==> (r == Err(UserError(AfterFinish)) && shown == old(shown) &&
        configHText == old(configHText) && cached == old(cached))
      ensures old(active) ==> (r == Ok(ret) &&
        configHText == old(configHText) + (if configH.Some? then testConfigH else "") &&
        shown == old(shown) + testShown + (if testShowed then [] else [Shown(testCached, "error: no result\n")]) &&
        cached == (testCached && testShowed))
      ensures active == old(active) && configHs == old(configHs)
    {
      var guard := TestGuard(active);
      if guard.Some? {
        return Err(guard.value);
      }
      var context := new CheckContext(this);
      shown, cached := shown + testShown, testCached;
      context.configH := testConfigH;
      context.didShowResult := testShowed;
      if configH.Some? {
        configHText := configHText + context.configH;
      }
      assert ResultText(Str("error: no result")).value + "\n" == "error: no result\n";
      ghost var before := shown;
      var _ := context.Result(Str("error: no result"));
      assert shown == before + (if testShowed then [] else [Shown(testCached, "error: no result\n")]);
      r := Ok(ret);
    }
  }

  /** A CheckContext: the Configure context it reports to, whether the
      current test already showed its result, and the config.h text the
      test produced. */
  class CheckContext {
    const sconf: SConfContext
    var didShowResult: bool
    var configH: string

    constructor(sconf: SConfContext)
      ensures this.sconf == sconf && !didShowResult && configH == ""
    {
      this.sconf := sconf;
      this.didShowResult := false;
      this.configH := "";
    }

    /** Display: the cached prefix is shown once and then cleared. */
    method Display(msg: string)
      modifies sconf
      ensures sconf.shown == old(sconf.shown) + [Shown(old(sconf.cached), msg)]
      ensures !sconf.cached
      ensures sconf.active == old(sconf.active) && sconf.configHText == old(sconf.configHText)
      ensures sconf.configHs == old(sconf.configHs)
    {
      var m := msg;
      if sconf.cached {
        m := "(cached) " + msg;
        sconf.cached := false;
      }
      sconf.shown := sconf.shown + [m];
    }

    /** Message: shown, then a result may be shown again. */
    method Message(text: string)
      modifies this, sconf
      ensures sconf.shown == old(sconf.shown) + [Shown(old(sconf.cached), text)]
      ensures sconf.cached && !didShowResult && configH == old(configH)
      ensures sconf.active == old(sconf.active) && sconf.configHText == old(sconf.configHText)
      ensures sconf.configHs == old(sconf.configHs)
    {
      Display(text);
      sconf.cached := true;
      didShowResult := false;
    }

    /** Result: the text is shown only when no result was shown since the
        last Message. */
    method Result(res: Value) returns (err: Option<Error>)
      modifies this, sconf
      ensures ResultText(res).Err? ==> (err == Some(ResultText(res).error) && sconf.shown == old(sconf.shown) &&
        didShowResult == old(didShowResult) && sconf.cached == old(sconf.cached))
      ensures ResultText(res).Ok? ==> (err == None && didShowResult &&
        sconf.shown == old(sconf.shown) + (if old(didShowResult) then [] else [Shown(old(sconf.cached), ResultText(res).value + "\n")]))
      ensures ResultText(res).Ok? && old(didShowResult) ==> sconf.cached == old(sconf.cached)
      ensures ResultText(res).Ok? && !old(didShowResult) ==> !sconf.cached
      ensures configH == old(configH) && sconf.active == old(sconf.active)
      ensures sconf.configHText == old(sconf.configHText) && sconf.configHs == old(sconf.configHs)
    {
      var text := ResultText(res);
      if text.Err? {
        return Some(text.error);
      }
      if !didShowResult {
        Display(text.value + "\n");
        didShowResult := true;
      }
      err := None;
    }
  }
}
