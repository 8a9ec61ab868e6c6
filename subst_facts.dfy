/** What scons_subst and scons_subst_once promise: strings without `$`
    pass through, `$$` is a dollar sign, undefined variables vanish, local
    variables shadow global ones, a variable that refers to itself stops
    expanding, the special TARGET/SOURCE variables override the caller's,
    and the mode decides what happens to `$( ... $)` and to white space. */
module SubstFacts {
  import opened Errors
  import opened Strings
  import opened Values
  import opened SubstLex
  import opened Subst

  /** A plain variable name as `$name` spells it: `[_a-zA-Z]\w*`. */
  predicate IsName(name: string)
  {
    name != [] && IsVarStart(name[0]) && '.' !in name &&
    forall i :: 0 <= i < |name| ==> IsNameChar(name[i])
  }

  // ---------------------------------------------------------------
  // Tokens of the strings the lemmas talk about

  lemma {:induction false} NameRunAppend(a: string, rest: string)
    requires forall i :: 0 <= i < |a| ==> IsNameChar(a[i])
    requires rest == [] || !IsNameChar(rest[0])
    ensures NameRun(a + rest) == |a|
    decreases |a|
  {
    if a != [] {
      assert (a + rest)[1..] == a[1..] + rest;
      NameRunAppend(a[1..], rest);
    } else {
      assert a + rest == rest;
    }
  }

  /** `$name` followed by a character that cannot continue a name is one
      token. */
  lemma TokensVar(name: string, rest: string)
    requires IsName(name)
    requires rest == [] || !IsNameChar(rest[0])
    ensures Tokens("$" + name + rest) == ["$" + name] + Tokens(rest)
  {
    var s := "$" + name + rest;
    assert s[2..] == name[1..] + rest;
    NameRunAppend(name[1..], rest);
    assert TokenLen(s) == |name| + 1;
    assert s[..|name| + 1] == "$" + name;
    assert s[|name| + 1..] == rest;
  }

  lemma TokensDollarDollar(rest: string)
    ensures Tokens("$$" + rest) == ["$$"] + Tokens(rest)
  {
    var s := "$$" + rest;
    assert TokenLen(s) == 2;
    assert s[..2] == "$$" && s[2..] == rest;
  }

  // ---------------------------------------------------------------
  // scons_subst

  /** scons_subst of a value that is not a `$`-free string and substitutes
      to the string r: r post-processed. */
  lemma SconsSubstStr(mode: Mode, x: Value, gvars: Vars, lvars: Vars, target: seq<Value>,
                      source: seq<Value>, ev: (string, Vars, Vars) -> EvalOutcome,
                      call: (string, bool) -> CallOutcome, fuel: nat, r: string)
    requires !(x.Str? && '$' !in x.s)
    requires Substitute(Subber(mode, gvars, target, ev, call), x, lvars + SubstDict(target, source), fuel) == Ok(Str(r))
    ensures SconsSubst(mode, x, gvars, lvars, target, source, ev, call, fuel) == Ok(Str(PostProcess(mode, r)))
  {
  }

  /** Tokens with no dollar expression among them are copied unchanged. */
  lemma {:induction false} SubstTokensPlain(sb: Subber, toks: seq<string>, lvars: Vars, fuel: nat)
    requires forall i :: 0 <= i < |toks| ==> !IsDollarToken(toks[i])
    ensures SubstTokens(sb, toks, lvars, fuel) == Ok(Concat(toks))
    decreases |toks|
  {
    if toks != [] {
      SubstTokensPlain(sb, toks[1..], lvars, fuel);
    }
  }

  /** A string without `$` substitutes to itself, at any depth. */
  lemma SubstituteNoDollar(sb: Subber, s: string, lvars: Vars, fuel: nat)
    requires '$' !in s
    ensures Substitute(sb, Str(s), lvars, fuel) == Ok(Str(s))
  {
    TokensNoDollar(s);
    var toks := Tokens(s);
    forall i | 0 <= i < |toks| ensures !IsDollarToken(toks[i]) {
      assert toks[i] != [] && '$' !in toks[i];
    }
    SubstTokensPlain(sb, toks, lvars, fuel);
    TokensConcat(s);
  }

  /** Each element of a list of plain strings is kept; the elements are
      joined with single spaces. */
  lemma {:induction false} JoinItemsPlain(sb: Subber, items: seq<Value>, lvars: Vars, fuel: nat)
    requires forall i :: 0 <= i < |items| ==> items[i].Str? && '$' !in items[i].s
    ensures JoinItems(sb, items, lvars, fuel) == Ok(Join(ItemStrings(items), " "))
    decreases |items|
  {
    if items != [] {
      SubstituteNoDollar(sb, items[0].s, lvars, fuel);
      JoinItemsPlain(sb, items[1..], lvars, fuel);
      assert ItemStrings(items) == [items[0].s] + ItemStrings(items[1..]);
    }
  }

  /** A list of plain strings substitutes to those strings joined by
      spaces (RAW mode leaves the result as it is). */
  lemma SubstPlainList(items: seq<Value>, gvars: Vars, lvars: Vars, target: seq<Value>,
                       source: seq<Value>, ev: (string, Vars, Vars) -> EvalOutcome,
                       call: (string, bool) -> CallOutcome, fuel: nat)
    requires forall i :: 0 <= i < |items| ==> items[i].Str? && '$' !in items[i].s
    ensures SconsSubst(Raw, Lst(items), gvars, lvars, target, source, ev, call, fuel)
         == Ok(Str(Join(ItemStrings(items), " ")))
  {
    var sb := Subber(Raw, gvars, target, ev, call);
    var lv := lvars + SubstDict(target, source);
    var r := Join(ItemStrings(items), " ");
    SubstituteList(sb, items, lv, fuel);
    SconsSubstStr(Raw, Lst(items), gvars, lvars, target, source, ev, call, fuel, r);
    PostProcessShape(Raw, r);
  }

  lemma SubstituteList(sb: Subber, items: seq<Value>, lvars: Vars, fuel: nat)
    requires forall i :: 0 <= i < |items| ==> items[i].Str? && '$' !in items[i].s
    ensures Substitute(sb, Lst(items), lvars, fuel) == Ok(Str(Join(ItemStrings(items), " ")))
  {
    JoinItemsPlain(sb, items, lvars, fuel);
    assert Substitute(sb, Lst(items), lvars, fuel) == Expand(sb, Lst(items), lvars, fuel);
  }

  /** `$$` becomes a single `$`, and the text after it is substituted on
      its own. */
  lemma EscapedDollar(sb: Subber, rest: string, lvars: Vars, fuel: nat)
    requires '$' !in rest
    ensures Substitute(sb, Str("$$" + rest), lvars, fuel) == Ok(Str("$" + rest))
  {
    TokensDollarDollar(rest);
    var toks := Tokens("$$" + rest);
    assert toks[0] == "$$" && toks[1..] == Tokens(rest);
    assert ExpandStr(sb, "$$", lvars, fuel) == Ok(Str("$"));
    assert SubstToken(sb, "$$", lvars, fuel) == Ok("$");
    SubstituteNoDollar(sb, rest, lvars, fuel);
    assert SubstTokens(sb, Tokens(rest), lvars, fuel) == Ok(rest);
    assert SubstTokens(sb, toks, lvars, fuel) == Ok("$" + rest);
  }

  /** In every mode, scons_subst of "$$" is "$". */
  lemma DollarDollarEveryMode(mode: Mode, gvars: Vars, lvars: Vars, target: seq<Value>,
                              source: seq<Value>, ev: (string, Vars, Vars) -> EvalOutcome,
                              call: (string, bool) -> CallOutcome, fuel: nat)
    ensures SconsSubst(mode, Str("$$"), gvars, lvars, target, source, ev, call, fuel) == Ok(Str("$"))
  {
    var sb := Subber(mode, gvars, target, ev, call);
    assert '$' in "$$" by { assert "$$"[0] == '$'; }
    EscapedDollar(sb, "", lvars + SubstDict(target, source), fuel);
    assert "$$" + "" == "$$" && "$" + "" == "$";
    SconsSubstStr(mode, Str("$$"), gvars, lvars, target, source, ev, call, fuel, "$");
    PostProcessDollar(mode);
  }

  lemma PostProcessDollar(mode: Mode)
    ensures PostProcess(mode, "$") == "$"
  {
    var d := "$";
    SettledKept(mode, d);
  }

  /** The string `$name` followed by text that cannot continue the name
      substitutes as its two parts. */
  lemma SubstVarThen(sb: Subber, name: string, rest: string, lvars: Vars, fuel: nat)
    requires IsName(name) && (rest == [] || !IsNameChar(rest[0]))
    ensures Substitute(sb, Str("$" + name + rest), lvars, fuel)
         == Joined(Cat(SubstToken(sb, "$" + name, lvars, fuel), SubstTokens(sb, Tokens(rest), lvars, fuel)))
  {
    TokensVar(name, rest);
    var toks := Tokens("$" + name + rest);
    assert toks[0] == "$" + name && toks[1..] == Tokens(rest);
  }

  /** A plain name is looked up in the local variables, then in the global
      ones, and re-substituted with its name masked. */
  lemma SubstTokenName(sb: Subber, name: string, lvars: Vars, fuel: nat)
    requires IsName(name)
    ensures SubstToken(sb, "$" + name, lvars, fuel) ==
      var v := if name in lvars then Resubst(sb, lvars[name], lvars[name := Str("")], fuel)
               else if name in sb.gvars then Resubst(sb, sb.gvars[name], lvars[name := Str("")], fuel)
               else Ok(Str(""));
      if v.Ok? then Ok(Conv(sb.mode, v.value)) else Err(v.error)
  {
    var t := "$" + name;
    assert t[1..] == name;
    assert t[0] == '$' && t[1] == name[0];
    assert IsDollarToken(t);
    assert name[0] != '{' && name[0] != '$' && name[0] != '(' && name[0] != ')';
    assert Expand(sb, Str(t), lvars, fuel) == ExpandStr(sb, t, lvars, fuel);
  }

  /** A value that is neither a string, a list nor a callable is not
      expanded further. */
  lemma ResubstPlain(sb: Subber, v: Value, lvars: Vars, fuel: nat)
    requires fuel >= 1 && (v.Obj? || v.Int? || v.Dict?)
    ensures Resubst(sb, v, lvars, fuel) == Ok(v)
  {
    assert Substitute(sb, v, lvars, fuel - 1) == Expand(sb, v, lvars, fuel - 1);
  }

  /** None expands to ''. */
  lemma ResubstNone(sb: Subber, lvars: Vars, fuel: nat)
    requires fuel >= 1
    ensures Resubst(sb, Null, lvars, fuel) == Ok(Str(""))
  {
    assert Substitute(sb, Null, lvars, fuel - 1) == Expand(sb, Null, lvars, fuel - 1);
  }

  /** A `$name` defined in neither dictionary expands to nothing. */
  lemma UndefinedVariable(sb: Subber, name: string, rest: string, lvars: Vars, fuel: nat)
    requires IsName(name) && name !in lvars && name !in sb.gvars
    requires '$' !in rest && (rest == [] || !IsNameChar(rest[0]))
    ensures Substitute(sb, Str("$" + name + rest), lvars, fuel) == Ok(Str(rest))
  {
    SubstVarThen(sb, name, rest, lvars, fuel);
    SubstTokenName(sb, name, lvars, fuel);
    assert SubstToken(sb, "$" + name, lvars, fuel) == Ok("");
    SubstituteNoDollar(sb, rest, lvars, fuel);
    assert SubstTokens(sb, Tokens(rest), lvars, fuel) == Ok(rest);
    assert "" + rest == rest;
  }

  /** A local variable is used before a global one of the same name, and a
      global one when there is no local one. */
  lemma LocalShadowsGlobal(sb: Subber, name: string, v: string, lvars: Vars, fuel: nat)
    requires IsName(name) && '$' !in v && fuel >= 1
    requires name in lvars || name in sb.gvars
    requires (if name in lvars then lvars[name] else sb.gvars[name]) == Str(v)
    ensures Substitute(sb, Str("$" + name), lvars, fuel) == Ok(Str(v))
  {
    SubstVarThen(sb, name, "", lvars, fuel);
    assert "$" + name + "" == "$" + name;
    SubstTokenName(sb, name, lvars, fuel);
    SubstituteNoDollar(sb, v, lvars[name := Str("")], fuel - 1);
    assert Tokens("") == [];
    assert v + "" == v;
  }

  /** A variable whose value refers to itself expands it once: the inner
      reference finds the name masked and yields ''. */
  lemma SelfReferenceStops(sb: Subber, name: string, lvars: Vars, fuel: nat)
    requires IsName(name) && name !in lvars && name in sb.gvars
    requires sb.gvars[name] == Str("$" + name) && fuel >= 2
    ensures Substitute(sb, Str("$" + name), lvars, fuel) == Ok(Str(""))
  {
    SubstVarThen(sb, name, "", lvars, fuel);
    assert "$" + name + "" == "$" + name;
    SubstTokenName(sb, name, lvars, fuel);
    var lv := lvars[name := Str("")];
    LocalShadowsGlobal(sb, name, "", lv, fuel - 1);
    assert Tokens("") == [];
  }

  /** `$name` bound to a node proxy or to None. */
  lemma SubstProxyName(sb: Subber, name: string, lvars: Vars, fuel: nat)
    requires IsName(name) && fuel >= 1 && name in lvars
    requires lvars[name].Obj? || lvars[name].Null?
    ensures Substitute(sb, Str("$" + name), lvars, fuel)
         == Ok(Str(if lvars[name].Obj? then Conv(sb.mode, lvars[name]) else ""))
  {
    SubstVarThen(sb, name, "", lvars, fuel);
    assert "$" + name + "" == "$" + name;
    SubstTokenName(sb, name, lvars, fuel);
    var r := if lvars[name].Obj? then Conv(sb.mode, lvars[name]) else "";
    if lvars[name].Obj? {
      ResubstPlain(sb, lvars[name], lvars[name := Str("")], fuel);
    } else {
      ResubstNone(sb, lvars[name := Str("")], fuel);
    }
    assert SubstToken(sb, "$" + name, lvars, fuel) == Ok(r);
    assert Tokens("") == [];
    assert SubstTokens(sb, Tokens(""), lvars, fuel) == Ok("");
    assert r + "" == r;
  }

  /** The names subst_dict binds, and what it binds them to. */
  lemma SubstDictNames(name: string, target: seq<Value>, source: seq<Value>)
    requires name in {"TARGET", "TARGETS", "SOURCE", "SOURCES"}
    ensures IsName(name) && name in SubstDict(target, source)
    ensures var nl := if name[0] == 'T' then target else source;
            SubstDict(target, source)[name] ==
              if nl == [] then Null else if name[|name| - 1] == 'S' then Lst(nl) else nl[0]
  {
  }

  /** `$name` for one of subst_dict's names bound to a node proxy or None. */
  lemma SpecialName(mode: Mode, name: string, gvars: Vars, lvars: Vars, target: seq<Value>,
                    source: seq<Value>, ev: (string, Vars, Vars) -> EvalOutcome,
                    call: (string, bool) -> CallOutcome, fuel: nat)
    requires IsName(name) && fuel >= 1 && name in SubstDict(target, source)
    requires SubstDict(target, source)[name].Obj? || SubstDict(target, source)[name].Null?
    ensures SconsSubst(mode, Str("$" + name), gvars, lvars, target, source, ev, call, fuel)
         == Ok(Str(PostProcess(mode, var v := SubstDict(target, source)[name];
                                     if v.Obj? then Conv(mode, v) else "")))
  {
    var sb := Subber(mode, gvars, target, ev, call);
    var lv := lvars + SubstDict(target, source);
    assert lv[name] == SubstDict(target, source)[name];
    SubstProxyName(sb, name, lv, fuel);
    assert ("$" + name)[0] == '$';
    var v := SubstDict(target, source)[name];
    SconsSubstStr(mode, Str("$" + name), gvars, lvars, target, source, ev, call, fuel,
                  if v.Obj? then Conv(mode, v) else "");
  }

  /** $TARGET (or $SOURCE) is the first target (source), whatever the
      caller's variables say: its str(), or its for_signature() in SIG
      mode, post-processed; with no targets (sources) it is ''. */
  lemma TargetOverridesCaller(mode: Mode, name: string, gvars: Vars, lvars: Vars, target: seq<Value>,
                              source: seq<Value>, ev: (string, Vars, Vars) -> EvalOutcome,
                              call: (string, bool) -> CallOutcome, fuel: nat)
    requires name == "TARGET" || name == "SOURCE"
    requires var nl := if name == "TARGET" then target else source; nl == [] || nl[0].Obj?
    requires fuel >= 1
    ensures (var nl := if name == "TARGET" then target else source;
             SconsSubst(mode, Str("$" + name), gvars, lvars, target, source, ev, call, fuel)
             == Ok(Str(if nl == [] then "" else
                       PostProcess(mode, if mode == Sig then nl[0].forsig else nl[0].str))))
  {
    SubstDictNames(name, target, source);
    SpecialName(mode, name, gvars, lvars, target, source, ev, call, fuel);
    var e := "";
    SettledKept(mode, e);
  }

  /** str() of the $TARGET (or $SOURCE) wrapper is what RAW substitution of
      `$TARGET` (`$SOURCE`) gives, when the nodes are proxies. */
  lemma TargetOrSourceStrIsExpansion(name: string, gvars: Vars, lvars: Vars, target: seq<Value>,
                                     source: seq<Value>, ev: (string, Vars, Vars) -> EvalOutcome,
                                     call: (string, bool) -> CallOutcome, fuel: nat)
    requires name == "TARGET" || name == "SOURCE"
    requires var nl := if name == "TARGET" then target else source; nl == [] || nl[0].Obj?
    requires fuel >= 1
    ensures (var nl := if name == "TARGET" then target else source;
             SconsSubst(Raw, Str("$" + name), gvars, lvars, target, source, ev, call, fuel)
             == Ok(Str(TargetOrSourceStr(nl))))
  {
    TargetOverridesCaller(Raw, name, gvars, lvars, target, source, ev, call, fuel);
    var nl := if name == "TARGET" then target else source;
    if nl != [] {
      PostProcessShape(Raw, nl[0].str);
    }
  }

  /** Node proxies are not expanded further: a list of them becomes their
      strings joined by spaces. */
  lemma {:induction false} JoinItemsObjects(sb: Subber, items: seq<Value>, lvars: Vars, fuel: nat)
    requires forall i :: 0 <= i < |items| ==> items[i].Obj?
    ensures JoinItems(sb, items, lvars, fuel) == Ok(Join(ConvAll(sb.mode, items), " "))
    decreases |items|
  {
    if items != [] {
      assert Substitute(sb, items[0], lvars, fuel) == Expand(sb, items[0], lvars, fuel);
      assert Substitute(sb, items[0], lvars, fuel) == Ok(items[0]);
      JoinItemsObjects(sb, items[1..], lvars, fuel);
      assert ConvAll(sb.mode, items) == [Conv(sb.mode, items[0])] + ConvAll(sb.mode, items[1..]);
    }
  }

  function ConvAll(mode: Mode, items: seq<Value>): (r: seq<string>)
    ensures |r| == |items|
    ensures forall i :: 0 <= i < |items| ==> r[i] == Conv(mode, items[i])
  {
    if items == [] then [] else [Conv(mode, items[0])] + ConvAll(mode, items[1..])
  }

  /** `$name` bound to a list of node proxies. */
  lemma SubstProxyList(sb: Subber, name: string, lvars: Vars, fuel: nat)
    requires IsName(name) && fuel >= 1 && name in lvars && lvars[name].Lst?
    requires forall i :: 0 <= i < |lvars[name].items| ==> lvars[name].items[i].Obj?
    ensures Substitute(sb, Str("$" + name), lvars, fuel)
         == Ok(Str(Join(ConvAll(sb.mode, lvars[name].items), " ")))
  {
    var items := lvars[name].items;
    var lv := lvars[name := Str("")];
    var r := Join(ConvAll(sb.mode, items), " ");
    SubstVarThen(sb, name, "", lvars, fuel);
    assert "$" + name + "" == "$" + name;
    SubstTokenName(sb, name, lvars, fuel);
    JoinItemsObjects(sb, items, lv, fuel - 1);
    assert Substitute(sb, Lst(items), lv, fuel - 1) == Expand(sb, Lst(items), lv, fuel - 1);
    assert Resubst(sb, Lst(items), lv, fuel) == Ok(Str(r));
    assert SubstToken(sb, "$" + name, lvars, fuel) == Ok(r);
    assert Tokens("") == [];
    assert SubstTokens(sb, Tokens(""), lvars, fuel) == Ok("");
    assert r + "" == r;
  }

  /** `$name` for one of subst_dict's names bound to a list of node
      proxies. */
  lemma SpecialList(mode: Mode, name: string, gvars: Vars, lvars: Vars, target: seq<Value>,
                    source: seq<Value>, ev: (string, Vars, Vars) -> EvalOutcome,
                    call: (string, bool) -> CallOutcome, fuel: nat)
    requires IsName(name) && fuel >= 1 && name in SubstDict(target, source)
    requires SubstDict(target, source)[name].Lst?
    requires forall i :: 0 <= i < |SubstDict(target, source)[name].items| ==>
      SubstDict(target, source)[name].items[i].Obj?
    ensures SconsSubst(mode, Str("$" + name), gvars, lvars, target, source, ev, call, fuel)
         == Ok(Str(PostProcess(mode, Join(ConvAll(mode, SubstDict(target, source)[name].items), " "))))
  {
    var sb := Subber(mode, gvars, target, ev, call);
    var lv := lvars + SubstDict(target, source);
    assert lv[name] == SubstDict(target, source)[name];
    SubstProxyList(sb, name, lv, fuel);
    assert ("$" + name)[0] == '$';
    SconsSubstStr(mode, Str("$" + name), gvars, lvars, target, source, ev, call, fuel,
                  Join(ConvAll(mode, SubstDict(target, source)[name].items), " "));
  }

  /** $TARGETS (or $SOURCES) is every target (source), joined by spaces
      (RAW mode). */
  lemma TargetsJoined(name: string, gvars: Vars, lvars: Vars, target: seq<Value>, source: seq<Value>,
                      ev: (string, Vars, Vars) -> EvalOutcome,
                      call: (string, bool) -> CallOutcome, fuel: nat)
    requires name == "TARGETS" || name == "SOURCES"
    requires var nl := if name == "TARGETS" then target else source;
             nl != [] && forall i :: 0 <= i < |nl| ==> nl[i].Obj?
    requires fuel >= 1
    ensures (var nl := if name == "TARGETS" then target else source;
             SconsSubst(Raw, Str("$" + name), gvars, lvars, target, source, ev, call, fuel)
             == Ok(Str(Join(ConvAll(Raw, nl), " "))))
  {
    SubstDictNames(name, target, source);
    SpecialList(Raw, name, gvars, lvars, target, source, ev, call, fuel);
  }

  // ---------------------------------------------------------------
  // Post-processing by mode

  /** RAW leaves the expansion alone; the other modes strip it. */
  lemma PostProcessShape(mode: Mode, s: string)
    ensures mode == Raw ==> PostProcess(mode, s) == s
    ensures mode != Raw ==> PostProcess(mode, s) == Strip(CollapseSpaces(
      if mode == Cmd then RemoveMarkers(s) else RemoveSig(s)))
  {
  }

  lemma RemoveMarkersHead(marker: string, b: string)
    requires marker == "$(" || marker == "$)"
    ensures RemoveMarkers(marker + b) == RemoveMarkers(b)
  {
    var s := marker + b;
    assert s[0] == '$' && (s[1] == '(' || s[1] == ')');
    assert s[2..] == b;
  }

  lemma RemoveMarkersCons(c: char, t: string)
    requires c != '$'
    ensures RemoveMarkers([c] + t) == [c] + RemoveMarkers(t)
  {
    assert ([c] + t)[0] == c && ([c] + t)[1..] == t;
  }

  /** Text without `$` has no marker to remove. */
  lemma RemoveMarkersPlain(s: string)
    requires '$' !in s
    ensures RemoveMarkers(s) == s
  {
    RemoveMarkersPlainPrefix(s, []);
    assert s + [] == s;
  }

  /** Text without `$` passes through the removal of markers unchanged,
      whatever follows it. */
  lemma {:induction false} RemoveMarkersPlainPrefix(a: string, x: string)
    requires '$' !in a
    ensures RemoveMarkers(a + x) == a + RemoveMarkers(x)
    decreases |a|
  {
    if a == [] {
      assert a + x == x;
    } else {
      NotInDrop('$', a, 1);
      RemoveMarkersPlainPrefix(a[1..], x);
      assert a[0] != '$' by { assert a[0] in a; }
      assert (a + x)[0] == a[0] && (a + x)[1..] == a[1..] + x;
      assert a == [a[0]] + a[1..];
    }
  }

  /** CMD mode deletes a `$(` or `$)` marker and keeps what it encloses. */
  lemma CmdDropsMarker(a: string, marker: string, b: string)
    requires '$' !in a && (marker == "$(" || marker == "$)")
    ensures RemoveMarkers(a + marker + b) == a + RemoveMarkers(b)
  {
    assert a + marker + b == a + (marker + b);
    RemoveMarkersPlainPrefix(a, marker + b);
    RemoveMarkersHead(marker, b);
  }

  /** The scan after `$(` stops at the first `$)` when the text in
      between has no `$`. */
  lemma {:induction false} SigScanPlain(m: string, b: string)
    requires '$' !in m
    ensures SigScan(m + "$)" + b) == Some(|m| + 2)
    decreases |m|
  {
    if m == [] {
      assert m + "$)" + b == "$)" + b;
    } else {
      assert (m + "$)" + b)[1..] == m[1..] + "$)" + b;
      NotInDrop('$', m, 1);
      SigScanPlain(m[1..], b);
    }
  }

  lemma RemoveSigHead(m: string, b: string)
    requires '$' !in m
    ensures RemoveSig("$(" + m + "$)" + b) == RemoveSig(b)
  {
    var s := "$(" + m + "$)" + b;
    assert s[0] == '$' && s[1] == '(';
    assert s[2..] == m + "$)" + b;
    SigScanPlain(m, b);
    assert s[2 + |m| + 2..] == b;
  }

  lemma RemoveSigCons(c: char, t: string)
    requires c != '$'
    ensures RemoveSig([c] + t) == [c] + RemoveSig(t)
  {
    assert ([c] + t)[0] == c && ([c] + t)[1..] == t;
  }

  /** SIG mode deletes a `$( ... $)` span together with what it
      encloses. */
  lemma {:induction false} SigDropsSpan(a: string, m: string, b: string)
    requires '$' !in a && '$' !in m
    ensures RemoveSig(a + "$(" + m + "$)" + b) == a + RemoveSig(b)
    decreases |a|
  {
    var tail := "$(" + m + "$)" + b;
    if a == [] {
      assert a + "$(" + m + "$)" + b == tail;
      RemoveSigHead(m, b);
    } else {
      var a' := a[1..];
      assert a[0] != '$' by { assert a[0] in a; }
      assert a + "$(" + m + "$)" + b == [a[0]] + (a' + "$(" + m + "$)" + b);
      RemoveSigCons(a[0], a' + "$(" + m + "$)" + b);
      NotInDrop('$', a, 1);
      SigDropsSpan(a', m, b);
      assert a == [a[0]] + a';
    }
  }

  /** An unclosed `$(` is not removed in SIG mode. */
  lemma {:induction false} SigScanUnclosed(m: string)
    requires '$' !in m
    ensures SigScan(m) == None
    decreases |m|
  {
    if m != [] {
      NotInDrop('$', m, 1);
      SigScanUnclosed(m[1..]);
    }
  }

  lemma {:induction false} RemoveSigPlain(s: string)
    requires '$' !in s
    ensures RemoveSig(s) == s
    decreases |s|
  {
    if s != [] {
      NotInDrop('$', s, 1);
      RemoveSigPlain(s[1..]);
    }
  }

  lemma SigKeepsUnclosed(m: string)
    requires '$' !in m
    ensures RemoveSig("$(" + m) == "$(" + m
  {
    var s := "$(" + m;
    assert s[2..] == m;
    SigScanUnclosed(m);
    assert s[1..] == "(" + m;
    assert ("(" + m)[1..] == m;
    RemoveSigPlain(m);
    assert '$' !in "(" + m;
    RemoveSigPlain("(" + m);
  }

  lemma {:induction false} NoCloseBrace(s: string)
    requires '}' !in s
    ensures !ClosesBrace(s)
    decreases |s|
  {
    if s != [] {
      NotInDrop('}', s, 1);
      NoCloseBrace(s[1..]);
    }
  }

  /** Outside braces, white space collapses: no tab and no two spaces in a
      row are left. */
  lemma {:induction false} CollapseNoBraces(s: string)
    requires '}' !in s
    ensures forall i :: 0 <= i < |CollapseSpaces(s)| ==> CollapseSpaces(s)[i] != '\t'
    ensures forall i :: 0 <= i < |CollapseSpaces(s)| - 1 ==>
      !(CollapseSpaces(s)[i] == ' ' && CollapseSpaces(s)[i + 1] == ' ')
    decreases |s|
  {
    if s != [] {
      if IsBlank(s[0]) {
        var n := BlankRun(s);
        var t := s[n..];
        assert '}' !in t by { assert forall j :: 0 <= j < |t| ==> t[j] == s[n + j]; }
        NoCloseBrace(t);
        CollapseNoBraces(t);
        assert CollapseSpaces(s) == " " + CollapseSpaces(t);
      } else {
        var t := s[1..];
        assert '}' !in t by { assert forall j :: 0 <= j < |t| ==> t[j] == s[1 + j]; }
        CollapseNoBraces(t);
        assert CollapseSpaces(s) == [s[0]] + CollapseSpaces(t);
      }
    }
  }

  // ---------------------------------------------------------------
  // scons_subst_once

  /** Tokens none of which names the key are copied unchanged. */
  lemma {:induction false} OnceTokensUntouched(toks: seq<string>, key: string, val: Value)
    requires forall i :: 0 <= i < |toks| ==> toks[i] != "$" + key && toks[i] != "${" + key + "}"
    ensures OnceTokens(toks, key, val) == Concat(toks)
    decreases |toks|
  {
    if toks != [] {
      OnceTokensUntouched(toks[1..], key, val);
    }
  }

  /** A string that does not mention the key comes back as it was. */
  lemma OnceOtherKeysUntouched(s: string, env: Vars, key: string)
    requires forall i :: 0 <= i < |Tokens(s)| ==> Tokens(s)[i] != "$" + key && Tokens(s)[i] != "${" + key + "}"
    ensures SconsSubstOnce(Str(s), env, key) == Str(s)
  {
    OnceTokensUntouched(Tokens(s), key, if key in env then env[key] else Str(""));
    TokensConcat(s);
  }

  /** `$key` is replaced by the key's string value ('' when the key is
      missing), and what it is replaced by is not expanded again, even
      when it mentions the key itself. */
  lemma OnceReplacesOnce(env: Vars, key: string, rest: string)
    requires IsName(key) && (rest == [] || !IsNameChar(rest[0]))
    requires forall i :: 0 <= i < |Tokens(rest)| ==> Tokens(rest)[i] != "$" + key && Tokens(rest)[i] != "${" + key + "}"
    requires key in env ==> env[key].Str?
    ensures SconsSubstOnce(Str("$" + key + rest), env, key)
         == Str((if key in env then env[key].s else "") + rest)
  {
    var val := if key in env then env[key] else Str("");
    var s := "$" + key + rest;
    TokensVar(key, rest);
    OnceKeyToken(key, val);
    OnceTokensCons("$" + key, Tokens(rest), key, val);
    OnceTokensUntouched(Tokens(rest), key, val);
    TokensConcat(rest);
  }

  lemma OnceKeyToken(key: string, val: Value)
    requires val.Str?
    ensures IsDollarToken("$" + key) == (key != [])
    ensures OnceToken("$" + key, key, val) == val.s
  {
  }

  lemma OnceTokensCons(t: string, toks: seq<string>, key: string, val: Value)
    ensures OnceTokens([t] + toks, key, val)
         == (if IsDollarToken(t) then OnceToken(t, key, val) else t) + OnceTokens(toks, key, val)
  {
    assert ([t] + toks)[0] == t && ([t] + toks)[1..] == toks;
  }

  /** A list or tuple element that is exactly `$key` or `${key}` is
      replaced by the elements of a list or tuple value, and by the value
      itself otherwise (a missing key counts as ''); the other elements
      are kept, and the result is a list. */
  lemma OnceListSplices(env: Vars, key: string, others: seq<Value>)
    requires forall i :: 0 <= i < |others| ==> !others[i].Str?
    ensures var v := if key in env then env[key] else Str("");
      var spliced := (if IsSequence(v) then v.items else [v]) + others;
      SconsSubstOnce(Lst([Str("$" + key)] + others), env, key) == Lst(spliced) &&
      SconsSubstOnce(Tup([Str("${" + key + "}")] + others), env, key) == Lst(spliced)
  {
    var v := if key in env then env[key] else Str("");
    OnceListKeeps(others, key, v);
    var a1 := [Str("$" + key)] + others;
    var a2 := [Str("${" + key + "}")] + others;
    assert a1[1..] == others && a2[1..] == others;
    assert '$' in a1[0].s && '$' in a2[0].s;
  }

  lemma {:induction false} OnceListKeeps(args: seq<Value>, key: string, val: Value)
    requires forall i :: 0 <= i < |args| ==> !args[i].Str?
    ensures OnceList(args, key, val) == args
    decreases |args|
  {
    if args != [] {
      OnceListKeeps(args[1..], key, val);
    }
  }

  // ---------------------------------------------------------------
  // Text the post-processing leaves alone

  /** No `$(` or `$)` marker, no white space. */
  predicate Settled(s: string)
  {
    NoSpace(s) && forall i :: 0 <= i < |s| - 1 ==> !(s[i] == '$' && (s[i + 1] == '(' || s[i + 1] == ')'))
  }

  lemma {:induction false} SettledTail(s: string)
    requires Settled(s) && s != []
    ensures Settled(s[1..])
  {
    var t := s[1..];
    assert forall j :: 0 <= j < |t| ==> t[j] == s[j + 1];
  }

  lemma {:induction false} SettledMarkers(s: string)
    requires Settled(s)
    ensures RemoveMarkers(s) == s && RemoveSig(s) == s
    decreases |s|
  {
    if s != [] {
      SettledTail(s);
      SettledMarkers(s[1..]);
      if |s| >= 2 { assert !(s[0] == '$' && (s[1] == '(' || s[1] == ')')); }
    }
  }

  lemma {:induction false} SettledCollapse(s: string)
    requires NoSpace(s)
    ensures CollapseSpaces(s) == s
    decreases |s|
  {
    if s != [] {
      assert !IsSpace(s[0]);
      var t := s[1..];
      assert NoSpace(t) by { assert forall j :: 0 <= j < |t| ==> t[j] == s[j + 1]; }
      SettledCollapse(t);
    }
  }

  lemma SettledStrip(s: string)
    requires NoSpace(s)
    ensures Strip(s) == s
  {
    if s != [] {
      assert !IsSpace(s[0]) && !IsSpace(s[|s| - 1]);
    }
  }

  /** Every mode leaves a string without markers and white space as it
      is. */
  lemma SettledKept(mode: Mode, s: string)
    requires Settled(s)
    ensures PostProcess(mode, s) == s
  {
    SettledMarkers(s);
    SettledCollapse(s);
    SettledStrip(s);
  }
}
