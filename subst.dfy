/** `scons_subst` and `scons_subst_once` of SCons.Subst: construction
    variable expansion into a single string, and the helpers around it
    (quote_spaces, CmdStringHolder.escape, escape_list, subst_dict,
    Target_or_Source.__str__).

    Python's eval() of `${...}` and dotted keys and the call of a callable
    value are parameters (`ev`, `call`); the depth of Python's recursion is
    the `fuel` argument. */
module Subst {
  import opened Errors
  import opened Strings
  import opened Values
  import opened SubstLex

  /** SUBST_CMD = 0, SUBST_RAW = 1, SUBST_SIG = 2 */
  datatype Mode = Cmd | Raw | Sig

  type Vars = map<string, Value>

  /** What eval(key, gvars, lvars) does: yields a value, raises
      AttributeError, raises one of IndexError/NameError/TypeError (which
      expansion turns into ''), or raises SyntaxError. */
  datatype EvalOutcome =
    | Evaluated(v: Value)
    | EvalAttributeError(msg: string)
    | EvalIgnored
    | EvalSyntaxError(msg: string)

  /** What calling a callable value does: returns a value, or raises a
      TypeError because its signature does not fit (as an Action's
      does). */
  datatype CallOutcome = Returned(v: Value) | CallTypeError

  /** The state of a StringSubber: the mode, the global variables, the
      targets (for the BuildError of a syntax error), and the evaluation
      and call hooks. */
  datatype Subber = Subber(
    mode: Mode,
    gvars: Vars,
    target: seq<Value>,
    ev: (string, Vars, Vars) -> EvalOutcome,
    call: (string, bool) -> CallOutcome)

  /** `_strconv[mode]`: to_String, or to_String_for_signature in SIG mode. */
  function Conv(mode: Mode, v: Value): (r: string)
    ensures v.Str? ==> r == v.s
    ensures v.Obj? ==> r == (if mode == Sig then v.forsig else v.str)
  {
    if mode == Sig then ToStringForSignature(v) else ToString(v)
  }

  /** The name masked while a key's value is re-expanded:
      string.split(key, '.')[0]. */
  function MaskedName(key: string): (r: string)
    ensures IsPrefix(r, key) && '.' !in r
    ensures '.' !in key ==> r == key
  {
    JoinSplitOn(key, '.');
    var parts := SplitOn(key, '.');
    assert parts == [parts[0]] + parts[1..];
    JoinPrefix(parts, ".");
    parts[0]
  }

  lemma JoinPrefix(parts: seq<string>, sep: string)
    requires parts != []
    ensures IsPrefix(parts[0], Join(parts, sep))
  {
  }

  /** The key text of a braced `${...}` token: key[1:-1] (empty when the
      key is too short, as Python's slice is). */
  function Unbrace(key: string): (r: string)
    ensures |key| >= 2 ==> key == key[..1] + r + key[|key| - 1..]
  {
    if |key| >= 2 then key[1..|key| - 1] else ""
  }

  /** Re-expansion of a value found for a token: one level deeper in the
      recursion. */
  function Resubst(sb: Subber, v: Value, lvars: Vars, fuel: nat): Result<Value>
    decreases fuel, 0, 0, 0
  {
    if fuel == 0 then Err(RecursionLimit) else Substitute(sb, v, lvars, fuel - 1)
  }

  /** StringSubber.expand: one token, or a non-string value. */
  function Expand(sb: Subber, x: Value, lvars: Vars, fuel: nat): Result<Value>
    decreases fuel, Size(x), 0, 1
  {
    match x
    case Str(s) => ExpandStr(sb, s, lvars, fuel)
    case Lst(items) => Joined(JoinItems(sb, items, lvars, fuel))
    case Tup(items) => Joined(JoinItems(sb, items, lvars, fuel))
    case Func(name) =>
      (match sb.call(name, sb.mode != Cmd)
       case Returned(v) => Resubst(sb, v, lvars, fuel)
       case CallTypeError => Resubst(sb, Str(ToString(x)), lvars, fuel))
    case Null => Ok(Str(""))
    case _ => Ok(x)
  }

  /** The string of a joined list, as a string value. */
  function Joined(r: Result<string>): (v: Result<Value>)
    ensures r.Ok? <==> v.Ok?
    ensures r.Ok? ==> v.value == Str(r.value)
    ensures r.Err? ==> v.error == r.error
  {
    if r.Ok? then Ok(Str(r.value)) else Err(r.error)
  }

  /** expand of a string token: text and a lone `$` are kept, `$$` is a
      dollar sign, `$(` and `$)` are kept for the post-processing, a
      braced or dotted key is evaluated, and a plain name is looked up in
      the local variables, then the global ones, and is '' if it is in
      neither.  A value found is re-substituted with its name masked. */
  function ExpandStr(sb: Subber, s: string, lvars: Vars, fuel: nat): Result<Value>
    decreases fuel, 1, 0, 0
  {
    if |s| < 2 || s[0] != '$' then Ok(Str(s))
    else if s[1] == '$' then Ok(Str("$"))
    else if s[1] == '(' || s[1] == ')' then Ok(Str(s))
    else
      var key := s[1..];
      if key[0] == '{' || '.' in key then
        ExpandEval(sb, s, if key[0] == '{' then Unbrace(key) else key, lvars, fuel)
      else if key in lvars then Resubst(sb, lvars[key], lvars[key := Str("")], fuel)
      else if key in sb.gvars then Resubst(sb, sb.gvars[key], lvars[key := Str("")], fuel)
      else Ok(Str(""))
  }

  /** The eval() branch of expand for token s with key text k. */
  function ExpandEval(sb: Subber, s: string, k: string, lvars: Vars, fuel: nat): Result<Value>
    decreases fuel, 0, 0, 1
  {
    match sb.ev(k, sb.gvars, lvars)
    case EvalAttributeError(e) =>
      Err(UserError("Error trying to evaluate `" + s + "': " + e))
    case EvalIgnored => Ok(Str(""))
    case EvalSyntaxError(e) =>
      var msg := "Syntax error `" + e + "' trying to evaluate `" + s + "'";
      if sb.target != [] then Err(BuildError(ToString(sb.target[0]), msg))
      else Err(UserError(msg))
    case Evaluated(v) => Resubst(sb, v, lvars[MaskedName(k) := Str("")], fuel)
  }

  /** string.join(map(conv . substitute, items)) with a space. */
  function JoinItems(sb: Subber, items: seq<Value>, lvars: Vars, fuel: nat): Result<string>
    decreases fuel, SizeSeq(items), 3, 0
  {
    if items == [] then Ok("")
    else
      var v :- Substitute(sb, items[0], lvars, fuel);
      var rest :- JoinItems(sb, items[1..], lvars, fuel);
      Ok(if |items| == 1 then Conv(sb.mode, v) else Conv(sb.mode, v) + " " + rest)
  }

  /** StringSubber.substitute: a string has each of its dollar expressions
      replaced by conv(expand(token)); anything else is expanded. */
  function Substitute(sb: Subber, x: Value, lvars: Vars, fuel: nat): (r: Result<Value>)
    ensures x.Str? && r.Ok? ==> r.value.Str?
    decreases fuel, Size(x), 2, 0
  {
    if x.Str? then Joined(SubstTokens(sb, Tokens(x.s), lvars, fuel))
    else Expand(sb, x, lvars, fuel)
  }

  /** `_dollar_exps.sub(sub_match, ...)` over the tokens of a string. */
  function SubstTokens(sb: Subber, toks: seq<string>, lvars: Vars, fuel: nat): Result<string>
    decreases fuel, 1, 1, |toks|
  {
    if toks == [] then Ok("")
    else Cat(SubstToken(sb, toks[0], lvars, fuel), SubstTokens(sb, toks[1..], lvars, fuel))
  }

  /** sub_match: a dollar expression becomes conv(expand(token)); other
      text is copied. */
  function SubstToken(sb: Subber, t: string, lvars: Vars, fuel: nat): Result<string>
    decreases fuel, 1, 0, 2
  {
    if IsDollarToken(t) then
      var v :- Expand(sb, Str(t), lvars, fuel);
      Ok(Conv(sb.mode, v))
    else Ok(t)
  }

  /** Concatenation of two results, the first error winning. */
  function Cat(a: Result<string>, b: Result<string>): (r: Result<string>)
    ensures r.Ok? <==> a.Ok? && b.Ok?
    ensures r.Ok? ==> r.value == a.value + b.value
    ensures a.Err? ==> r == a
  {
    if a.Err? then a else if b.Err? then b else Ok(a.value + b.value)
  }

  /** subst_dict: TARGETS/TARGET and SOURCES/SOURCE from the target and
      source nodes (their substitution proxies), None when there are
      none. */
  function SubstDict(target: seq<Value>, source: seq<Value>): Vars
  {
    map["TARGETS" := if target == [] then Null else Lst(target),
        "TARGET" := if target == [] then Null else target[0],
        "SOURCES" := if source == [] then Null else Lst(source),
        "SOURCE" := if source == [] then Null else source[0]]
  }

  /** Target_or_Source.__str__: the first node's string, '' for none. */
  function TargetOrSourceStr(nl: seq<Value>): (r: string)
    ensures nl != [] ==> r == ToString(nl[0])
    ensures nl == [] ==> r == ""
  {
    if nl != [] then ToString(nl[0]) else ""
  }

  // ---------------------------------------------------------------
  // Post-processing of the expanded string

  /** `_rm.sub('', s)`: every `$(` and `$)` removed, scanning left to
      right without overlap. */
  function RemoveMarkers(s: string): (r: string)
    ensures |r| <= |s|
    decreases |s|
  {
    if s == [] then []
    else if |s| >= 2 && s[0] == '$' && (s[1] == '(' || s[1] == ')') then RemoveMarkers(s[2..])
    else [s[0]] + RemoveMarkers(s[1..])
  }

  /** The length of the text after a `$(` that `_remove` consumes up to
      and including the closing `$)`: a `$` followed by anything but `)`
      is taken as a pair, so the first `$)` whose `$` starts fresh closes
      the match.  None when there is no such `$)`. */
  function SigScan(s: string): (r: Option<nat>)
    ensures r.Some? ==> 2 <= r.value <= |s| && s[r.value - 2..r.value] == "$)"
    decreases |s|
  {
    if s == [] then None
    else if s[0] != '$' then
      match SigScan(s[1..])
      case None => None
      case Some(k) => Some(k + 1)
    else if |s| == 1 then None
    else if s[1] == ')' then Some(2)
    else
      match SigScan(s[2..])
      case None => None
      case Some(k) => Some(k + 2)
  }

  /** `_remove.sub('', s)`: every `$( ... $)` span removed. */
  function RemoveSig(s: string): (r: string)
    ensures |r| <= |s|
    decreases |s|
  {
    if s == [] then []
    else if |s| >= 2 && s[0] == '$' && s[1] == '(' && SigScan(s[2..]).Some? then
      RemoveSig(s[2 + SigScan(s[2..]).value..])
    else [s[0]] + RemoveSig(s[1..])
  }

  /** The characters `[\t ]` */
  predicate IsBlank(c: char) { c == ' ' || c == '\t' }

  function BlankRun(s: string): (n: nat)
    ensures n <= |s|
    ensures forall i :: 0 <= i < n ==> IsBlank(s[i])
    ensures n < |s| ==> !IsBlank(s[n])
  {
    if s == [] || !IsBlank(s[0]) then 0 else 1 + BlankRun(s[1..])
  }

  /** `[^{]*}` matches at the start of s: a `}` comes before any `{`. */
  predicate ClosesBrace(s: string)
  {
    s != [] && s[0] != '{' && (s[0] == '}' || ClosesBrace(s[1..]))
  }

  /** `_space_sep.sub(' ', s)`: each run of spaces and tabs that is not
      inside a `{...}` still open on the right becomes a single space. */
  function CollapseSpaces(s: string): (r: string)
    ensures r == [] <==> s == []
    ensures s != [] && !IsBlank(s[0]) ==> r[0] == s[0]
    decreases |s|
  {
    if s == [] then []
    else if IsBlank(s[0]) then
      var n := BlankRun(s);
      (if ClosesBrace(s[n..]) then s[..n] else " ") + CollapseSpaces(s[n..])
    else [s[0]] + CollapseSpaces(s[1..])
  }

  /** The post-processing of scons_subst's string result by mode. */
  function PostProcess(mode: Mode, s: string): string
  {
    var removed := match mode
      case Cmd => RemoveMarkers(s)
      case Raw => s
      case Sig => RemoveSig(s);
    if mode == Raw then removed else Strip(CollapseSpaces(removed))
  }

  /** scons_subst.  A string without `$` is returned at once; otherwise
      the special variables of subst_dict are added to the local ones (and
      override them), the value is substituted, and a string result is
      post-processed according to the mode. */
  function SconsSubst(mode: Mode, strSubst: Value, gvars: Vars, lvars: Vars,
                      target: seq<Value>, source: seq<Value>,
                      ev: (string, Vars, Vars) -> EvalOutcome,
                      call: (string, bool) -> CallOutcome, fuel: nat): Result<Value>
  {
    if strSubst.Str? && '$' !in strSubst.s then Ok(strSubst)
    else
      var sb := Subber(mode, gvars, target, ev, call);
      var r :- Substitute(sb, strSubst, lvars + SubstDict(target, source), fuel);
      if r.Str? then Ok(Str(PostProcess(mode, r.s))) else Ok(r)
  }

  // ---------------------------------------------------------------
  // scons_subst_once

  /** sub_match of scons_subst_once: a token naming the key, as `$key` or
      `${key}`, becomes the key's value (a list or tuple joined by spaces);
      every other dollar expression is left as it is. */
  function OnceToken(t: string, key: string, val: Value): string
  {
    if t == "$" + key || t == "${" + key + "}" then
      (if IsSequence(val) then Join(ItemStrings(val.items), " ") else ToString(val))
    else t
  }

  function ItemStrings(items: seq<Value>): (r: seq<string>)
    ensures |r| == |items|
    ensures forall i :: 0 <= i < |items| ==> r[i] == ToString(items[i])
  {
    if items == [] then [] else [ToString(items[0])] + ItemStrings(items[1..])
  }

  function OnceTokens(toks: seq<string>, key: string, val: Value): string
  {
    if toks == [] then ""
    else (if IsDollarToken(toks[0]) then OnceToken(toks[0], key, val) else toks[0])
         + OnceTokens(toks[1..], key, val)
  }

  /** The elements of a list argument: an element that is exactly `$key`
      or `${key}` becomes the value (its elements spliced in when it is a
      list or a tuple), other strings have their tokens replaced, and other
      values are kept. */
  function OnceList(args: seq<Value>, key: string, val: Value): seq<Value>
  {
    if args == [] then []
    else
      var a := args[0];
      var head :=
        if a.Str? then
          if a.s == "$" + key || a.s == "${" + key + "}" then
            (if IsSequence(val) then val.items else [val])
          else [Str(OnceTokens(Tokens(a.s), key, val))]
        else [a];
      head + OnceList(args[1..], key, val)
  }

  /** scons_subst_once: replace the one construction variable `key`, once,
      without re-expanding what it is replaced by.  A missing key counts as
      ''. */
  function SconsSubstOnce(strSubst: Value, env: Vars, key: string): Value
  {
    if strSubst.Str? && '$' !in strSubst.s then strSubst
    else
      var val := if key in env then env[key] else Str("");
      if IsSequence(strSubst) then Lst(OnceList(strSubst.items, key, val))
      else if strSubst.Str? then Str(OnceTokens(Tokens(strSubst.s), key, val))
      else strSubst
  }

  // ---------------------------------------------------------------
  // Quoting and escaping of command-line words

  /** quote_spaces: double quotes around an argument holding a space or a
      tab. */
  function QuoteSpaces(arg: string): (r: string)
    ensures (' ' in arg || '\t' in arg) ==> r == "\"" + arg + "\""
    ensures !(' ' in arg || '\t' in arg) ==> r == arg
  {
    if ' ' in arg || '\t' in arg then "\"" + arg + "\"" else arg
  }

  /** A CmdStringHolder: a result word and whether it is literal. */
  datatype Holder = Holder(data: string, literal: bool)

  /** CmdStringHolder.escape: the escape function for a literal word,
      the quote function for one holding a space or tab, the word itself
      otherwise. */
  function Escape(h: Holder, esc: string -> string, quote: string -> string): (r: string)
    ensures h.literal ==> r == esc(h.data)
    ensures !h.literal && (' ' in h.data || '\t' in h.data) ==> r == quote(h.data)
    ensures !h.literal && !(' ' in h.data || '\t' in h.data) ==> r == h.data
  {
    if h.literal then esc(h.data)
    else if ' ' in h.data || '\t' in h.data then quote(h.data)
    else h.data
  }

  /** escape_list over CmdStringHolder words, with quote_spaces. */
  function EscapeList(words: seq<Holder>, esc: string -> string): (r: seq<string>)
    ensures |r| == |words|
    ensures forall i :: 0 <= i < |words| ==> r[i] == Escape(words[i], esc, QuoteSpaces)
  {
    if words == [] then [] else [Escape(words[0], esc, QuoteSpaces)] + EscapeList(words[1..], esc)
  }

  predicate Blank(c: char) { c == ' ' || c == '\t' }

  /** Every blank lies strictly inside a pair of double quotes around the
      whole text.  A text that holds quotes of its own can still split in
      the shell. */
  predicate BlanksQuoted(r: string)
  {
    forall i :: 0 <= i < |r| && Blank(r[i]) ==> 0 < i < |r| - 1 && r[0] == '"' && r[|r| - 1] == '"'
  }

  /** quote_spaces quotes exactly the arguments that hold a blank, taking
      the added quotes off gives the argument back, and every blank of the
      result lies inside the added quotes. */
  lemma QuoteSpacesQuotesBlanks(arg: string)
    ensures var r := QuoteSpaces(arg);
      (r != arg <==> exists i :: 0 <= i < |arg| && Blank(arg[i])) &&
      (r != arg ==> |r| == |arg| + 2 && r[1..|r| - 1] == arg) &&
      BlanksQuoted(r)
  {
    var r := QuoteSpaces(arg);
    if ' ' in arg || '\t' in arg {
      assert r == "\"" + arg + "\"";
      assert forall i :: 0 < i < |r| - 1 ==> r[i] == arg[i - 1];
      assert exists i :: 0 <= i < |arg| && Blank(arg[i]);
    } else {
      assert forall i :: 0 <= i < |arg| ==> !Blank(arg[i]);
    }
  }

  /** escape_list with quote_spaces: a word that is not literal and has no
      blank is passed through as it is, and every word that is not literal
      has its blanks inside the added quotes. */
  lemma EscapeListWords(words: seq<Holder>, esc: string -> string)
    ensures forall i :: 0 <= i < |words| && !words[i].literal ==> BlanksQuoted(EscapeList(words, esc)[i])
    ensures forall i :: 0 <= i < |words| && !words[i].literal && !(' ' in words[i].data || '\t' in words[i].data) ==>
      EscapeList(words, esc)[i] == words[i].data
  {
    forall i | 0 <= i < |words| && !words[i].literal
      ensures BlanksQuoted(EscapeList(words, esc)[i])
    {
      QuoteSpacesQuotesBlanks(words[i].data);
    }
  }
}
