/** scons_subst_list of SCons.Subst: substitution that splits the result
    into command lines of words.

    The ListSubber walks the value like scons_subst does, but instead of
    building a string it feeds its result object step by step: append a
    piece of text (to a new word or to the current one, depending on which
    method `self.append` is bound to), start a new word, start a new line,
    open or close a `$( ... $)` strip.  The pure functions `LSubstitute`
    and friends list those steps as events; `Step` is what one event does
    to the result; the class `ListSubber` performs them in place and is
    proved to end in the state the events describe. */
module SubstList {
  import opened Errors
  import opened Strings
  import opened Values
  import opened SubstLex
  import opened Subst

  /** The result: a non-empty list of lines, each a list of words
      (ListSubber always holds at least the line next_line() added in its
      constructor). */
  type Lines = d: seq<seq<Holder>> | |d| >= 1 witness [[]]

  /** Which method `self.append` is bound to. */
  datatype AppendMode = AddNew | AddToCurrent

  datatype ListState = ListState(data: Lines, append: AppendMode, inStrip: bool)

  /** One step of the ListSubber. */
  datatype Event =
    | Add(v: Value)
    | NextWordEv
    | ThisWordEv
    | NextLineEv
    | OpenStripEv
    | CloseStripEv

  /** ListSubber.literal: x.is_literal() when x has that method. */
  function IsLiteral(x: Value): bool
  {
    x.Obj? && x.literal
  }

  /** The state right after the constructor: one empty line, the next text
      starts a new word, not inside a strip. */
  function InitState(): (st: ListState)
    ensures st.data == [[]] && st.append == AddNew && !st.inStrip
  {
    ListState([[]], AddNew, false)
  }

  /** Whether words are being dropped: inside `$( ... $)` in SIG mode. */
  predicate Dropping(mode: Mode, st: ListState)
  {
    st.inStrip && mode == Sig
  }

  /** add_new_word: x, converted, becomes a new word at the end of the last
      line (unless words are being dropped); either way the next text joins
      the current word. */
  function NewWord(mode: Mode, st: ListState, x: Value): (r: ListState)
    ensures r.append == AddToCurrent && r.inStrip == st.inStrip
    ensures Dropping(mode, st) ==> r.data == st.data
    ensures !Dropping(mode, st) ==>
      r.data == st.data[..|st.data| - 1] + [st.data[|st.data| - 1] + [Holder(Conv(mode, x), IsLiteral(x))]]
  {
    var data: Lines :=
      if Dropping(mode, st) then st.data
      else st.data[..|st.data| - 1] + [st.data[|st.data| - 1] + [Holder(Conv(mode, x), IsLiteral(x))]];
    ListState(data, AddToCurrent, st.inStrip)
  }

  /** A word after which text starts a new word instead of joining it: one
      ending in a redirection character. */
  predicate EndsInRedirect(w: Holder)
  {
    w.data != [] && w.data[|w.data| - 1] in "<>|"
  }

  /** add_to_current_word: x joins the last word of the last line, the
      joined word no longer literal; a new word is started when the line
      is empty or its last word ends in `<`, `>` or `|`.  Nothing happens
      while words are dropped. */
  function JoinWord(mode: Mode, st: ListState, x: Value): ListState
  {
    if Dropping(mode, st) then st
    else
      var line := st.data[|st.data| - 1];
      if line == [] || EndsInRedirect(line[|line| - 1]) then NewWord(mode, st, x)
      else
        var w := line[|line| - 1];
        var data: Lines := st.data[..|st.data| - 1] +
          [line[..|line| - 1] + [Holder(w.data + ToString(x), false)]];
        st.(data := data)
  }

  /** self.append(x): whichever of the two methods it is bound to. */
  function Append(mode: Mode, st: ListState, x: Value): ListState
  {
    if st.append == AddNew then NewWord(mode, st, x) else JoinWord(mode, st, x)
  }

  /** What one event does.  The strip markers themselves are kept as text
      only in RAW mode (add_strip). */
  function Step(mode: Mode, st: ListState, e: Event): ListState
  {
    match e
    case Add(v) => Append(mode, st, v)
    case NextWordEv => st.(append := AddNew)
    case ThisWordEv => st.(append := AddToCurrent)
    case NextLineEv => ListState(st.data + [[]], AddNew, st.inStrip)
    case OpenStripEv => (if mode == Raw then Append(mode, st, Str("$(")) else st).(inStrip := true)
    case CloseStripEv => (if mode == Raw then Append(mode, st, Str("$)")) else st).(inStrip := false)
  }

  function ApplyAll(mode: Mode, st: ListState, es: seq<Event>): ListState
    decreases |es|
  {
    if es == [] then st else ApplyAll(mode, Step(mode, st, es[0]), es[1..])
  }

  lemma ApplyOne(mode: Mode, st: ListState, e: Event)
    ensures ApplyAll(mode, st, [e]) == Step(mode, st, e)
  {
    var es := [e];
    assert es[0] == e && es[1..] == [];
  }

  lemma {:induction false} ApplyAllConcat(mode: Mode, st: ListState, a: seq<Event>, b: seq<Event>)
    ensures ApplyAll(mode, st, a + b) == ApplyAll(mode, ApplyAll(mode, st, a), b)
    decreases |a|
  {
    if a != [] {
      assert (a + b)[0] == a[0] && (a + b)[1..] == a[1..] + b;
      ApplyAllConcat(mode, Step(mode, st, a[0]), a[1..], b);
    } else {
      assert a + b == b;
    }
  }

  /** Sequencing of two event lists, the first error winning. */
  function CatE(a: Result<seq<Event>>, b: Result<seq<Event>>): (r: Result<seq<Event>>)
    ensures r.Ok? <==> a.Ok? && b.Ok?
    ensures r.Ok? ==> r.value == a.value + b.value
    ensures a.Err? ==> r == a
    ensures a.Ok? && b.Err? ==> r == b
  {
    if a.Err? then a else if b.Err? then b else Ok(a.value + b.value)
  }

  lemma CatEUnit(a: Result<seq<Event>>)
    ensures CatE(a, Ok([])) == a && CatE(Ok([]), a) == a
  {
    if a.Ok? {
      assert a.value + [] == a.value && [] + a.value == a.value;
    }
  }

  lemma CatEAssoc(a: Result<seq<Event>>, b: Result<seq<Event>>, c: Result<seq<Event>>)
    ensures CatE(CatE(a, b), c) == CatE(a, CatE(b, c))
  {
    if a.Ok? && b.Ok? && c.Ok? {
      assert (a.value + b.value) + c.value == a.value + (b.value + c.value);
    }
  }

  // ---------------------------------------------------------------
  // The events of ListSubber.substitute / expand

  /** Re-substitution of a value found for a token, one level deeper. */
  function LResubst(sb: Subber, v: Value, lvars: Vars, within: bool, fuel: nat): Result<seq<Event>>
    decreases fuel, 0, 0, 0
  {
    if fuel == 0 then Err(RecursionLimit) else LSubstitute(sb, v, lvars, within, fuel - 1)
  }

  /** ListSubber.expand: text and non-string values are appended; a list
      has each element substituted as a word of its own; None makes the
      next text join the current word. */
  function LExpand(sb: Subber, x: Value, lvars: Vars, within: bool, fuel: nat): Result<seq<Event>>
    decreases fuel, Size(x), 0, 1
  {
    match x
    case Str(s) => LExpandStr(sb, s, lvars, fuel)
    case Lst(items) => LItems(sb, items, lvars, fuel)
    case Tup(items) => LItems(sb, items, lvars, fuel)
    case Func(name) =>
      (match sb.call(name, sb.mode != Cmd)
       case Returned(v) => LResubst(sb, v, lvars, within, fuel)
       case CallTypeError => LResubst(sb, Str(ToString(x)), lvars, within, fuel))
    case Null => Ok([ThisWordEv])
    case _ => Ok([Add(x)])
  }

  /** expand of a string token: `$$` appends a dollar sign, `$(` and `$)`
      open and close a strip, a variable's value is substituted (not as a
      list element) with its name masked and the next text joins the
      current word; an undefined variable adds nothing. */
  function LExpandStr(sb: Subber, s: string, lvars: Vars, fuel: nat): Result<seq<Event>>
    decreases fuel, 1, 0, 0
  {
    if |s| < 2 || s[0] != '$' then Ok([Add(Str(s))])
    else if s[1] == '$' then Ok([Add(Str("$"))])
    else if s[1] == '(' then Ok([OpenStripEv])
    else if s[1] == ')' then Ok([CloseStripEv])
    else
      var key := s[1..];
      if key[0] == '{' || '.' in key then
        LExpandEval(sb, s, if key[0] == '{' then Unbrace(key) else key, lvars, fuel)
      else if key in lvars then
        CatE(LResubst(sb, lvars[key], lvars[key := Str("")], false, fuel), Ok([ThisWordEv]))
      else if key in sb.gvars then
        CatE(LResubst(sb, sb.gvars[key], lvars[key := Str("")], false, fuel), Ok([ThisWordEv]))
      else Ok([])
  }

  /** The eval() branch of expand; an IndexError, NameError or TypeError
      adds nothing. */
  function LExpandEval(sb: Subber, s: string, k: string, lvars: Vars, fuel: nat): Result<seq<Event>>
    decreases fuel, 0, 0, 1
  {
    match sb.ev(k, sb.gvars, lvars)
    case EvalAttributeError(e) =>
      Err(UserError("Error trying to evaluate `" + s + "': " + e))
    case EvalIgnored => Ok([])
    case EvalSyntaxError(e) =>
      var msg := "Syntax error `" + e + "' trying to evaluate `" + s + "'";
      if sb.target != [] then Err(BuildError(ToString(sb.target[0]), msg))
      else Err(UserError(msg))
    case Evaluated(v) =>
      CatE(LResubst(sb, v, lvars[MaskedName(k) := Str("")], false, fuel), Ok([ThisWordEv]))
  }

  /** Each element substituted as a list element, then a new word. */
  function LItems(sb: Subber, items: seq<Value>, lvars: Vars, fuel: nat): Result<seq<Event>>
    decreases fuel, SizeSeq(items), 3, 0
  {
    if items == [] then Ok([])
    else CatE(LItem(sb, items[0], lvars, fuel), LItems(sb, items[1..], lvars, fuel))
  }

  function LItem(sb: Subber, a: Value, lvars: Vars, fuel: nat): Result<seq<Event>>
    decreases fuel, Size(a), 2, 1
  {
    CatE(LSubstitute(sb, a, lvars, true, fuel), Ok([NextWordEv]))
  }

  /** ListSubber.substitute: a string is split into `_separate_args`
      tokens; anything else is expanded. */
  function LSubstitute(sb: Subber, x: Value, lvars: Vars, within: bool, fuel: nat): Result<seq<Event>>
    decreases fuel, Size(x), 2, 0
  {
    if x.Str? then LTokens(sb, Tokens(x.s), lvars, within, fuel)
    else LExpand(sb, x, lvars, within, fuel)
  }

  function LTokens(sb: Subber, toks: seq<string>, lvars: Vars, within: bool, fuel: nat): Result<seq<Event>>
    decreases fuel, 1, 1, |toks|
  {
    if toks == [] then Ok([])
    else CatE(LToken(sb, toks[0], lvars, within, fuel), LTokens(sb, toks[1..], lvars, within, fuel))
  }

  /** One token: white space holding a newline starts a new line, other
      white space is kept inside a list element and starts a new word
      elsewhere; everything else is expanded. */
  function LToken(sb: Subber, t: string, lvars: Vars, within: bool, fuel: nat): Result<seq<Event>>
    decreases fuel, 1, 0, 2
  {
    if t != [] && IsSpace(t[0]) then
      if '\n' in t then Ok([NextLineEv])
      else if within then Ok([Add(Str(t))])
      else Ok([NextWordEv])
    else LExpand(sb, Str(t), lvars, within, fuel)
  }

  lemma {:induction false} LTokensSplit(sb: Subber, a: seq<string>, b: seq<string>, lvars: Vars, within: bool, fuel: nat)
    ensures LTokens(sb, a + b, lvars, within, fuel)
         == CatE(LTokens(sb, a, lvars, within, fuel), LTokens(sb, b, lvars, within, fuel))
    decreases |a|
  {
    if a == [] {
      assert a + b == b;
      CatEUnit(LTokens(sb, b, lvars, within, fuel));
    } else {
      assert (a + b)[0] == a[0] && (a + b)[1..] == a[1..] + b;
      LTokensSplit(sb, a[1..], b, lvars, within, fuel);
      CatEAssoc(LToken(sb, a[0], lvars, within, fuel), LTokens(sb, a[1..], lvars, within, fuel),
                LTokens(sb, b, lvars, within, fuel));
    }
  }

  lemma {:induction false} LItemsSplit(sb: Subber, a: seq<Value>, b: seq<Value>, lvars: Vars, fuel: nat)
    ensures LItems(sb, a + b, lvars, fuel) == CatE(LItems(sb, a, lvars, fuel), LItems(sb, b, lvars, fuel))
    decreases |a|
  {
    if a == [] {
      assert a + b == b;
      CatEUnit(LItems(sb, b, lvars, fuel));
    } else {
      assert (a + b)[0] == a[0] && (a + b)[1..] == a[1..] + b;
      LItemsSplit(sb, a[1..], b, lvars, fuel);
      CatEAssoc(LItem(sb, a[0], lvars, fuel), LItems(sb, a[1..], lvars, fuel), LItems(sb, b, lvars, fuel));
    }
  }

  /** One more token of a loop over toks. */
  lemma LTokensStep(sb: Subber, toks: seq<string>, i: nat, lvars: Vars, within: bool, fuel: nat)
    requires i < |toks|
    ensures LTokens(sb, toks[..i + 1], lvars, within, fuel)
         == CatE(LTokens(sb, toks[..i], lvars, within, fuel), LToken(sb, toks[i], lvars, within, fuel))
    ensures LTokens(sb, toks, lvars, within, fuel)
         == CatE(LTokens(sb, toks[..i + 1], lvars, within, fuel), LTokens(sb, toks[i + 1..], lvars, within, fuel))
  {
    var a := toks[i];
    LTokensSplit(sb, toks[..i], [a], lvars, within, fuel);
    LTokensSplit(sb, toks[..i + 1], toks[i + 1..], lvars, within, fuel);
    assert toks[..i + 1] == toks[..i] + [a];
    assert toks[..i + 1] + toks[i + 1..] == toks;
    var one: seq<string> := [a];
    assert one[0] == a && one[1..] == [];
    CatEUnit(LToken(sb, a, lvars, within, fuel));
  }

  /** The loop over toks after i tokens that succeeded: an error of the
      next token is the error of the whole, a success extends the events. */
  lemma LTokensNext(sb: Subber, toks: seq<string>, i: nat, lvars: Vars, within: bool, fuel: nat)
    requires i < |toks| && LTokens(sb, toks[..i], lvars, within, fuel).Ok?
    ensures LToken(sb, toks[i], lvars, within, fuel).Err? ==>
      LTokens(sb, toks, lvars, within, fuel).Err? &&
      LTokens(sb, toks, lvars, within, fuel).error == LToken(sb, toks[i], lvars, within, fuel).error
    ensures LToken(sb, toks[i], lvars, within, fuel).Ok? ==>
      LTokens(sb, toks[..i + 1], lvars, within, fuel).Ok? &&
      LTokens(sb, toks[..i + 1], lvars, within, fuel).value
        == LTokens(sb, toks[..i], lvars, within, fuel).value + LToken(sb, toks[i], lvars, within, fuel).value
  {
    LTokensStep(sb, toks, i, lvars, within, fuel);
  }

  /** The loop over items after i elements that succeeded. */
  lemma LItemsNext(sb: Subber, items: seq<Value>, i: nat, lvars: Vars, fuel: nat)
    requires i < |items| && LItems(sb, items[..i], lvars, fuel).Ok?
    ensures LItem(sb, items[i], lvars, fuel).Err? ==>
      LItems(sb, items, lvars, fuel).Err? &&
      LItems(sb, items, lvars, fuel).error == LItem(sb, items[i], lvars, fuel).error
    ensures LItem(sb, items[i], lvars, fuel).Ok? ==>
      LItems(sb, items[..i + 1], lvars, fuel).Ok? &&
      LItems(sb, items[..i + 1], lvars, fuel).value
        == LItems(sb, items[..i], lvars, fuel).value + LItem(sb, items[i], lvars, fuel).value
  {
    LItemsStep(sb, items, i, lvars, fuel);
  }

  /** One more element of a loop over items. */
  lemma LItemsStep(sb: Subber, items: seq<Value>, i: nat, lvars: Vars, fuel: nat)
    requires i < |items|
    ensures LItems(sb, items[..i + 1], lvars, fuel)
         == CatE(LItems(sb, items[..i], lvars, fuel), LItem(sb, items[i], lvars, fuel))
    ensures LItems(sb, items, lvars, fuel)
         == CatE(LItems(sb, items[..i + 1], lvars, fuel), LItems(sb, items[i + 1..], lvars, fuel))
  {
    var x := items[i];
    LItemsSplit(sb, items[..i], [x], lvars, fuel);
    LItemsSplit(sb, items[..i + 1], items[i + 1..], lvars, fuel);
    assert items[..i + 1] == items[..i] + [x];
    assert items[..i + 1] + items[i + 1..] == items;
    var one: seq<Value> := [x];
    assert one[0] == x && one[1..] == [];
    CatEUnit(LItem(sb, x, lvars, fuel));
  }

  /** scons_subst_list: the lines of words that substituting the value
      produces, starting from the constructor's state, with the special
      variables of subst_dict added to the local ones. */
  function SconsSubstList(mode: Mode, strSubst: Value, gvars: Vars, lvars: Vars,
                          target: seq<Value>, source: seq<Value>,
                          ev: (string, Vars, Vars) -> EvalOutcome,
                          call: (string, bool) -> CallOutcome, fuel: nat): Result<seq<seq<Holder>>>
  {
    var sb := Subber(mode, gvars, target, ev, call);
    var es :- LSubstitute(sb, strSubst, lvars + SubstDict(target, source), false, fuel);
    Ok(ApplyAll(mode, InitState(), es).data)
  }

  // ---------------------------------------------------------------
  // The ListSubber object

  class ListSubber {
    const sb: Subber
    var data: Lines
    var appendMode: AppendMode
    var inStrip: bool

    function State(): ListState
      reads this
    {
      ListState(data, appendMode, inStrip)
    }

    /** ListSubber.__init__: an empty result, then next_line(). */
    constructor (sb: Subber)
      ensures this.sb == sb && State() == InitState()
    {
      this.sb := sb;
      data := [[]];
      appendMode := AddNew;
      inStrip := false;
    }

    method NextLine()
      modifies this
      ensures State() == Step(sb.mode, old(State()), NextLineEv)
    {
      data := data + [[]];
      NextWord();
    }

    method ThisWord()
      modifies this
      ensures State() == Step(sb.mode, old(State()), ThisWordEv)
    {
      appendMode := AddToCurrent;
    }

    method NextWord()
      modifies this
      ensures State() == old(State()).(append := AddNew)
    {
      appendMode := AddNew;
    }

    method AddNewWord(x: Value)
      modifies this
      ensures State() == NewWord(sb.mode, old(State()), x)
    {
      if !inStrip || sb.mode != Sig {
        var w := Holder(Conv(sb.mode, x), IsLiteral(x));
        data := data[..|data| - 1] + [data[|data| - 1] + [w]];
      }
      appendMode := AddToCurrent;
    }

    method AddToCurrentWord(x: Value)
      modifies this
      ensures State() == JoinWord(sb.mode, old(State()), x)
    {
      if !inStrip || sb.mode != Sig {
        var line := data[|data| - 1];
        if line == [] {
          AddNewWord(x);
        } else {
          var current := line[|line| - 1];
          var lastChar := if current.data != [] then current.data[|current.data| - 1] else '\0';
          if lastChar in "<>|" {
            AddNewWord(x);
          } else {
            var y := Holder(current.data + ToString(x), false);
            data := data[..|data| - 1] + [line[..|line| - 1] + [y]];
          }
        }
      }
    }

    /** self.append(x) */
    method Append(x: Value)
      modifies this
      ensures State() == Step(sb.mode, old(State()), Add(x))
    {
      if appendMode == AddNew {
        AddNewWord(x);
      } else {
        AddToCurrentWord(x);
      }
    }

    /** add_strip appends the marker only in RAW mode. */
    method OpenStrip(x: string)
      requires x == "$("
      modifies this
      ensures State() == Step(sb.mode, old(State()), OpenStripEv)
    {
      if sb.mode == Raw {
        Append(Str(x));
      }
      inStrip := true;
    }

    method CloseStrip(x: string)
      requires x == "$)"
      modifies this
      ensures State() == Step(sb.mode, old(State()), CloseStripEv)
    {
      if sb.mode == Raw {
        Append(Str(x));
      }
      inStrip := false;
    }

    /** Re-substitution of a value found for a token. */
    method Resubst(v: Value, lvars: Vars, within: bool, fuel: nat) returns (err: Option<Error>)
      modifies this
      decreases fuel, 0, 0, 0
      ensures var r := LResubst(sb, v, lvars, within, fuel);
              (r.Err? <==> err.Some?) && (r.Err? ==> err.value == r.error) &&
              (r.Ok? ==> State() == ApplyAll(sb.mode, old(State()), r.value))
    {
      if fuel == 0 {
        return Some(RecursionLimit);
      }
      err := Substitute(v, lvars, within, fuel - 1);
    }

    /** ListSubber.expand */
    method Expand(x: Value, lvars: Vars, within: bool, fuel: nat) returns (err: Option<Error>)
      modifies this
      decreases fuel, Size(x), 0, 1
      ensures var r := LExpand(sb, x, lvars, within, fuel);
              (r.Err? <==> err.Some?) && (r.Err? ==> err.value == r.error) &&
              (r.Ok? ==> State() == ApplyAll(sb.mode, old(State()), r.value))
    {
      match x {
        case Str(s) =>
          err := ExpandStr(s, lvars, fuel);
        case Lst(items) =>
          err := ExpandItems(items, lvars, fuel);
        case Tup(items) =>
          err := ExpandItems(items, lvars, fuel);
        case Func(name) =>
          match sb.call(name, sb.mode != Cmd) {
            case Returned(v) =>
              err := Resubst(v, lvars, within, fuel);
            case CallTypeError =>
              err := Resubst(Str(ToString(x)), lvars, within, fuel);
          }
        case Null =>
          ThisWord();
          err := None;
        case _ =>
          Append(x);
          err := None;
      }
    }

    /** The string-token branch of expand. */
    method ExpandStr(s: string, lvars: Vars, fuel: nat) returns (err: Option<Error>)
      modifies this
      decreases fuel, 1, 0, 0
      ensures var r := LExpandStr(sb, s, lvars, fuel);
              (r.Err? <==> err.Some?) && (r.Err? ==> err.value == r.error) &&
              (r.Ok? ==> State() == ApplyAll(sb.mode, old(State()), r.value))
    {
      if |s| < 2 || s[0] != '$' {
        Append(Str(s));
        return None;
      }
      if s[1] == '$' {
        Append(Str("$"));
      } else if s[1] == '(' {
        OpenStrip("$(");
      } else if s[1] == ')' {
        CloseStrip("$)");
      } else {
        var key := s[1..];
        if key[0] == '{' || '.' in key {
          err := ExpandEval(s, if key[0] == '{' then Unbrace(key) else key, lvars, fuel);
          return;
        }
        var value: Value;
        if key in lvars {
          value := lvars[key];
        } else if key in sb.gvars {
          value := sb.gvars[key];
        } else {
          return None;
        }
        ghost var st0 := State();
        err := Resubst(value, lvars[key := Str("")], false, fuel);
        if err.Some? {
          return;
        }
        ghost var es := LResubst(sb, value, lvars[key := Str("")], false, fuel).value;
        ThisWord();
        ApplyAllConcat(sb.mode, st0, es, [ThisWordEv]);
      }
      err := None;
    }

    /** The eval() branch of expand. */
    method ExpandEval(s: string, k: string, lvars: Vars, fuel: nat) returns (err: Option<Error>)
      modifies this
      decreases fuel, 0, 0, 1
      ensures var r := LExpandEval(sb, s, k, lvars, fuel);
              (r.Err? <==> err.Some?) && (r.Err? ==> err.value == r.error) &&
              (r.Ok? ==> State() == ApplyAll(sb.mode, old(State()), r.value))
    {
      match sb.ev(k, sb.gvars, lvars) {
        case EvalAttributeError(e) =>
          err := Some(UserError("Error trying to evaluate `" + s + "': " + e));
        case EvalIgnored =>
          err := None;
        case EvalSyntaxError(e) =>
          var msg := "Syntax error `" + e + "' trying to evaluate `" + s + "'";
          if sb.target != [] {
            err := Some(BuildError(ToString(sb.target[0]), msg));
          } else {
            err := Some(UserError(msg));
          }
        case Evaluated(v) =>
          ghost var st0 := State();
          var lv := lvars[MaskedName(k) := Str("")];
          err := Resubst(v, lv, false, fuel);
          if err.None? {
            ghost var es := LResubst(sb, v, lv, false, fuel).value;
            ThisWord();
            ApplyAllConcat(sb.mode, st0, es, [ThisWordEv]);
          }
      }
    }

    /** The list branch of expand: each element substituted as a list
      element, then a new word. */
    method ExpandItems(items: seq<Value>, lvars: Vars, fuel: nat) returns (err: Option<Error>)
      modifies this
      decreases fuel, SizeSeq(items), 3, 0
      ensures var r := LItems(sb, items, lvars, fuel);
              (r.Err? <==> err.Some?) && (r.Err? ==> err.value == r.error) &&
              (r.Ok? ==> State() == ApplyAll(sb.mode, old(State()), r.value))
    {
      ghost var st0 := State();
      var i := 0;
      while i < |items|
        invariant 0 <= i <= |items|
        invariant LItems(sb, items[..i], lvars, fuel).Ok?
        invariant State() == ApplyAll(sb.mode, st0, LItems(sb, items[..i], lvars, fuel).value)
      {
        ghost var done := LItems(sb, items[..i], lvars, fuel).value;
        ghost var st1 := State();
        assert Size(items[i]) <= SizeSeq(items);
        err := Substitute(items[i], lvars, true, fuel);
        LItemsNext(sb, items, i, lvars, fuel);
        if err.Some? {
          return;
        }
        ghost var es := LSubstitute(sb, items[i], lvars, true, fuel).value;
        NextWord();
        ApplyAllConcat(sb.mode, st1, es, [NextWordEv]);
        ApplyAllConcat(sb.mode, st0, done, es + [NextWordEv]);
        i := i + 1;
      }
      assert items[..|items|] == items;
      err := None;
    }

    /** One token of the loop in substitute: white space holding a newline
        starts a new line, other white space is appended inside a list
        element and starts a new word elsewhere; anything else is
        expanded. */
    method Token(a: string, lvars: Vars, within: bool, fuel: nat) returns (err: Option<Error>)
      modifies this
      decreases fuel, 1, 0, 2
      ensures var r := LToken(sb, a, lvars, within, fuel);
              (r.Err? <==> err.Some?) && (r.Err? ==> err.value == r.error) &&
              (r.Ok? ==> State() == ApplyAll(sb.mode, old(State()), r.value))
    {
      ghost var st1 := State();
      if a != [] && IsSpace(a[0]) {
        ghost var e: Event;
        if '\n' in a {
          NextLine();
          e := NextLineEv;
        } else if within {
          Append(Str(a));
          e := Add(Str(a));
        } else {
          NextWord();
          e := NextWordEv;
        }
        ApplyOne(sb.mode, st1, e);
        err := None;
      } else {
        err := Expand(Str(a), lvars, within, fuel);
      }
    }

    /** ListSubber.substitute */
    method Substitute(x: Value, lvars: Vars, within: bool, fuel: nat) returns (err: Option<Error>)
      modifies this
      decreases fuel, Size(x), 2, 0
      ensures var r := LSubstitute(sb, x, lvars, within, fuel);
              (r.Err? <==> err.Some?) && (r.Err? ==> err.value == r.error) &&
              (r.Ok? ==> State() == ApplyAll(sb.mode, old(State()), r.value))
    {
      if !x.Str? {
        err := Expand(x, lvars, within, fuel);
        return;
      }
      err := SubstituteTokens(Tokens(x.s), lvars, within, fuel);
    }

    /** The loop of substitute over the tokens of a string. */
    method SubstituteTokens(toks: seq<string>, lvars: Vars, within: bool, fuel: nat) returns (err: Option<Error>)
      modifies this
      decreases fuel, 1, 1, |toks|
      ensures var r := LTokens(sb, toks, lvars, within, fuel);
              (r.Err? <==> err.Some?) && (r.Err? ==> err.value == r.error) &&
              (r.Ok? ==> State() == ApplyAll(sb.mode, old(State()), r.value))
    {
      ghost var st0 := State();
      var i := 0;
      while i < |toks|
        invariant 0 <= i <= |toks|
        invariant LTokens(sb, toks[..i], lvars, within, fuel).Ok?
        invariant State() == ApplyAll(sb.mode, st0, LTokens(sb, toks[..i], lvars, within, fuel).value)
      {
        ghost var done := LTokens(sb, toks[..i], lvars, within, fuel).value;
        var a := toks[i];
        LTokensNext(sb, toks, i, lvars, within, fuel);
        err := Token(a, lvars, within, fuel);
        if err.Some? {
          return;
        }
        ApplyAllConcat(sb.mode, st0, done, LToken(sb, a, lvars, within, fuel).value);
        i := i + 1;
      }
      assert toks[..|toks|] == toks;
      err := None;
    }
  }

  /** scons_subst_list run on a ListSubber: the lines it returns are those
      the events describe. */
  method RunSconsSubstList(mode: Mode, strSubst: Value, gvars: Vars, lvars: Vars,
                           target: seq<Value>, source: seq<Value>,
                           ev: (string, Vars, Vars) -> EvalOutcome,
                           call: (string, bool) -> CallOutcome, fuel: nat) returns (r: Result<seq<seq<Holder>>>)
    ensures r == SconsSubstList(mode, strSubst, gvars, lvars, target, source, ev, call, fuel)
  {
    var ls := new ListSubber(Subber(mode, gvars, target, ev, call));
    var err := ls.Substitute(strSubst, lvars + SubstDict(target, source), false, fuel);
    if err.Some? {
      return Err(err.value);
    }
    return Ok(ls.data);
  }
}
