/** What scons_subst_list promises: white space separates words, a
    white-space run holding a newline separates command lines, each element
    of a list is one word (white space inside it included), text after a
    word joins it unless the word ends in a redirection character, and in
    SIG mode the words between `$(` and `$)` are dropped. */
module SubstListFacts {
  import opened Errors
  import opened Strings
  import opened Values
  import opened SubstLex
  import opened Subst
  import opened SubstFacts
  import opened SubstList

  /** Plain words as ListSubber holds them: converted text, not literal. */
  function Words(ws: seq<string>): (r: seq<Holder>)
    ensures |r| == |ws| && forall i :: 0 <= i < |ws| ==> r[i] == Holder(ws[i], false)
  {
    seq(|ws|, i requires 0 <= i < |ws| => Holder(ws[i], false))
  }

  /** The lines with the words ws added to the last one. */
  function AddWords(data: Lines, ws: seq<string>): Lines
  {
    data[..|data| - 1] + [data[|data| - 1] + Words(ws)]
  }

  function StrValues(items: seq<string>): (r: seq<Value>)
    ensures |r| == |items| && forall i :: 0 <= i < |items| ==> r[i] == Str(items[i])
  {
    seq(|items|, i requires 0 <= i < |items| => Str(items[i]))
  }

  /** No redirection character. */
  predicate NoRedirect(s: string)
  {
    forall i :: 0 <= i < |s| ==> s[i] != '<' && s[i] != '>' && s[i] != '|'
  }

  /** Text that substitutes to itself and stays in one line. */
  predicate Plain(s: string)
  {
    '$' !in s && '\n' !in s
  }

  // ---------------------------------------------------------------
  // Words and lines

  lemma SeqAssoc<T>(x: seq<T>, y: seq<T>, z: seq<T>)
    ensures x + (y + z) == x + y + z
  {
  }

  lemma AddWordsNone(data: Lines)
    ensures AddWords(data, []) == data
  {
    var none: seq<string> := [];
    assert Words(none) == [];
    assert data[|data| - 1] + Words(none) == data[|data| - 1];
    assert data[..|data| - 1] + [data[|data| - 1]] == data;
  }

  lemma AddWordsConcat(data: Lines, a: seq<string>, b: seq<string>)
    ensures AddWords(AddWords(data, a), b) == AddWords(data, a + b)
  {
    var d1 := AddWords(data, a);
    assert |d1| == |data|;
    assert d1[..|d1| - 1] == data[..|data| - 1];
    assert d1[|d1| - 1] == data[|data| - 1] + Words(a);
    assert Words(a + b) == Words(a) + Words(b);
    assert (data[|data| - 1] + Words(a)) + Words(b) == data[|data| - 1] + Words(a + b);
  }

  lemma AddWordsInit(ws: seq<string>)
    ensures AddWords(InitState().data, ws) == [Words(ws)]
  {
    var e: seq<Holder> := [];
    assert e + Words(ws) == Words(ws);
  }

  // ---------------------------------------------------------------
  // Tokens of concatenated text

  lemma {:induction false} SpaceRunAppend(x: string, y: string)
    requires SpaceRun(x) < |x| || y == [] || !IsSpace(y[0])
    ensures SpaceRun(x + y) == SpaceRun(x)
    decreases |x|
  {
    if x == [] {
      assert x + y == y;
    } else if IsSpace(x[0]) {
      assert (x + y)[1..] == x[1..] + y;
      SpaceRunAppend(x[1..], y);
    }
  }

  lemma {:induction false} TextRunAppend(x: string, y: string)
    requires TextRun(x) < |x| || y == [] || !IsTextChar(y[0])
    ensures TextRun(x + y) == TextRun(x)
    decreases |x|
  {
    if x == [] {
      assert x + y == y;
    } else if IsTextChar(x[0]) {
      assert (x + y)[1..] == x[1..] + y;
      TextRunAppend(x[1..], y);
    }
  }

  lemma TokenLenAppend(x: string, y: string)
    requires x != [] && '$' !in x
    requires y == [] ||
             (IsSpace(x[|x| - 1]) && !IsSpace(y[0])) ||
             (!IsSpace(x[|x| - 1]) && !IsTextChar(y[0]))
    ensures TokenLen(x + y) == TokenLen(x)
  {
    assert x[0] != '$' by { assert x[0] in x; }
    if IsSpace(x[0]) {
      SpaceRunAppend(x, y);
    } else {
      TextRunAppend(x, y);
    }
  }

  /** Where the last character of x and the first of y cannot be in one
      token, splitting x + y splits x and y separately. */
  lemma {:induction false} TokensAppend(x: string, y: string)
    requires '$' !in x
    requires x == [] || y == [] ||
             (IsSpace(x[|x| - 1]) && !IsSpace(y[0])) ||
             (!IsSpace(x[|x| - 1]) && !IsTextChar(y[0]))
    ensures Tokens(x + y) == Tokens(x) + Tokens(y)
    decreases |x|
  {
    if x == [] {
      assert x + y == y;
    } else {
      var n := TokenLen(x);
      TokenLenAppend(x, y);
      var xy := x + y;
      assert xy[..n] == x[..n] && xy[n..] == x[n..] + y;
      assert Tokens(xy) == [x[..n]] + Tokens(x[n..] + y);
      assert Tokens(x) == [x[..n]] + Tokens(x[n..]);
      NotInDrop('$', x, n);
      TokensAppend(x[n..], y);
      SeqAssoc([x[..n]], Tokens(x[n..]), Tokens(y));
    }
  }

  lemma {:induction false} SpaceRunAll(s: string)
    requires forall i :: 0 <= i < |s| ==> IsSpace(s[i])
    ensures SpaceRun(s) == |s|
    decreases |s|
  {
    if s != [] {
      SpaceRunAll(s[1..]);
    }
  }

  lemma {:induction false} TextRunAll(s: string)
    requires '$' !in s && NoSpace(s)
    ensures TextRun(s) == |s|
    decreases |s|
  {
    if s != [] {
      assert s[0] != '$' by { assert s[0] in s; }
      NotInDrop('$', s, 1);
      TextRunAll(s[1..]);
    }
  }

  /** White space alone is one token. */
  lemma TokensSpace(sep: string)
    requires sep != [] && forall i :: 0 <= i < |sep| ==> IsSpace(sep[i])
    ensures Tokens(sep) == [sep]
  {
    SpaceRunAll(sep);
    assert IsSpace(sep[0]);
    TokensWhole(sep);
  }

  /** A string that is one token long is that token. */
  lemma TokensWhole(s: string)
    requires s != [] && TokenLen(s) == |s|
    ensures Tokens(s) == [s]
  {
    assert s[..|s|] == s && s[|s|..] == [];
  }

  /** A word of text alone is one token. */
  lemma TokensWord(p: string)
    requires p != [] && '$' !in p && NoSpace(p)
    ensures Tokens(p) == [p]
  {
    TextRunAll(p);
    assert p[0] != '$' by { assert p[0] in p; }
    TokensWhole(p);
  }

  lemma TokensOpen(y: string)
    ensures Tokens("$(" + y) == ["$("] + Tokens(y)
  {
    var s := "$(" + y;
    assert s[0] == '$' && s[1] == '(';
    assert TokenLen(s) == 2;
    assert s[..2] == "$(" && s[2..] == y;
  }

  lemma TokensClose(y: string)
    ensures Tokens("$)" + y) == ["$)"] + Tokens(y)
  {
    var s := "$)" + y;
    assert s[0] == '$' && s[1] == ')';
    assert TokenLen(s) == 2;
    assert s[..2] == "$)" && s[2..] == y;
  }

  // ---------------------------------------------------------------
  // string.split in terms of the token runs

  lemma {:induction false} TrimLeftRun(s: string)
    ensures TrimLeft(s) == s[SpaceRun(s)..]
    decreases |s|
  {
    if s != [] && IsSpace(s[0]) {
      TrimLeftRun(s[1..]);
      assert s[1..][SpaceRun(s[1..])..] == s[SpaceRun(s)..];
    }
  }

  lemma SplitSpaceLead(s: string)
    requires s != [] && IsSpace(s[0])
    ensures Split(s) == Split(s[SpaceRun(s)..])
  {
    TrimLeftRun(s);
    var r := s[SpaceRun(s)..];
    assert TrimLeft(r) == r;
  }

  lemma {:induction false} WordPrefixText(s: string)
    requires '$' !in s
    ensures WordPrefix(s) == s[..TextRun(s)]
    decreases |s|
  {
    if s != [] {
      assert s[0] != '$' by { assert s[0] in s; }
      if !IsSpace(s[0]) {
        NotInDrop('$', s, 1);
        WordPrefixText(s[1..]);
        assert [s[0]] + s[1..][..TextRun(s[1..])] == s[..TextRun(s)];
      }
    }
  }

  lemma SplitTextLead(s: string)
    requires s != [] && !IsSpace(s[0]) && '$' !in s
    ensures Split(s) == [s[..TextRun(s)]] + Split(s[TextRun(s)..])
  {
    assert TrimLeft(s) == s;
    WordPrefixText(s);
  }

  // ---------------------------------------------------------------
  // Tokens and the events they produce

  lemma PlainRest(s: string, n: nat)
    requires n <= |s| && Plain(s)
    ensures Plain(s[n..]) && '$' !in s[..n] && '\n' !in s[..n]
  {
    forall j | 0 <= j < |s[n..]| ensures s[n..][j] != '$' && s[n..][j] != '\n' { assert s[n..][j] == s[n + j]; }
    forall j | 0 <= j < n ensures s[..n][j] != '$' && s[..n][j] != '\n' { assert s[..n][j] == s[j]; }
  }

  /** Text without `$` is appended as it is. */
  lemma LTokenText(sb: Subber, t: string, lvars: Vars, within: bool, fuel: nat)
    requires t != [] && t[0] != '$' && !IsSpace(t[0])
    ensures LToken(sb, t, lvars, within, fuel) == Ok([Add(Str(t))])
  {
    assert LExpand(sb, Str(t), lvars, within, fuel) == LExpandStr(sb, t, lvars, fuel);
  }

  /** The events of a non-empty string: those of its first token, then
      those of the rest. */
  lemma LTokensFirst(sb: Subber, s: string, lvars: Vars, within: bool, fuel: nat)
    requires s != []
    ensures LTokens(sb, Tokens(s), lvars, within, fuel)
         == CatE(LToken(sb, s[..TokenLen(s)], lvars, within, fuel),
                 LTokens(sb, Tokens(s[TokenLen(s)..]), lvars, within, fuel))
  {
    var n := TokenLen(s);
    assert Tokens(s) == [s[..n]] + Tokens(s[n..]);
    assert Tokens(s)[0] == s[..n] && Tokens(s)[1..] == Tokens(s[n..]);
  }

  lemma ApplyFirst(mode: Mode, st: ListState, e: Event, es: seq<Event>)
    ensures ApplyAll(mode, st, [e] + es) == ApplyAll(mode, Step(mode, st, e), es)
  {
    assert ([e] + es)[0] == e && ([e] + es)[1..] == es;
  }

  /** Outside a list element, the text of a line becomes the words
      string.split finds in it, each a new word of the last line. */
  lemma {:induction false} PlainWords(sb: Subber, s: string, lvars: Vars, fuel: nat, st: ListState)
    requires Plain(s)
    requires !Dropping(sb.mode, st)
    requires st.append == AddNew || s == [] || IsSpace(s[0])
    ensures LTokens(sb, Tokens(s), lvars, false, fuel).Ok?
    ensures ApplyAll(sb.mode, st, LTokens(sb, Tokens(s), lvars, false, fuel).value).data == AddWords(st.data, Split(s))
    ensures ApplyAll(sb.mode, st, LTokens(sb, Tokens(s), lvars, false, fuel).value).inStrip == st.inStrip
    decreases |s|, 1
  {
    if s == [] {
      assert Split(s) == [];
      AddWordsNone(st.data);
    } else if IsSpace(s[0]) {
      PlainWordsSpace(sb, s, lvars, fuel, st);
    } else {
      PlainWordsText(sb, s, lvars, fuel, st);
    }
  }

  /** Leading white space only starts a new word. */
  lemma {:induction false} PlainWordsSpace(sb: Subber, s: string, lvars: Vars, fuel: nat, st: ListState)
    requires Plain(s) && s != [] && IsSpace(s[0])
    requires !Dropping(sb.mode, st)
    ensures LTokens(sb, Tokens(s), lvars, false, fuel).Ok?
    ensures ApplyAll(sb.mode, st, LTokens(sb, Tokens(s), lvars, false, fuel).value).data == AddWords(st.data, Split(s))
    ensures ApplyAll(sb.mode, st, LTokens(sb, Tokens(s), lvars, false, fuel).value).inStrip == st.inStrip
    decreases |s|, 0
  {
    var n := TokenLen(s);
    PlainSpaceToken(s);
    LTokenBlank(sb, s[..n], lvars, fuel);
    var st1 := st.(append := AddNew);
    FirstEvent(sb, s, lvars, false, fuel, st, NextWordEv);
    PlainWords(sb, s[n..], lvars, fuel, st1);
    SplitSpaceLead(s);
  }

  /** A leading run of text becomes a new word. */
  lemma {:induction false} PlainWordsText(sb: Subber, s: string, lvars: Vars, fuel: nat, st: ListState)
    requires Plain(s) && s != [] && !IsSpace(s[0])
    requires !Dropping(sb.mode, st) && st.append == AddNew
    ensures LTokens(sb, Tokens(s), lvars, false, fuel).Ok?
    ensures ApplyAll(sb.mode, st, LTokens(sb, Tokens(s), lvars, false, fuel).value).data == AddWords(st.data, Split(s))
    ensures ApplyAll(sb.mode, st, LTokens(sb, Tokens(s), lvars, false, fuel).value).inStrip == st.inStrip
    decreases |s|, 0
  {
    var n := TokenLen(s);
    var t := s[..n];
    var rest := s[n..];
    PlainTextToken(s);
    LTokenText(sb, t, lvars, false, fuel);
    FirstEvent(sb, s, lvars, false, fuel, st, Add(Str(t)));
    var st1 := NewWord(sb.mode, st, Str(t));
    NewWordText(sb.mode, st, t);
    PlainWords(sb, rest, lvars, fuel, st1);
    SplitTextLead(s);
    AddWordsConcat(st.data, [t], Split(rest));
  }

  /** In plain text a run of white space is one token without a newline. */
  lemma PlainSpaceToken(s: string)
    requires Plain(s) && s != [] && IsSpace(s[0])
    ensures TokenLen(s) == SpaceRun(s)
    ensures Plain(s[TokenLen(s)..])
    ensures IsSpace(s[..TokenLen(s)][0]) && '\n' !in s[..TokenLen(s)]
  {
    assert s[0] != '$';
    PlainRest(s, TokenLen(s));
  }

  /** In plain text a run of text is followed by white space or the end. */
  lemma PlainTextToken(s: string)
    requires Plain(s) && s != [] && !IsSpace(s[0])
    ensures TokenLen(s) == TextRun(s) && s[0] != '$' && s[..TokenLen(s)][0] != '$'
    ensures Plain(s[TokenLen(s)..])
    ensures s[TokenLen(s)..] == [] || IsSpace(s[TokenLen(s)..][0])
  {
    var n := TokenLen(s);
    assert s[0] != '$' by { assert s[0] in s; }
    PlainRest(s, n);
    if n < |s| {
      assert s[n..][0] == s[n];
      assert s[n] != '$' by { assert s[n] in s; }
    }
  }

  /** New text as a new word. */
  lemma NewWordText(mode: Mode, st: ListState, t: string)
    requires !Dropping(mode, st)
    ensures NewWord(mode, st, Str(t)).data == AddWords(st.data, [t])
  {
    assert Conv(mode, Str(t)) == t && !IsLiteral(Str(t));
    assert Words([t]) == [Holder(t, false)];
  }

  /** When the first token of s yields the single event e, the events of s
      act as e followed by the events of the rest. */
  lemma FirstEvent(sb: Subber, s: string, lvars: Vars, within: bool, fuel: nat, st: ListState, e: Event)
    requires s != [] && LToken(sb, s[..TokenLen(s)], lvars, within, fuel) == Ok([e])
    ensures var r := LTokens(sb, Tokens(s[TokenLen(s)..]), lvars, within, fuel);
            LTokens(sb, Tokens(s), lvars, within, fuel).Ok? == r.Ok? &&
            (r.Ok? ==> ApplyAll(sb.mode, st, LTokens(sb, Tokens(s), lvars, within, fuel).value)
                       == ApplyAll(sb.mode, Step(sb.mode, st, e), r.value))
  {
    LTokensFirst(sb, s, lvars, within, fuel);
    var r := LTokens(sb, Tokens(s[TokenLen(s)..]), lvars, within, fuel);
    if r.Ok? {
      ApplyFirst(sb.mode, st, e, r.value);
    }
  }

  /** Inside a `$( ... $)` strip in SIG mode the text of a line adds no
      word. */
  lemma {:induction false} DroppedWords(sb: Subber, s: string, lvars: Vars, fuel: nat, st: ListState)
    requires Plain(s)
    requires Dropping(sb.mode, st)
    ensures LTokens(sb, Tokens(s), lvars, false, fuel).Ok?
    ensures ApplyAll(sb.mode, st, LTokens(sb, Tokens(s), lvars, false, fuel).value).data == st.data
    ensures ApplyAll(sb.mode, st, LTokens(sb, Tokens(s), lvars, false, fuel).value).inStrip
    decreases |s|
  {
    if s != [] {
      var n := TokenLen(s);
      var t := s[..n];
      var rest := s[n..];
      PlainRest(s, n);
      LTokensFirst(sb, s, lvars, false, fuel);
      var r := LTokens(sb, Tokens(rest), lvars, false, fuel);
      assert s[0] != '$' by { assert s[0] in s; }
      if IsSpace(s[0]) {
        assert LToken(sb, t, lvars, false, fuel) == Ok([NextWordEv]);
        DroppedWords(sb, rest, lvars, fuel, st.(append := AddNew));
        ApplyFirst(sb.mode, st, NextWordEv, r.value);
      } else {
        LTokenText(sb, t, lvars, false, fuel);
        var st1 := Append(sb.mode, st, Str(t));
        assert st1.data == st.data && st1.inStrip;
        DroppedWords(sb, rest, lvars, fuel, st1);
        ApplyFirst(sb.mode, st, Add(Str(t)), r.value);
      }
    }
  }

  /** The state with s appended to the last word of the last line. */
  function ExtendLast(st: ListState, s: string): ListState
    requires st.data[|st.data| - 1] != []
  {
    if s == [] then st
    else
      var line := st.data[|st.data| - 1];
      var w := line[|line| - 1];
      var data: Lines := st.data[..|st.data| - 1] + [line[..|line| - 1] + [Holder(w.data + s, false)]];
      st.(data := data)
  }

  /** Inside a list element every token, white space included, joins the
      current word. */
  lemma {:induction false} InElement(sb: Subber, s: string, lvars: Vars, fuel: nat, st: ListState)
    requires Plain(s) && NoRedirect(s)
    requires !Dropping(sb.mode, st) && st.append == AddToCurrent
    requires st.data[|st.data| - 1] != []
    requires !EndsInRedirect(st.data[|st.data| - 1][|st.data[|st.data| - 1]| - 1])
    ensures LTokens(sb, Tokens(s), lvars, true, fuel).Ok?
    ensures ApplyAll(sb.mode, st, LTokens(sb, Tokens(s), lvars, true, fuel).value) == ExtendLast(st, s)
    decreases |s|
  {
    if s != [] {
      var n := TokenLen(s);
      var t := s[..n];
      var rest := s[n..];
      ElementToken(sb, s, lvars, fuel);
      FirstEvent(sb, s, lvars, true, fuel, st, Add(Str(t)));
      JoinText(sb.mode, st, t);
      var st1 := ExtendLast(st, t);
      InElement(sb, rest, lvars, fuel, st1);
      ExtendLastSplit(st, s, n);
    }
  }

  /** The first token of list-element text is appended as it is. */
  lemma ElementToken(sb: Subber, s: string, lvars: Vars, fuel: nat)
    requires s != [] && Plain(s) && NoRedirect(s)
    ensures LToken(sb, s[..TokenLen(s)], lvars, true, fuel) == Ok([Add(Str(s[..TokenLen(s)]))])
    ensures Plain(s[TokenLen(s)..]) && NoRedirect(s[TokenLen(s)..]) && NoRedirect(s[..TokenLen(s)])
  {
    var n := TokenLen(s);
    var t := s[..n];
    PlainRest(s, n);
    assert s[0] != '$' by { assert s[0] in s; }
    assert t[0] == s[0];
    if !IsSpace(s[0]) {
      LTokenText(sb, t, lvars, true, fuel);
    }
    assert NoRedirect(s[n..]) by {
      forall j | 0 <= j < |s[n..]| ensures s[n..][j] == s[n + j] { }
    }
  }

  /** Text joins the current word when that word does not end in a
      redirection character. */
  lemma JoinText(mode: Mode, st: ListState, t: string)
    requires t != [] && NoRedirect(t)
    requires !Dropping(mode, st) && st.append == AddToCurrent
    requires st.data[|st.data| - 1] != []
    requires !EndsInRedirect(st.data[|st.data| - 1][|st.data[|st.data| - 1]| - 1])
    ensures Step(mode, st, Add(Str(t))) == ExtendLast(st, t)
    ensures var st1 := ExtendLast(st, t);
            !Dropping(mode, st1) && st1.append == AddToCurrent && st1.data[|st1.data| - 1] != [] &&
            !EndsInRedirect(st1.data[|st1.data| - 1][|st1.data[|st1.data| - 1]| - 1])
  {
    var line := st.data[|st.data| - 1];
    var w := line[|line| - 1];
    assert (w.data + t)[|w.data + t| - 1] == t[|t| - 1];
  }

  lemma ExtendLastTwice(st: ListState, t: string, rest: string)
    requires st.data[|st.data| - 1] != [] && t != []
    ensures ExtendLast(st, t).data[|st.data| - 1] != []
    ensures ExtendLast(ExtendLast(st, t), rest) == ExtendLast(st, t + rest)
  {
    var st1 := ExtendLast(st, t);
    if rest != [] {
      var k := |st.data| - 1;
      var line := st.data[k];
      var line1 := st1.data[k];
      assert |st1.data| == |st.data| && st1.data[..k] == st.data[..k];
      assert line1 == line[..|line| - 1] + [Holder(line[|line| - 1].data + t, false)];
      assert line1[..|line1| - 1] == line[..|line| - 1];
      assert (line[|line| - 1].data + t) + rest == line[|line| - 1].data + (t + rest);
    } else {
      assert t + rest == t;
    }
  }

  lemma ExtendLastSplit(st: ListState, s: string, n: nat)
    requires st.data[|st.data| - 1] != [] && 0 < n <= |s|
    ensures ExtendLast(ExtendLast(st, s[..n]), s[n..]) == ExtendLast(st, s)
  {
    ExtendLastTwice(st, s[..n], s[n..]);
    assert s[..n] + s[n..] == s;
  }

  lemma ExtendNewWordSplit(mode: Mode, st: ListState, s: string, n: nat)
    requires !Dropping(mode, st) && 0 < n <= |s|
    ensures NewWord(mode, st, Str(s[..n])).data[|st.data| - 1] != []
    ensures ExtendLast(NewWord(mode, st, Str(s[..n])), s[n..]).data == AddWords(st.data, [s])
  {
    ExtendNewWord(mode, st, s[..n], s[n..]);
    assert s[..n] + s[n..] == s;
  }

  /** The tokens of a list element make one new word of all of it. */
  lemma ElementTokens(sb: Subber, s: string, lvars: Vars, fuel: nat, st: ListState)
    requires s != [] && Plain(s) && NoRedirect(s)
    requires !Dropping(sb.mode, st) && st.append == AddNew
    ensures LTokens(sb, Tokens(s), lvars, true, fuel).Ok?
    ensures ApplyAll(sb.mode, st, LTokens(sb, Tokens(s), lvars, true, fuel).value).data == AddWords(st.data, [s])
    ensures ApplyAll(sb.mode, st, LTokens(sb, Tokens(s), lvars, true, fuel).value).inStrip == st.inStrip
  {
    var n := TokenLen(s);
    var t := s[..n];
    var rest := s[n..];
    ElementToken(sb, s, lvars, fuel);
    FirstEvent(sb, s, lvars, true, fuel, st, Add(Str(t)));
    NewWordReady(sb.mode, st, t);
    InElement(sb, rest, lvars, fuel, NewWord(sb.mode, st, Str(t)));
    ExtendNewWordSplit(sb.mode, st, s, n);
  }

  /** After a new word without redirection characters, text joins it. */
  lemma NewWordReady(mode: Mode, st: ListState, t: string)
    requires !Dropping(mode, st) && t != [] && NoRedirect(t)
    ensures var st1 := NewWord(mode, st, Str(t));
            !Dropping(mode, st1) && st1.append == AddToCurrent && st1.data[|st1.data| - 1] != [] &&
            !EndsInRedirect(st1.data[|st1.data| - 1][|st1.data[|st1.data| - 1]| - 1])
  {
    NewWordText(mode, st, t);
    assert t[|t| - 1] in t;
  }

  /** A list element becomes one new word, white space inside it
      included, and the next text starts another word. */
  lemma ElementWord(sb: Subber, s: string, lvars: Vars, fuel: nat, st: ListState)
    requires s != [] && Plain(s) && NoRedirect(s)
    requires !Dropping(sb.mode, st) && st.append == AddNew
    ensures LItem(sb, Str(s), lvars, fuel).Ok?
    ensures ApplyAll(sb.mode, st, LItem(sb, Str(s), lvars, fuel).value)
         == ListState(AddWords(st.data, [s]), AddNew, st.inStrip)
  {
    ElementTokens(sb, s, lvars, fuel, st);
    var es := LTokens(sb, Tokens(s), lvars, true, fuel).value;
    assert LSubstitute(sb, Str(s), lvars, true, fuel) == Ok(es);
    ApplyAllConcat(sb.mode, st, es, [NextWordEv]);
    ApplyOne(sb.mode, ApplyAll(sb.mode, st, es), NextWordEv);
  }

  /** A new word extended by more text is the new word of all of it. */
  lemma ExtendNewWord(mode: Mode, st: ListState, t: string, rest: string)
    requires !Dropping(mode, st) && t != []
    ensures NewWord(mode, st, Str(t)).data[|st.data| - 1] != []
    ensures ExtendLast(NewWord(mode, st, Str(t)), rest).data == AddWords(st.data, [t + rest])
  {
    NewWordText(mode, st, t);
    var st1 := NewWord(mode, st, Str(t));
    assert Words([t + rest]) == [Holder(t + rest, false)];
    if rest != [] {
      var k := |st.data| - 1;
      var line1 := st1.data[k];
      assert line1 == st.data[k] + [Holder(t, false)];
      assert line1[..|line1| - 1] == st.data[k];
    } else {
      assert t + rest == t;
    }
  }

  lemma {:induction false} ItemsWords(sb: Subber, items: seq<string>, lvars: Vars, fuel: nat, st: ListState)
    requires forall i :: 0 <= i < |items| ==> items[i] != [] && Plain(items[i]) && NoRedirect(items[i])
    requires !Dropping(sb.mode, st) && st.append == AddNew
    ensures LItems(sb, StrValues(items), lvars, fuel).Ok?
    ensures ApplyAll(sb.mode, st, LItems(sb, StrValues(items), lvars, fuel).value)
         == ListState(AddWords(st.data, items), AddNew, st.inStrip)
    decreases |items|
  {
    if items == [] {
      AddWordsNone(st.data);
    } else {
      var vs := StrValues(items);
      assert vs[0] == Str(items[0]) && vs[1..] == StrValues(items[1..]);
      ElementWord(sb, items[0], lvars, fuel, st);
      var es := LItem(sb, Str(items[0]), lvars, fuel).value;
      var st1 := ListState(AddWords(st.data, [items[0]]), AddNew, st.inStrip);
      ItemsWords(sb, items[1..], lvars, fuel, st1);
      ApplyAllConcat(sb.mode, st, es, LItems(sb, StrValues(items[1..]), lvars, fuel).value);
      AddWordsConcat(st.data, [items[0]], items[1..]);
      assert [items[0]] + items[1..] == items;
    }
  }

  // ---------------------------------------------------------------
  // Single tokens

  lemma LTokensOne(sb: Subber, t: string, lvars: Vars, within: bool, fuel: nat)
    ensures LTokens(sb, [t], lvars, within, fuel) == LToken(sb, t, lvars, within, fuel)
  {
    var one: seq<string> := [t];
    assert one[0] == t && one[1..] == [];
    CatEUnit(LToken(sb, t, lvars, within, fuel));
  }

  /** Outside a list element, white space without a newline only starts a
      new word. */
  lemma LTokenBlank(sb: Subber, t: string, lvars: Vars, fuel: nat)
    requires t != [] && IsSpace(t[0]) && '\n' !in t
    ensures LToken(sb, t, lvars, false, fuel) == Ok([NextWordEv])
  {
  }

  lemma LTokenOpen(sb: Subber, lvars: Vars, fuel: nat)
    ensures LToken(sb, "$(", lvars, false, fuel) == Ok([OpenStripEv])
  {
    var t := "$(";
    assert t[0] == '$' && t[1] == '(';
    assert LExpand(sb, Str(t), lvars, false, fuel) == LExpandStr(sb, t, lvars, fuel);
  }

  lemma LTokenClose(sb: Subber, lvars: Vars, fuel: nat)
    ensures LToken(sb, "$)", lvars, false, fuel) == Ok([CloseStripEv])
  {
    var t := "$)";
    assert t[0] == '$' && t[1] == ')';
    assert LExpand(sb, Str(t), lvars, false, fuel) == LExpandStr(sb, t, lvars, fuel);
  }

  /** `$name` whose value is one word of plain text appends that word and
      lets the next text join it. */
  lemma LVariableWord(sb: Subber, name: string, w: string, lvars: Vars, fuel: nat)
    requires IsName(name) && name in lvars && lvars[name] == Str(w)
    requires w != [] && '$' !in w && NoSpace(w)
    requires fuel >= 1
    ensures LToken(sb, "$" + name, lvars, false, fuel) == Ok([Add(Str(w)), ThisWordEv])
  {
    var t := "$" + name;
    assert t[1..] == name;
    assert t[0] == '$' && t[1] == name[0];
    assert name[0] != '{' && name[0] != '$' && name[0] != '(' && name[0] != ')';
    assert LExpand(sb, Str(t), lvars, false, fuel) == LExpandStr(sb, t, lvars, fuel);
    var lv := lvars[name := Str("")];
    TokensWord(w);
    assert w[0] != '$' by { assert w[0] in w; }
    LTokenText(sb, w, lv, false, fuel - 1);
    LTokensOne(sb, w, lv, false, fuel - 1);
    assert LSubstitute(sb, Str(w), lv, false, fuel - 1) == Ok([Add(Str(w))]);
    assert LResubst(sb, Str(w), lv, false, fuel) == Ok([Add(Str(w))]);
    assert LExpandStr(sb, t, lvars, fuel) == CatE(LResubst(sb, Str(w), lv, false, fuel), Ok([ThisWordEv]));
    assert [Add(Str(w))] + [ThisWordEv] == [Add(Str(w)), ThisWordEv];
  }

  // ---------------------------------------------------------------
  // scons_subst_list

  /** scons_subst_list is the state the events of the value leave. */
  lemma ListResult(mode: Mode, x: Value, gvars: Vars, lvars: Vars,
                   target: seq<Value>, source: seq<Value>,
                   ev: (string, Vars, Vars) -> EvalOutcome,
                   call: (string, bool) -> CallOutcome, fuel: nat, es: seq<Event>)
    requires LSubstitute(Subber(mode, gvars, target, ev, call), x, lvars + SubstDict(target, source), false, fuel) == Ok(es)
    ensures SconsSubstList(mode, x, gvars, lvars, target, source, ev, call, fuel)
         == (var d: seq<seq<Holder>> := ApplyAll(mode, InitState(), es).data; Ok(d))
  {
  }

  /** A string without `$` and without a newline is one command line of
      the words string.split finds in it. */
  lemma PlainStringWords(mode: Mode, s: string, gvars: Vars, lvars: Vars,
                         target: seq<Value>, source: seq<Value>,
                         ev: (string, Vars, Vars) -> EvalOutcome,
                         call: (string, bool) -> CallOutcome, fuel: nat)
    requires Plain(s)
    ensures SconsSubstList(mode, Str(s), gvars, lvars, target, source, ev, call, fuel) == Ok([Words(Split(s))])
  {
    var sb := Subber(mode, gvars, target, ev, call);
    var lv := lvars + SubstDict(target, source);
    PlainWords(sb, s, lv, fuel, InitState());
    AddWordsInit(Split(s));
    ListResult(mode, Str(s), gvars, lvars, target, source, ev, call, fuel, LTokens(sb, Tokens(s), lv, false, fuel).value);
  }

  lemma SpacesNoDollar(s: string)
    requires forall i :: 0 <= i < |s| ==> IsSpace(s[i])
    ensures '$' !in s
  {
    forall j | 0 <= j < |s| ensures s[j] != '$' { assert IsSpace(s[j]); }
  }

  /** The tokens of two pieces of text around a white-space separator. */
  lemma TokensAround(a: string, sep: string, b: string)
    requires '$' !in a && '$' !in b
    requires a == [] || !IsSpace(a[|a| - 1])
    requires b == [] || !IsSpace(b[0])
    requires sep != [] && forall i :: 0 <= i < |sep| ==> IsSpace(sep[i])
    ensures Tokens(a + sep + b) == Tokens(a) + ([sep] + Tokens(b))
  {
    var tail := sep + b;
    assert a + sep + b == a + tail;
    TokensSpaceBefore(sep, b);
    TokensAppend(a, tail);
  }

  /** White space followed by text is a token of its own. */
  lemma TokensSpaceBefore(sep: string, b: string)
    requires '$' !in b && (b == [] || !IsSpace(b[0]))
    requires sep != [] && forall i :: 0 <= i < |sep| ==> IsSpace(sep[i])
    ensures Tokens(sep + b) == [sep] + Tokens(b)
    ensures !IsTextChar((sep + b)[0])
  {
    SpacesNoDollar(sep);
    assert IsSpace(sep[|sep| - 1]);
    TokensAppend(sep, b);
    TokensSpace(sep);
    assert (sep + b)[0] == sep[0];
  }

  lemma AddWordsSecond(w: seq<Holder>, ws: seq<string>)
    ensures AddWords([w, []], ws) == [w, Words(ws)]
  {
    var d: Lines := [w, []];
    var e: seq<Holder> := [];
    assert d[..1] == [w] && d[1] == e;
    assert e + Words(ws) == Words(ws);
  }

  /** A newline event followed by the events of plain text b: a second
      line holding the words of b. */
  lemma SecondLine(sb: Subber, b: string, lvars: Vars, fuel: nat, st1: ListState)
    requires Plain(b) && !st1.inStrip && |st1.data| == 1
    ensures LTokens(sb, Tokens(b), lvars, false, fuel).Ok?
    ensures ApplyAll(sb.mode, st1, [NextLineEv] + LTokens(sb, Tokens(b), lvars, false, fuel).value).data
         == [st1.data[0], Words(Split(b))]
  {
    var st2 := Step(sb.mode, st1, NextLineEv);
    assert st2.data == [st1.data[0], []];
    PlainWords(sb, b, lvars, fuel, st2);
    ApplyFirst(sb.mode, st1, NextLineEv, LTokens(sb, Tokens(b), lvars, false, fuel).value);
    AddWordsSecond(st1.data[0], Split(b));
  }

  /** The events of two lines of text. */
  lemma LinesEvents(sb: Subber, a: string, sep: string, b: string, lvars: Vars, fuel: nat)
    requires Plain(a) && Plain(b)
    requires a == [] || !IsSpace(a[|a| - 1])
    requires b == [] || !IsSpace(b[0])
    requires sep != [] && '\n' in sep && forall i :: 0 <= i < |sep| ==> IsSpace(sep[i])
    ensures LTokens(sb, Tokens(a + sep + b), lvars, false, fuel).Ok?
    ensures ApplyAll(sb.mode, InitState(), LTokens(sb, Tokens(a + sep + b), lvars, false, fuel).value).data
         == [Words(Split(a)), Words(Split(b))]
  {
    var mode := sb.mode;
    TokensAround(a, sep, b);
    LTokensSplit(sb, Tokens(a), [sep] + Tokens(b), lvars, false, fuel);
    LTokensSplit(sb, [sep], Tokens(b), lvars, false, fuel);
    LTokensOne(sb, sep, lvars, false, fuel);
    assert LToken(sb, sep, lvars, false, fuel) == Ok([NextLineEv]);
    PlainWords(sb, a, lvars, fuel, InitState());
    var ea := LTokens(sb, Tokens(a), lvars, false, fuel).value;
    var st1 := ApplyAll(mode, InitState(), ea);
    AddWordsInit(Split(a));
    SecondLine(sb, b, lvars, fuel, st1);
    var eb := LTokens(sb, Tokens(b), lvars, false, fuel).value;
    ApplyAllConcat(mode, InitState(), ea, [NextLineEv] + eb);
  }

  /** White space holding a newline ends one command line and starts the
      next. */
  lemma NewlineSplitsLines(mode: Mode, a: string, sep: string, b: string, gvars: Vars, lvars: Vars,
                           target: seq<Value>, source: seq<Value>,
                           ev: (string, Vars, Vars) -> EvalOutcome,
                           call: (string, bool) -> CallOutcome, fuel: nat)
    requires Plain(a) && Plain(b)
    requires a == [] || !IsSpace(a[|a| - 1])
    requires b == [] || !IsSpace(b[0])
    requires sep != [] && '\n' in sep && forall i :: 0 <= i < |sep| ==> IsSpace(sep[i])
    ensures SconsSubstList(mode, Str(a + sep + b), gvars, lvars, target, source, ev, call, fuel)
         == Ok([Words(Split(a)), Words(Split(b))])
  {
    var sb := Subber(mode, gvars, target, ev, call);
    var lv := lvars + SubstDict(target, source);
    LinesEvents(sb, a, sep, b, lv, fuel);
    ListResult(mode, Str(a + sep + b), gvars, lvars, target, source, ev, call, fuel,
               LTokens(sb, Tokens(a + sep + b), lv, false, fuel).value);
  }

  /** Each element of a list is one word of the command line, white space
      inside it included. */
  lemma ListElementsAreWords(mode: Mode, items: seq<string>, gvars: Vars, lvars: Vars,
                             target: seq<Value>, source: seq<Value>,
                             ev: (string, Vars, Vars) -> EvalOutcome,
                             call: (string, bool) -> CallOutcome, fuel: nat)
    requires forall i :: 0 <= i < |items| ==> items[i] != [] && Plain(items[i]) && NoRedirect(items[i])
    ensures SconsSubstList(mode, Lst(StrValues(items)), gvars, lvars, target, source, ev, call, fuel)
         == Ok([Words(items)])
  {
    var sb := Subber(mode, gvars, target, ev, call);
    var lv := lvars + SubstDict(target, source);
    ItemsWords(sb, items, lv, fuel, InitState());
    AddWordsInit(items);
    assert LSubstitute(sb, Lst(StrValues(items)), lv, false, fuel) == LItems(sb, StrValues(items), lv, fuel);
    ListResult(mode, Lst(StrValues(items)), gvars, lvars, target, source, ev, call, fuel,
               LItems(sb, StrValues(items), lv, fuel).value);
  }

  /** The tokens of a word followed by `$name`. */
  lemma TokensWordVar(p: string, name: string)
    requires p != [] && '$' !in p && NoSpace(p) && IsName(name)
    ensures Tokens(p + "$" + name) == [p, "$" + name]
  {
    var v := "$" + name;
    TokensVar(name, []);
    assert v + [] == v;
    TokensWord(p);
    TokensAppend(p, v);
    assert p + "$" + name == p + v;
  }

  /** The first text of a command is its first word. */
  lemma FirstWord(mode: Mode, p: string)
    ensures Step(mode, InitState(), Add(Str(p))) == ListState([[Holder(p, false)]], AddToCurrent, false)
  {
    assert Conv(mode, Str(p)) == p && !IsLiteral(Str(p));
    var e: seq<Holder> := [];
    assert InitState().data[..0] == [] && e + [Holder(p, false)] == [Holder(p, false)];
  }

  /** Text after a word ending in a redirection character starts a new
      word. */
  lemma RedirectStep(mode: Mode, p: string, w: string)
    requires EndsInRedirect(Holder(p, false))
    ensures Step(mode, ListState([[Holder(p, false)]], AddToCurrent, false), Add(Str(w))).data
         == [[Holder(p, false), Holder(w, false)]]
  {
    var st1 := ListState([[Holder(p, false)]], AddToCurrent, false);
    assert Conv(mode, Str(w)) == w && !IsLiteral(Str(w));
    assert st1.data[..0] == [];
    assert [Holder(p, false)] + [Holder(w, false)] == [Holder(p, false), Holder(w, false)];
  }

  /** Other text joins the current word. */
  lemma JoinStep(mode: Mode, p: string, w: string)
    requires !EndsInRedirect(Holder(p, false))
    ensures Step(mode, ListState([[Holder(p, false)]], AddToCurrent, false), Add(Str(w))).data
         == [[Holder(p + w, false)]]
  {
    var st1 := ListState([[Holder(p, false)]], AddToCurrent, false);
    var line := st1.data[0];
    assert line == [Holder(p, false)] && line[..0] == [] && st1.data[..0] == [];
    assert ToString(Str(w)) == w;
    var e: seq<Holder> := [];
    assert e + [Holder(p + w, false)] == [Holder(p + w, false)];
  }

  lemma JoinOrRedirect(mode: Mode, p: string, w: string)
    ensures ApplyAll(mode, InitState(), [Add(Str(p)), Add(Str(w)), ThisWordEv]).data
         == [if EndsInRedirect(Holder(p, false)) then [Holder(p, false), Holder(w, false)]
             else [Holder(p + w, false)]]
  {
    var es := [Add(Str(p)), Add(Str(w)), ThisWordEv];
    var st0 := InitState();
    FirstWord(mode, p);
    var st1 := Step(mode, st0, Add(Str(p)));
    var st2 := Step(mode, st1, Add(Str(w)));
    if EndsInRedirect(Holder(p, false)) {
      RedirectStep(mode, p, w);
    } else {
      JoinStep(mode, p, w);
    }
    assert es == [Add(Str(p))] + [Add(Str(w)), ThisWordEv];
    ApplyFirst(mode, st0, Add(Str(p)), [Add(Str(w)), ThisWordEv]);
    ApplyFirst(mode, st1, Add(Str(w)), [ThisWordEv]);
    ApplyFirst(mode, st2, ThisWordEv, []);
  }

  /** A variable's value joins the text before it into one word, unless
      that text ends in `<`, `>` or `|`. */
  lemma VariableJoinsWord(mode: Mode, p: string, name: string, w: string, gvars: Vars, lvars: Vars,
                          target: seq<Value>, source: seq<Value>,
                          ev: (string, Vars, Vars) -> EvalOutcome,
                          call: (string, bool) -> CallOutcome, fuel: nat)
    requires p != [] && '$' !in p && NoSpace(p)
    requires IsName(name) && name !in SubstDict(target, source)
    requires name in lvars && lvars[name] == Str(w)
    requires w != [] && '$' !in w && NoSpace(w)
    requires fuel >= 1
    ensures SconsSubstList(mode, Str(p + "$" + name), gvars, lvars, target, source, ev, call, fuel)
         == Ok([if EndsInRedirect(Holder(p, false)) then [Holder(p, false), Holder(w, false)]
                else [Holder(p + w, false)]])
  {
    var sb := Subber(mode, gvars, target, ev, call);
    var lv := lvars + SubstDict(target, source);
    var v := "$" + name;
    TokensWordVar(p, name);
    var toks := [p, v];
    assert toks[0] == p && toks[1..] == [v];
    assert p[0] != '$' by { assert p[0] in p; }
    LTokenText(sb, p, lv, false, fuel);
    assert lv[name] == Str(w);
    LVariableWord(sb, name, w, lv, fuel);
    LTokensOne(sb, v, lv, false, fuel);
    var es := [Add(Str(p)), Add(Str(w)), ThisWordEv];
    assert [Add(Str(p))] + [Add(Str(w)), ThisWordEv] == es;
    assert LTokens(sb, toks, lv, false, fuel) == Ok(es);
    JoinOrRedirect(mode, p, w);
    ListResult(mode, Str(p + "$" + name), gvars, lvars, target, source, ev, call, fuel, es);
  }

  /** ` $(m$) b` */
  function StripTailText(m: string, b: string): string
  {
    " $(" + m + "$) " + b
  }

  lemma StripText(a: string, m: string, b: string)
    ensures a + " $(" + m + "$) " + b == a + StripTailText(m, b)
  {
  }

  lemma StripTailNested(m: string, b: string)
    ensures StripTailText(m, b) == " " + ("$(" + (m + ("$)" + (" " + b))))
  {
  }

  /** A blank before text that is not white space is a token of its own. */
  lemma TokensBlankBefore(y: string)
    requires y == [] || !IsSpace(y[0])
    ensures Tokens(" " + y) == [" "] + Tokens(y)
  {
    TokensSpace(" ");
    TokensAppend(" ", y);
  }

  /** Text without `$` before a `$` splits on its own. */
  lemma TokensBeforeDollar(m: string, y: string)
    requires '$' !in m && y != [] && y[0] == '$'
    ensures Tokens(m + y) == Tokens(m) + Tokens(y)
  {
    TokensAppend(m, y);
  }

  /** The tokens of ` $(m$) b`. */
  lemma TokensStripTail(m: string, b: string)
    requires '$' !in m && '$' !in b
    requires b == [] || !IsSpace(b[0])
    ensures Tokens(StripTailText(m, b)) == [" "] + (["$("] + (Tokens(m) + (["$)"] + ([" "] + Tokens(b)))))
  {
    var r5 := " " + b;
    TokensBlankBefore(b);
    var r4 := "$)" + r5;
    TokensClose(r5);
    var r3 := m + r4;
    TokensBeforeDollar(m, r4);
    var r2 := "$(" + r3;
    TokensOpen(r3);
    TokensBlankBefore(r2);
    StripTailNested(m, b);
  }

  /** The events of ` $(m$) b`. */
  lemma StripTailEvents(sb: Subber, m: string, b: string, lvars: Vars, fuel: nat)
    requires Plain(m) && Plain(b)
    requires b == [] || !IsSpace(b[0])
    ensures var em := LTokens(sb, Tokens(m), lvars, false, fuel);
            var eb := LTokens(sb, Tokens(b), lvars, false, fuel);
            LTokens(sb, Tokens(StripTailText(m, b)), lvars, false, fuel)
            == CatE(Ok([NextWordEv]), CatE(Ok([OpenStripEv]), CatE(em, CatE(Ok([CloseStripEv]), CatE(Ok([NextWordEv]), eb)))))
  {
    TokensStripTail(m, b);
    var tb := Tokens(b);
    var tm := Tokens(m);
    LTokenBlank(sb, " ", lvars, fuel);
    LTokenOpen(sb, lvars, fuel);
    LTokenClose(sb, lvars, fuel);
    LTokensOne(sb, " ", lvars, false, fuel);
    LTokensOne(sb, "$(", lvars, false, fuel);
    LTokensOne(sb, "$)", lvars, false, fuel);
    LTokensSplit(sb, [" "], tb, lvars, false, fuel);
    LTokensSplit(sb, ["$)"], [" "] + tb, lvars, false, fuel);
    LTokensSplit(sb, tm, ["$)"] + ([" "] + tb), lvars, false, fuel);
    LTokensSplit(sb, ["$("], tm + (["$)"] + ([" "] + tb)), lvars, false, fuel);
    LTokensSplit(sb, [" "], ["$("] + (tm + (["$)"] + ([" "] + tb))), lvars, false, fuel);
  }

  /** The events around a strip: start a word, open the strip, those of
      its text, close it, start a word, those of what follows. */
  lemma StripChain(mode: Mode, st: ListState, em: seq<Event>, eb: seq<Event>)
    requires mode != Raw
    ensures var s3 := ApplyAll(mode, st.(append := AddNew, inStrip := true), em);
            ApplyAll(mode, st, [NextWordEv] + ([OpenStripEv] + (em + ([CloseStripEv] + ([NextWordEv] + eb)))))
            == ApplyAll(mode, s3.(append := AddNew, inStrip := false), eb)
  {
    var s1 := st.(append := AddNew);
    var s2 := s1.(inStrip := true);
    var s3 := ApplyAll(mode, s2, em);
    var s4 := s3.(inStrip := false);
    ApplyFirst(mode, s4, NextWordEv, eb);
    ApplyFirst(mode, s3, CloseStripEv, [NextWordEv] + eb);
    ApplyAllConcat(mode, s2, em, [CloseStripEv] + ([NextWordEv] + eb));
    ApplyFirst(mode, s1, OpenStripEv, em + ([CloseStripEv] + ([NextWordEv] + eb)));
    ApplyFirst(mode, st, NextWordEv, [OpenStripEv] + (em + ([CloseStripEv] + ([NextWordEv] + eb))));
  }

  /** The state after ` $(m$) b`: in SIG mode the words of m are dropped,
      in CMD mode they are kept. */
  lemma StripTail(sb: Subber, m: string, b: string, lvars: Vars, fuel: nat, st: ListState)
    requires sb.mode != Raw && !st.inStrip
    requires Plain(m) && Plain(b)
    requires b == [] || !IsSpace(b[0])
    ensures LTokens(sb, Tokens(StripTailText(m, b)), lvars, false, fuel).Ok?
    ensures ApplyAll(sb.mode, st, LTokens(sb, Tokens(StripTailText(m, b)), lvars, false, fuel).value).data
         == AddWords(st.data, (if sb.mode == Sig then [] else Split(m)) + Split(b))
  {
    var mode := sb.mode;
    StripTailEvents(sb, m, b, lvars, fuel);
    var s2 := st.(append := AddNew, inStrip := true);
    var kept: seq<string>;
    if mode == Sig {
      DroppedWords(sb, m, lvars, fuel, s2);
      kept := [];
      AddWordsNone(st.data);
    } else {
      PlainWords(sb, m, lvars, fuel, s2);
      kept := Split(m);
    }
    var em := LTokens(sb, Tokens(m), lvars, false, fuel).value;
    var s3 := ApplyAll(mode, s2, em);
    assert s3.data == AddWords(st.data, kept);
    var s5 := s3.(append := AddNew, inStrip := false);
    PlainWords(sb, b, lvars, fuel, s5);
    var eb := LTokens(sb, Tokens(b), lvars, false, fuel).value;
    StripChain(mode, st, em, eb);
    AddWordsConcat(st.data, kept, Split(b));
  }

  /** What `$( m $)` between two pieces of text leaves: in SIG mode the
      words of m are dropped, in CMD mode they are kept (the markers are
      not words in either). */
  lemma StripMarkers(mode: Mode, a: string, m: string, b: string, gvars: Vars, lvars: Vars,
                     target: seq<Value>, source: seq<Value>,
                     ev: (string, Vars, Vars) -> EvalOutcome,
                     call: (string, bool) -> CallOutcome, fuel: nat)
    requires mode != Raw
    requires Plain(a) && Plain(m) && Plain(b)
    requires a == [] || !IsSpace(a[|a| - 1])
    requires b == [] || !IsSpace(b[0])
    ensures SconsSubstList(mode, Str(a + " $(" + m + "$) " + b), gvars, lvars, target, source, ev, call, fuel)
         == Ok([Words(Split(a) + (if mode == Sig then [] else Split(m)) + Split(b))])
  {
    var sb := Subber(mode, gvars, target, ev, call);
    var lv := lvars + SubstDict(target, source);
    var s := a + StripTailText(m, b);
    StripText(a, m, b);
    StripEvents(sb, a, m, b, lv, fuel);
    ListResult(mode, Str(s), gvars, lvars, target, source, ev, call, fuel, LTokens(sb, Tokens(s), lv, false, fuel).value);
  }

  lemma StripEvents(sb: Subber, a: string, m: string, b: string, lvars: Vars, fuel: nat)
    requires sb.mode != Raw
    requires Plain(a) && Plain(m) && Plain(b)
    requires a == [] || !IsSpace(a[|a| - 1])
    requires b == [] || !IsSpace(b[0])
    ensures LTokens(sb, Tokens(a + StripTailText(m, b)), lvars, false, fuel).Ok?
    ensures ApplyAll(sb.mode, InitState(), LTokens(sb, Tokens(a + StripTailText(m, b)), lvars, false, fuel).value).data
         == [Words(Split(a) + (if sb.mode == Sig then [] else Split(m)) + Split(b))]
  {
    var mode := sb.mode;
    var tail := StripTailText(m, b);
    StripTailNested(m, b);
    assert tail[0] == ' ';
    TokensAppend(a, tail);
    LTokensSplit(sb, Tokens(a), Tokens(tail), lvars, false, fuel);
    PlainWords(sb, a, lvars, fuel, InitState());
    var ea := LTokens(sb, Tokens(a), lvars, false, fuel).value;
    var st1 := ApplyAll(mode, InitState(), ea);
    AddWordsInit(Split(a));
    StripTail(sb, m, b, lvars, fuel, st1);
    ApplyAllConcat(mode, InitState(), ea, LTokens(sb, Tokens(tail), lvars, false, fuel).value);
    var kept := (if mode == Sig then [] else Split(m)) + Split(b);
    AddWordsConcat(InitState().data, Split(a), kept);
    AddWordsInit(Split(a) + kept);
    SeqAssoc(Split(a), if mode == Sig then [] else Split(m), Split(b));
  }
}
