/** The tokens of SCons.Subst: `_separate_args` splits a string into
    dollar expressions (`$$`, `$(`, `$)`, `$name` with dots and word
    characters, `${...}` up to the first `}`), whitespace runs, runs of
    other text without `$`, and lone `$` signs.  `_dollar_exps.sub`
    rewrites exactly the dollar-expression tokens of this split and copies
    the rest, so both are modelled by the one tokenizer. */
module SubstLex {
  import opened Strings

  /** `[_a-zA-Z]` */
  predicate IsVarStart(c: char)
  {
    c == '_' || ('a' <= c <= 'z') || ('A' <= c <= 'Z')
  }

  /** `[\.\w]` without the UNICODE flag */
  predicate IsNameChar(c: char)
  {
    IsVarStart(c) || IsDigit(c) || c == '.'
  }

  predicate IsTextChar(c: char)
  {
    c != '$' && !IsSpace(c)
  }

  /** Length of the leading run of characters satisfying the class. */
  function NameRun(s: string): (n: nat)
    ensures n <= |s|
    ensures forall i :: 0 <= i < n ==> IsNameChar(s[i])
    ensures n < |s| ==> !IsNameChar(s[n])
  {
    if s == [] || !IsNameChar(s[0]) then 0 else 1 + NameRun(s[1..])
  }

  function SpaceRun(s: string): (n: nat)
    ensures n <= |s|
    ensures forall i :: 0 <= i < n ==> IsSpace(s[i])
    ensures n < |s| ==> !IsSpace(s[n])
  {
    if s == [] || !IsSpace(s[0]) then 0 else 1 + SpaceRun(s[1..])
  }

  function TextRun(s: string): (n: nat)
    ensures n <= |s|
    ensures forall i :: 0 <= i < n ==> IsTextChar(s[i])
    ensures n < |s| ==> !IsTextChar(s[n])
  {
    if s == [] || !IsTextChar(s[0]) then 0 else 1 + TextRun(s[1..])
  }

  /** Length of the `_dollar_exps_str` match at the start of s, 0 if none. */
  function DollarLen(s: string): (n: nat)
    ensures n == 0 || 2 <= n <= |s|
    ensures n > 0 ==> s[0] == '$'
    ensures n > 0 && (s[1] == '$' || s[1] == '(' || s[1] == ')') ==> n == 2
    ensures n > 0 && IsVarStart(s[1]) ==> forall i :: 2 <= i < n ==> IsNameChar(s[i])
    ensures n > 0 && s[1] == '{' ==> s[n - 1] == '}' && '}' !in s[2..n - 1]
  {
    if |s| < 2 || s[0] != '$' then 0
    else if s[1] == '$' || s[1] == '(' || s[1] == ')' then 2
    else if IsVarStart(s[1]) then 2 + NameRun(s[2..])
    else if s[1] == '{' && '}' in s[2..] then 3 + IndexOf(s[2..], '}')
    else 0
  }

  /** Length of the next `_separate_args` token of a non-empty string. */
  function TokenLen(s: string): (n: nat)
    requires s != []
    ensures 1 <= n <= |s|
  {
    if s[0] == '$' then (if DollarLen(s) > 0 then DollarLen(s) else 1)
    else if IsSpace(s[0]) then SpaceRun(s)
    else TextRun(s)
  }

  function Concat(ts: seq<string>): string
  {
    if ts == [] then [] else ts[0] + Concat(ts[1..])
  }

  /** `_separate_args.findall(s)`: non-empty tokens that put back together
      give s. */
  function Tokens(s: string): (r: seq<string>)
    ensures forall i :: 0 <= i < |r| ==> r[i] != []
    decreases |s|
  {
    if s == [] then []
    else
      var n := TokenLen(s);
      [s[..n]] + Tokens(s[n..])
  }

  /** The tokens put back together give the string. */
  lemma {:induction false} TokensConcat(s: string)
    ensures Concat(Tokens(s)) == s
    decreases |s|
  {
    if s != [] {
      var n := TokenLen(s);
      TokensConcat(s[n..]);
      var r := Tokens(s);
      assert r[0] == s[..n] && r[1..] == Tokens(s[n..]);
      assert s == s[..n] + s[n..];
    }
  }

  /** A token `_dollar_exps` matches: it starts with `$` and is longer than
      a lone `$`. */
  predicate IsDollarToken(t: string)
  {
    |t| >= 2 && t[0] == '$'
  }

  /** A token of whitespace. */
  predicate IsSpaceToken(t: string)
  {
    t != [] && IsSpace(t[0])
  }

  /** A dollar expression, a whitespace run, a text run or a lone `$`. */
  predicate TokenShape(t: string)
  {
    (IsDollarToken(t) && DollarLen(t) == |t|) ||
    (IsSpaceToken(t) && forall j :: 0 <= j < |t| ==> IsSpace(t[j])) ||
    (forall j :: 0 <= j < |t| ==> IsTextChar(t[j])) ||
    t == "$"
  }

  /** The first token of a non-empty string has one of the four shapes. */
  lemma FirstTokenShape(s: string)
    requires s != []
    ensures TokenShape(s[..TokenLen(s)])
  {
    var n := TokenLen(s);
    var t := s[..n];
    if s[0] == '$' && DollarLen(s) > 0 {
      DollarLenPrefix(s, n);
    } else if s[0] == '$' {
      assert t == "$";
    } else if IsSpace(s[0]) {
      assert IsSpaceToken(t);
    }
  }

  /** Each token is a dollar expression, a whitespace run, a text run or a
      lone `$`; whitespace runs contain nothing but whitespace. */
  lemma {:induction false} TokenKinds(s: string)
    ensures forall i :: 0 <= i < |Tokens(s)| ==> TokenShape(Tokens(s)[i])
    decreases |s|
  {
    if s != [] {
      var n := TokenLen(s);
      TokenKinds(s[n..]);
      FirstTokenShape(s);
      assert Tokens(s) == [s[..n]] + Tokens(s[n..]);
    }
  }

  /** A dollar expression is still one when the rest of the string is cut
      off after it. */
  lemma DollarLenPrefix(s: string, n: nat)
    requires n == DollarLen(s) && n > 0
    ensures DollarLen(s[..n]) == n
  {
    var t := s[..n];
    if IsVarStart(s[1]) && !(s[1] == '$' || s[1] == '(' || s[1] == ')') {
      NameRunPrefix(s[2..], n - 2);
      assert t[2..] == s[2..][..n - 2];
    } else if s[1] == '{' && !IsVarStart(s[1]) {
      assert t[2..] == s[2..n];
      assert '}' in t[2..] by { assert t[2..][n - 3] == '}'; }
      assert IndexOf(t[2..], '}') == n - 3 by {
        IndexOfPrefix(s[2..], n - 2);
        assert t[2..] == s[2..][..n - 2];
      }
    }
  }

  lemma NameRunPrefix(s: string, n: nat)
    requires n == NameRun(s)
    ensures NameRun(s[..n]) == n
    decreases |s|
  {
    if n > 0 {
      NameRunPrefix(s[1..], n - 1);
      assert s[..n][1..] == s[1..][..n - 1];
    }
  }

  lemma IndexOfPrefix(s: string, n: nat)
    requires '}' in s && n == IndexOf(s, '}') + 1
    ensures '}' in s[..n] && IndexOf(s[..n], '}') == n - 1
    decreases |s|
  {
    assert s[..n][n - 1] == '}';
    if s[0] != '}' {
      IndexOfPrefix(s[1..], n - 1);
      assert s[..n][1..] == s[1..][..n - 1];
    }
  }

  /** A string without `$` has no dollar-expression token. */
  lemma {:induction false} TokensNoDollar(s: string)
    requires '$' !in s
    ensures forall i :: 0 <= i < |Tokens(s)| ==> '$' !in Tokens(s)[i]
    decreases |s|
  {
    if s != [] {
      var n := TokenLen(s);
      NotInDrop('$', s, n);
      TokensNoDollar(s[n..]);
      assert Tokens(s) == [s[..n]] + Tokens(s[n..]);
    }
  }
}
