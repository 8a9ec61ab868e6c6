/** The dictionary side of SCons.Environment: the construction-variable
    dictionary of a SubstitutionEnvironment with its special-cased names,
    MergeFlags, AppendUnique and PrependUnique, the filtering of reserved
    names, and the two-layer OverrideEnvironment.  Which names are valid
    (SCons.Util.is_valid_construction_var) is a parameter of the
    environment. */
module Environment {
  import opened Errors
  import opened Strings
  import opened Values
  import opened Seqs
  import opened EnvMerge
  import EnvFlags

  /** reserved_construction_var_names */
  const Reserved: set<string> := {"TARGET", "TARGETS", "SOURCE", "SOURCES"}

  /** A keyword dictionary, as the items it yields in iteration order. */
  type Items = seq<(string, Value)>

  /** copy_non_reserved_keywords: the items without the reserved names
      (values are immutable here, so the deep copy is the identity). */
  function CopyNonReserved(kw: Items): (r: Items)
    ensures forall i :: 0 <= i < |r| ==> r[i] in kw && r[i].0 !in Reserved
    ensures forall i :: 0 <= i < |kw| && kw[i].0 !in Reserved ==> kw[i] in r
  {
    if kw == [] then []
    else if kw[0].0 in Reserved then CopyNonReserved(kw[1..])
    else [kw[0]] + CopyNonReserved(kw[1..])
  }

  /** Filtering twice is filtering once. */
  lemma {:induction false} CopyNonReservedIdempotent(kw: Items)
    ensures CopyNonReserved(CopyNonReserved(kw)) == CopyNonReserved(kw)
    decreases |kw|
  {
    if kw != [] {
      CopyNonReservedIdempotent(kw[1..]);
      if kw[0].0 !in Reserved {
        var r := [kw[0]] + CopyNonReserved(kw[1..]);
        assert r[0] == kw[0] && r[1..] == CopyNonReserved(kw[1..]);
      }
    }
  }

  /** The message of the UserError for a name the validity test rejects. */
  function IllegalVariable(key: string): Error
  {
    UserError("Illegal construction variable `" + key + "'")
  }

  /** The dictionary after an assignment and the exception it raised. */
  datatype Stored = Stored(dict: map<string, Value>, err: Option<Error>)

  /** _set_BUILDERS as written: with no BUILDERS entry yet it passes kwbd,
      a name bound in no enclosing scope, to BuilderDict. */
  function SetBuildersAsWritten(d: map<string, Value>, value: Value): (r: Stored)
  {
    if "BUILDERS" !in d then Stored(d, Some(NameError("kwbd")))
    else SetBuilders(d, value)
  }

  /** _set_BUILDERS starting from an empty builder dictionary when there is
      none: the existing dictionary is emptied (keys), then filled from
      value (items).  Each of the two steps fails on a non-dictionary. */
  function SetBuilders(d: map<string, Value>, value: Value): (r: Stored)
    ensures r.err.None? <==> value.Dict? && ("BUILDERS" in d ==> d["BUILDERS"].Dict?)
    ensures r.err.None? ==> r.dict == d["BUILDERS" := value]
    ensures forall k :: k in d && k != "BUILDERS" ==> k in r.dict && r.dict[k] == d[k]
    ensures r.dict.Keys <= d.Keys + {"BUILDERS"}
  {
    var existing := if "BUILDERS" in d then d["BUILDERS"] else Dict(map[]);
    if !existing.Dict? then Stored(d, Some(AttributeError("keys")))
    else if !value.Dict? then Stored(d["BUILDERS" := Dict(map[])], Some(AttributeError("items")))
    else Stored(d["BUILDERS" := value], None)
  }

  /** SubstitutionEnvironment.__setitem__: a reserved name is ignored (with
      a warning), BUILDERS and SCANNERS have their own handlers, any other
      name must pass the validity test. */
  function Store(d: map<string, Value>, key: string, value: Value, valid: string -> bool): (r: Stored)
    ensures forall k :: k in d && k != key ==> k in r.dict && r.dict[k] == d[k]
    ensures r.dict.Keys <= d.Keys + {key}
    ensures key in Reserved ==> r == Stored(d, None)
    ensures r.dict != d ==> key !in Reserved && (key == "BUILDERS" || key == "SCANNERS" || valid(key))
    ensures key !in Reserved && key != "BUILDERS" ==>
      (r.err.None? <==> key == "SCANNERS" || valid(key)) &&
      (r.err.None? ==> r.dict == d[key := value]) &&
      (r.err.Some? ==> r == Stored(d, Some(IllegalVariable(key))))
  {
    if key in Reserved then Stored(d, None)
    else if key == "BUILDERS" then SetBuilders(d, value)
    else if key == "SCANNERS" then Stored(d[key := value], None)
    else if !valid(key) then Stored(d, Some(IllegalVariable(key)))
    else Stored(d[key := value], None)
  }

  /** Python's `a + b` on the values AppendUnique combines. */
  function Add(a: Value, b: Value): (r: Result<Value>)
  {
    match (a, b)
    case (Str(x), Str(y)) => Ok(Str(x + y))
    case (Int(x), Int(y)) => Ok(Int(x + y))
    case (Lst(x), Lst(y)) => Ok(Lst(x + y))
    case (Tup(x), Tup(y)) => Ok(Tup(x + y))
    case _ => Err(TypeError("unsupported operand type(s) for +"))
  }

  /** The new value AppendUnique (front false) or PrependUnique (front
      true) stores for a key whose old value is orig, when orig is neither
      '' nor None. */
  function UniqueValue(orig: Value, val: Value, front: bool): (r: Result<Value>)
  {
    if orig.Dict? && val.Dict? then Ok(Dict(orig.entries + val.entries))
    else if val.Lst? then
      var dk := if orig.Lst? then orig.items else [orig];
      var added := Without(val.items, dk);
      Ok(Lst(if front then added + dk else dk + added))
    else if orig.Lst? then
      if val in orig.items then Ok(orig)
      else Ok(Lst(if front then [val] + orig.items else orig.items + [val]))
    else if front then Add(val, orig)
    else Add(orig, val)
  }

  /** The value stored under key: a missing, '' or None old value is
      replaced outright. */
  function UniqueEntry(d: map<string, Value>, key: string, val: Value, front: bool): (r: Result<Value>)
  {
    if key !in d || d[key] == Str("") || d[key] == Null then Ok(val)
    else UniqueValue(d[key], val, front)
  }

  /** The loop of AppendUnique/PrependUnique over the filtered items: the
      first TypeError stops it, with the earlier keys already updated. */
  function UniqueAll(d: map<string, Value>, kw: Items, front: bool): (r: Stored)
    ensures forall k :: k in d ==> k in r.dict
    decreases |kw|
  {
    if kw == [] then Stored(d, None)
    else
      match UniqueEntry(d, kw[0].0, kw[0].1, front)
      case Err(e) => Stored(d, Some(e))
      case Ok(v) => UniqueAll(d[kw[0].0 := v], kw[1..], front)
  }

  /** The length Python's len() gives, or the TypeError of an unsized
      object. */
  function PyLen(v: Value): Result<nat>
  {
    match v
    case Str(s) => Ok(|s|)
    case Lst(items) => Ok(|items|)
    case Tup(items) => Ok(|items|)
    case Dict(entries) => Ok(|entries.Keys|)
    case _ => Err(TypeError("len() of unsized object"))
  }

  /** The elements a `for` loop visits: a string yields its characters.
      A dictionary is reported as not iterable (its keys come in hash
      order, which is not modelled). */
  function Iterate(v: Value): Result<seq<Value>>
  {
    match v
    case Lst(items) => Ok(items)
    case Tup(items) => Ok(items)
    case Str(s) => Ok(seq(|s|, i requires 0 <= i < |s| => Str([s[i]])))
    case _ => Err(TypeError("iteration over non-sequence"))
  }

  /** key[-4:] == 'PATH' */
  predicate KeepsLeftmost(key: string) { PyLast(key, 4) == "PATH" }

  /** The slice test is the suffix test: only names ending in PATH. */
  lemma KeepsLeftmostSuffix(key: string)
    ensures KeepsLeftmost(key) <==> IsSuffix("PATH", key)
  {
    if |key| < 4 {
      assert PyLast(key, 4) == key;
    }
  }

  /** What MergeFlags walks before deduplicating: the new value alone when
      the key is absent, otherwise the old value as a list followed by the
      new list. */
  function Combined(key: string, orig: Option<Value>, value: Value): (r: Result<seq<Value>>)
  {
    match orig
    case None =>
      if KeepsLeftmost(key) then Iterate(value)
      else if value.Lst? then Ok(value.items)
      else Err(AttributeError("reverse"))
    case Some(o) =>
      match PyLen(o)
      case Err(e) => Err(e)
      case Ok(n) =>
        var base := if n == 0 then [] else if o.Lst? then o.items else [o];
        if value.Lst? then Ok(base + value.items)
        else Err(TypeError("can only concatenate list to list"))
  }

  /** The deduplicated list MergeFlags stores. */
  function Deduped(key: string, s: seq<Value>): seq<Value>
  {
    if KeepsLeftmost(key) then KeepFirst(s) else KeepLast(s)
  }

  /** One item of MergeFlags: '' is skipped, anything else is combined,
      deduplicated and stored through __setitem__. */
  function MergeOne(d: map<string, Value>, key: string, value: Value, valid: string -> bool): (r: Stored)
  {
    if value == Str("") then Stored(d, None)
    else
      match Combined(key, if key in d then Some(d[key]) else None, value)
      case Err(e) => Stored(d, Some(e))
      case Ok(orig) => Store(d, key, Lst(Deduped(key, orig)), valid)
  }

  /** The MergeFlags loop over the keys in iteration order. */
  function MergeAll(d: map<string, Value>, src: map<string, Value>, keys: seq<string>, valid: string -> bool): (r: Stored)
    requires forall i :: 0 <= i < |keys| ==> keys[i] in src
    decreases |keys|
  {
    if keys == [] then Stored(d, None)
    else
      var s := MergeOne(d, keys[0], src[keys[0]], valid);
      if s.err.Some? then s else MergeAll(s.dict, src, keys[1..], valid)
  }

  /** The dictionary of lists ParseFlags returns, as values. */
  function FlagValues(f: EnvFlags.Flags): map<string, Value>
  {
    map k | k in f :: Lst(f[k])
  }

  /** A dictionary argument is merged as it is; anything else goes through
      ParseFlags first.  keys is the order in which items() yields the
      keys. */
  function MergeFlagsResult(d: map<string, Value>, args: Value, keys: seq<string>,
                            backtick: string -> string, file: string -> Value, valid: string -> bool): Stored
    requires args.Dict? ==> forall i :: 0 <= i < |keys| ==> keys[i] in args.entries
    requires !args.Dict? ==> forall i :: 0 <= i < |keys| ==> keys[i] in EnvFlags.FlagKeys
  {
    if args.Dict? then MergeAll(d, args.entries, keys, valid)
    else
      match EnvFlags.ParseItems(EnvFlags.NoFlags(), [args], backtick, file)
      case Err(e) => Stored(d, Some(e))
      case Ok(f) => MergeAll(d, FlagValues(f), keys, valid)
  }

  /** AppendUnique with a list: the old list stays in front, in its order;
      what follows is exactly the new elements that were not there, in
      their order; nothing new is missing; and duplicate-free inputs give a
      duplicate-free list. */
  lemma AppendUniqueList(dk: seq<Value>, vs: seq<Value>)
    ensures var r := UniqueValue(Lst(dk), Lst(vs), false);
      r == Ok(Lst(dk + Without(vs, dk))) &&
      (forall x :: x in vs ==> x in r.value.items) &&
      (NoDup(dk) && NoDup(vs) ==> NoDup(r.value.items))
  {
    var added := Without(vs, dk);
    var r := dk + added;
    forall x | x in vs ensures x in r {
      if x !in dk { assert x in added; }
    }
    if NoDup(dk) && NoDup(vs) {
      WithoutNoDup(vs, dk);
      DisjointConcat(dk, added);
    }
  }

  /** PrependUnique with a list: the new elements not yet there go in
      front, the old list follows unchanged. */
  lemma PrependUniqueList(dk: seq<Value>, vs: seq<Value>)
    ensures var r := UniqueValue(Lst(dk), Lst(vs), true);
      r == Ok(Lst(Without(vs, dk) + dk)) &&
      (forall x :: x in vs ==> x in r.value.items) &&
      (NoDup(dk) && NoDup(vs) ==> NoDup(r.value.items))
  {
    var added := Without(vs, dk);
    var r := added + dk;
    forall x | x in vs ensures x in r {
      if x !in dk { assert x in added; }
    }
    if NoDup(dk) && NoDup(vs) {
      WithoutNoDup(vs, dk);
      DisjointConcat(added, dk);
    }
  }

  /** Two duplicate-free lists with no common element concatenate to a
      duplicate-free list. */
  lemma DisjointConcat<T>(a: seq<T>, b: seq<T>)
    requires NoDup(a) && NoDup(b) && forall i :: 0 <= i < |b| ==> b[i] !in a
    ensures NoDup(a + b)
  {
    var s := a + b;
    forall i, j | 0 <= i < j < |s| ensures s[i] != s[j] {
      if j >= |a| && i < |a| {
        assert s[j] == b[j - |a|] && s[i] == a[i];
      } else if j >= |a| {
        assert s[i] == b[i - |a|] && s[j] == b[j - |a|];
      }
    }
  }

  /** Adding the same list a second time changes nothing: AppendUnique
      and PrependUnique are idempotent for list values. */
  lemma UniqueEntryIdempotent(d: map<string, Value>, key: string, vs: seq<Value>, front: bool)
    requires UniqueEntry(d, key, Lst(vs), front).Ok?
    ensures var r := UniqueEntry(d, key, Lst(vs), front).value;
      UniqueEntry(d[key := r], key, Lst(vs), front) == Ok(r)
  {
    var r := UniqueEntry(d, key, Lst(vs), front).value;
    if key !in d || d[key] == Str("") || d[key] == Null {
      UniqueListAgain(vs, vs, front);
    } else {
      var dk := if d[key].Lst? then d[key].items else [d[key]];
      var added := Without(vs, dk);
      assert r.items == if front then added + dk else dk + added;
      forall i | 0 <= i < |vs| ensures vs[i] in r.items {
        if vs[i] !in dk {
          assert vs[i] in added;
        }
      }
      UniqueListAgain(r.items, vs, front);
    }
  }

  /** A list value that already holds every new element is kept as it is. */
  lemma UniqueListAgain(items: seq<Value>, vs: seq<Value>, front: bool)
    requires forall i :: 0 <= i < |vs| ==> vs[i] in items
    ensures UniqueValue(Lst(items), Lst(vs), front) == Ok(Lst(items))
  {
    WithoutCovered(vs, items);
    assert items + [] == items && [] + items == items;
  }

  /** A key that no item names keeps its entry, or its absence, through
      the AppendUnique/PrependUnique loop. */
  lemma {:induction false} UniqueAllFrame(d: map<string, Value>, kw: Items, front: bool, k: string)
    requires forall i :: 0 <= i < |kw| ==> kw[i].0 != k
    ensures var r := UniqueAll(d, kw, front).dict;
      (k in r <==> k in d) && (k in d ==> r[k] == d[k])
    decreases |kw|
  {
    if kw != [] {
      var v := UniqueEntry(d, kw[0].0, kw[0].1, front);
      if v.Ok? {
        UniqueAllFrame(d[kw[0].0 := v.value], kw[1..], front, k);
      }
    }
  }

  /** So a reserved name is never touched by AppendUnique or
      PrependUnique. */
  lemma ReservedUntouched(d: map<string, Value>, kw: Items, front: bool, k: string)
    requires k in Reserved
    ensures var r := UniqueAll(d, CopyNonReserved(kw), front).dict;
      (k in r <==> k in d) && (k in d ==> r[k] == d[k])
  {
    UniqueAllFrame(d, CopyNonReserved(kw), front, k);
  }

  /** MergeFlags stores a list without duplicates that holds every element
      of what it walked. */
  lemma DedupedElems(key: string, s: seq<Value>)
    ensures NoDup(Deduped(key, s)) && Elems(Deduped(key, s)) == Elems(s)
  {
    KeepFirstElems(s);
    KeepLastElems(s);
  }

  /** Merging a duplicate-free list into an ordinary variable holding a
      non-empty duplicate-free list: for a PATH variable the old entries
      stay in place and only the new ones are appended; for any other the
      merged values move to the end. */
  lemma MergeIntoList(d: map<string, Value>, key: string, o: seq<Value>, v: seq<Value>, valid: string -> bool)
    requires key in d && d[key] == Lst(o) && o != [] && NoDup(o) && NoDup(v)
    requires key !in Reserved && key != "BUILDERS" && (key == "SCANNERS" || valid(key))
    ensures KeepsLeftmost(key) ==> MergeOne(d, key, Lst(v), valid) == Stored(d[key := Lst(o + Without(v, o))], None)
    ensures !KeepsLeftmost(key) ==> MergeOne(d, key, Lst(v), valid) == Stored(d[key := Lst(Without(o, v) + v)], None)
  {
    assert Combined(key, Some(Lst(o)), Lst(v)) == Ok(o + v);
    if KeepsLeftmost(key) {
      MergePath(o, v);
    } else {
      MergeOther(o, v);
    }
  }

  /** A variable not set yet takes the new list deduplicated: for a PATH
      variable the first copy of each element, for any other the last. */
  lemma MergeIntoAbsent(d: map<string, Value>, key: string, v: seq<Value>, valid: string -> bool)
    requires key !in d && key !in Reserved && key != "BUILDERS" && (key == "SCANNERS" || valid(key))
    ensures MergeOne(d, key, Lst(v), valid) == Stored(d[key := Lst(Deduped(key, v))], None)
    ensures NoDup(Deduped(key, v)) && Elems(Deduped(key, v)) == Elems(v)
  {
    DedupedElems(key, v);
  }

  /** _set_BUILDERS on a dictionary without BUILDERS: as written it raises
      NameError; with an empty builder dictionary to start from, the new
      builders are stored. */
  lemma BuildersWithoutEntry(d: map<string, Value>, builders: map<string, Value>)
    requires "BUILDERS" !in d
    ensures SetBuildersAsWritten(d, Dict(builders)) == Stored(d, Some(NameError("kwbd")))
    ensures SetBuilders(d, Dict(builders)) == Stored(d["BUILDERS" := Dict(builders)], None)
  {
  }

  /** A SubstitutionEnvironment: its dictionary of construction
      variables. */
  class Env {
    var dict: map<string, Value>
    const validVar: string -> bool

    constructor (kw: map<string, Value>, validVar: string -> bool)
      ensures dict == kw && this.validVar == validVar
    {
      dict := kw;
      this.validVar := validVar;
    }

    /** __getitem__ */
    function GetItem(key: string): (r: Result<Value>)
      reads this
      ensures r.Ok? ==> key in dict && r.value == dict[key]
      ensures r.Err? ==> key !in dict && r.error == KeyError(key)
    {
      if key in dict then Ok(dict[key]) else Err(KeyError(key))
    }

    /** get: the default where the key is missing. */
    function Get(key: string, default: Value): (r: Value)
      reads this
      ensures GetItem(key).Ok? ==> r == GetItem(key).value
      ensures GetItem(key).Err? ==> r == default
    {
      if key in dict then dict[key] else default
    }

    predicate HasKey(key: string)
      reads this
      ensures HasKey(key) <==> GetItem(key).Ok?
    {
      key in dict
    }

    /** __delitem__ */
    method DelItem(key: string) returns (err: Option<Error>)
      modifies this
      ensures key in old(dict) ==> dict == old(dict) - {key} && err.None?
      ensures key !in old(dict) ==> dict == old(dict) && err == Some(KeyError(key))
    {
      if key !in dict {
        return Some(KeyError(key));
      }
      dict := dict - {key};
      err := None;
    }

    /** __setitem__ with its dispatch table of special names. */
    method SetItem(key: string, value: Value) returns (err: Option<Error>)
      modifies this
      ensures dict == Store(old(dict), key, value, validVar).dict
      ensures err == Store(old(dict), key, value, validVar).err
    {
      if key in Reserved {
        return None;
      }
      if key == "BUILDERS" {
        if "BUILDERS" in dict && !dict["BUILDERS"].Dict? {
          return Some(AttributeError("keys"));
        }
        dict := dict["BUILDERS" := Dict(map[])];
        if !value.Dict? {
          return Some(AttributeError("items"));
        }
        dict := dict["BUILDERS" := value];
        return None;
      }
      if key == "SCANNERS" {
        dict := dict[key := value];
        return None;
      }
      if !validVar(key) {
        return Some(IllegalVariable(key));
      }
      dict := dict[key := value];
      err := None;
    }

    /** MergeFlags with unique set. */
    method MergeFlags(args: Value, keys: seq<string>, backtick: string -> string, file: string -> Value)
      returns (err: Option<Error>)
      requires NoDup(keys)
      requires args.Dict? ==> Elems(keys) == args.entries.Keys
      requires !args.Dict? ==> Elems(keys) == EnvFlags.FlagKeys
      modifies this
      ensures var s := MergeFlagsResult(old(dict), args, keys, backtick, file, validVar);
        dict == s.dict && err == s.err
    {
      var src: map<string, Value>;
      if args.Dict? {
        src := args.entries;
      } else {
        var parsed := EnvFlags.ParseFlags([args], backtick, file);
        if parsed.Err? {
          return Some(parsed.error);
        }
        src := FlagValues(parsed.value);
      }
      assert forall i :: 0 <= i < |keys| ==> keys[i] in src by {
        forall i | 0 <= i < |keys| ensures keys[i] in src { assert keys[i] in Elems(keys); }
      }
      err := MergeLoop(src, keys);
    }

    /** The MergeFlags loop over the keys in iteration order. */
    method MergeLoop(src: map<string, Value>, keys: seq<string>) returns (err: Option<Error>)
      requires forall i :: 0 <= i < |keys| ==> keys[i] in src
      modifies this
      ensures var s := MergeAll(old(dict), src, keys, validVar); dict == s.dict && err == s.err
    {
      ghost var goal := MergeAll(dict, src, keys, validVar);
      var i := 0;
      while i < |keys|
        invariant 0 <= i <= |keys|
        invariant MergeAll(dict, src, keys[i..], validVar) == goal
      {
        assert keys[i..][0] == keys[i] && keys[i..][1..] == keys[i + 1..];
        err := MergeKey(keys[i], src[keys[i]]);
        if err.Some? {
          return;
        }
        i := i + 1;
      }
      err := None;
    }

    /** One item of the MergeFlags loop. */
    method MergeKey(key: string, value: Value) returns (err: Option<Error>)
      modifies this
      ensures var s := MergeOne(old(dict), key, value, validVar); dict == s.dict && err == s.err
    {
      if value == Str("") {
        return None;
      }
      var c := Combined(key, if key in dict then Some(dict[key]) else None, value);
      if c.Err? {
        return Some(c.error);
      }
      var t: seq<Value>;
      if KeepsLeftmost(key) {
        t := LeftmostLoop(c.value);
      } else {
        t := RightmostLoop(c.value);
      }
      err := SetItem(key, Lst(t));
    }

    /** The common loop of AppendUnique and PrependUnique. */
    method AddUnique(kw: Items, front: bool) returns (err: Option<Error>)
      modifies this
      ensures var s := UniqueAll(old(dict), CopyNonReserved(kw), front); dict == s.dict && err == s.err
    {
      var items := CopyNonReserved(kw);
      ghost var goal := UniqueAll(dict, items, front);
      var i := 0;
      while i < |items|
        invariant 0 <= i <= |items|
        invariant UniqueAll(dict, items[i..], front) == goal
      {
        assert items[i..][0] == items[i] && items[i..][1..] == items[i + 1..];
        var (key, val) := items[i];
        var v := UniqueEntry(dict, key, val, front);
        if v.Err? {
          return Some(v.error);
        }
        dict := dict[key := v.value];
        i := i + 1;
      }
      err := None;
    }

    /** AppendUnique */
    method AppendUnique(kw: Items) returns (err: Option<Error>)
      modifies this
      ensures var s := UniqueAll(old(dict), CopyNonReserved(kw), false); dict == s.dict && err == s.err
    {
      err := AddUnique(kw, false);
    }

    /** PrependUnique */
    method PrependUnique(kw: Items) returns (err: Option<Error>)
      modifies this
      ensures var s := UniqueAll(old(dict), CopyNonReserved(kw), true); dict == s.dict && err == s.err
    {
      err := AddUnique(kw, true);
    }
  }

  /** An OverrideEnvironment over a SubstitutionEnvironment: reads look in
      the overrides first, writes go to the overrides only. */
  class OverrideEnv {
    const subject: Env
    var overrides: map<string, Value>

    constructor (subject: Env, overrides: map<string, Value>)
      ensures this.subject == subject && this.overrides == overrides
    {
      this.subject := subject;
      this.overrides := overrides;
    }

    /** Dictionary: the subject's dictionary updated with the overrides. */
    function Dictionary(): (r: map<string, Value>)
      reads this, subject
      ensures r.Keys == subject.dict.Keys + overrides.Keys
      ensures forall k :: k in overrides ==> r[k] == overrides[k]
      ensures forall k :: k in subject.dict && k !in overrides ==> r[k] == subject.dict[k]
    {
      subject.dict + overrides
    }

    /** __getitem__: the overrides layer, then the subject; agrees with
      Dictionary. */
    function GetItem(key: string): (r: Result<Value>)
      reads this, subject
      ensures r.Ok? <==> key in Dictionary()
      ensures r.Ok? ==> r.value == Dictionary()[key]
      ensures r.Err? ==> r.error == KeyError(key)
    {
      if key in overrides then Ok(overrides[key]) else subject.GetItem(key)
    }

    /** get */
    function Get(key: string, default: Value): (r: Value)
      reads this, subject
      ensures key in Dictionary() ==> r == Dictionary()[key]
      ensures key !in Dictionary() ==> r == default
    {
      if key in overrides then overrides[key] else subject.Get(key, default)
    }

    predicate HasKey(key: string)
      reads this, subject
      ensures HasKey(key) <==> key in Dictionary()
    {
      key in overrides || subject.HasKey(key)
    }

    /** __setitem__: only the validity test; reserved and special names
      are stored like any other. */
    method SetItem(key: string, value: Value) returns (err: Option<Error>)
      modifies this
      ensures subject.validVar(key) ==> overrides == old(overrides)[key := value] && err.None?
      ensures !subject.validVar(key) ==> overrides == old(overrides) && err == Some(IllegalVariable(key))
      ensures subject.validVar(key) ==> GetItem(key) == Ok(value)
    {
      if !subject.validVar(key) {
        return Some(IllegalVariable(key));
      }
      overrides := overrides[key := value];
      err := None;
    }

    /** __delitem__: deletes from both layers; KeyError only when neither
      held the key. */
    method DelItem(key: string) returns (err: Option<Error>)
      modifies this, subject
      ensures overrides == old(overrides) - {key}
      ensures subject.dict == old(subject.dict) - {key}
      ensures err.Some? <==> key !in old(overrides) && key !in old(subject.dict)
      ensures err.Some? ==> err.value == KeyError(key)
      ensures key !in Dictionary()
    {
      var deleted := key in overrides;
      overrides := overrides - {key};
      var e := subject.DelItem(key);
      if e.Some? && !deleted {
        return e;
      }
      err := None;
    }
  }
}
