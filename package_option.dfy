/** SCons.Options.PackageOption: an option that is yes, no or a path.  The
    converter reads the yes/no words and passes any other text through; the
    validator searches for the package when asked to and otherwise requires
    the path to exist.  The file system test is a parameter. */
module PackageOption {
  import opened Errors
  import opened Strings
  import opened Values
  import BoolOption
  import Environment

  /** str(True) is "1" and str(False) is "0": True and False are the ints of
      BoolOption. */
  const EnableStrings: seq<string> := ["1", "yes", "true", "on", "enable", "search"]
  const DisableStrings: seq<string> := ["0", "no", "false", "off", "disable"]

  /** _converter: an enable word is True, a disable word False, in any
      case; any other text is kept as it is, without an error. */
  function Convert(val: string): (r: Value)
    ensures r == Int(BoolOption.True) <==> ToLower(val) in EnableStrings
    ensures r == Int(BoolOption.False) <==> ToLower(val) in DisableStrings
    ensures ToLower(val) !in EnableStrings && ToLower(val) !in DisableStrings ==> r == Str(val)
  {
    var lval := ToLower(val);
    if lval in EnableStrings then Int(BoolOption.True)
    else if lval in DisableStrings then Int(BoolOption.False)
    else Str(val)
  }

  /** The words that both option kinds read agree; enable, search and
      disable belong to package options only. */
  lemma SharedWordsAgree(w: string)
    ensures w in ["1", "yes", "true", "on"] ==> Convert(w) == Int(1) && BoolOption.TextToBool(w) == Ok(1)
    ensures w in ["0", "no", "false", "off"] ==> Convert(w) == Int(0) && BoolOption.TextToBool(w) == Ok(0)
    ensures w in ["enable", "search", "disable"] ==> Convert(w).Int? && BoolOption.TextToBool(w).Err?
  {
    if w in ["1", "yes", "true", "on", "0", "no", "false", "off", "enable", "search", "disable"] {
      assert ToLower(w) == w;
    }
  }

  /** A converted truth value, written out as str() does, reads back as
      itself. */
  lemma ConvertRoundTrip(val: string)
    requires Convert(val).Int?
    ensures Convert(ToString(Convert(val))) == Convert(val)
  {
    if Convert(val) == Int(1) {
      assert ToString(Int(1)) == "1" && ToLower("1") == "1";
    } else {
      assert ToString(Int(0)) == "0" && ToLower("0") == "0";
    }
  }

  const NoPath: string := "Path does not exist for option "

  /** _validator on the environment dictionary: False is accepted; True
      is replaced by what searchfunc finds, when there is one; any other
      value must name an existing path. */
  function Validated(d: map<string, Value>, key: string, val: string,
                     searchfunc: Option<(string, string) -> Value>, pathExists: string -> bool,
                     valid: string -> bool): (r: Environment.Stored)
    ensures key !in d ==> r == Environment.Stored(d, Some(KeyError(key)))
    ensures key in d && d[key] == Int(BoolOption.False) ==> r == Environment.Stored(d, None)
    ensures key in d && d[key] == Int(BoolOption.True) && searchfunc.None? ==> r == Environment.Stored(d, None)
    ensures key in d && d[key] == Int(BoolOption.True) && searchfunc.Some? ==>
      r == Environment.Store(d, key, searchfunc.value(key, val), valid)
    ensures key in d && d[key] != Int(BoolOption.False) && d[key] != Int(BoolOption.True) ==>
      r.dict == d && (r.err == None <==> pathExists(val)) &&
      (r.err.Some? ==> r.err.value == UserError(NoPath + key + ": " + val))
  {
    if key !in d then Environment.Stored(d, Some(KeyError(key)))
    else if d[key] == Int(BoolOption.False) then Environment.Stored(d, None)
    else if d[key] == Int(BoolOption.True) then
      if searchfunc.Some? then Environment.Store(d, key, searchfunc.value(key, val), valid)
      else Environment.Stored(d, None)
    else if !pathExists(val) then Environment.Stored(d, Some(UserError(NoPath + key + ": " + val)))
    else Environment.Stored(d, None)
  }

  /** _validator, called with the environment the option is stored in. */
  method Validate(key: string, val: string, env: Environment.Env,
                  searchfunc: Option<(string, string) -> Value>, pathExists: string -> bool)
    returns (err: Option<Error>)
    modifies env
    ensures var s := Validated(old(env.dict), key, val, searchfunc, pathExists, env.validVar);
      env.dict == s.dict && err == s.err
  {
    var current := env.GetItem(key);
    if current.Err? {
      return Some(current.error);
    }
    if current.value == Int(BoolOption.False) {
      err := None;
    } else if current.value == Int(BoolOption.True) {
      if searchfunc.Some? {
        err := env.SetItem(key, searchfunc.value(key, val));
      } else {
        err := None;
      }
    } else if !pathExists(val) {
      err := Some(UserError(NoPath + key + ": " + val));
    } else {
      err := None;
    }
  }

  /** A yes or no answer stored by the converter is accepted as it is,
      without looking at the file system, unless a search is asked for. */
  lemma ConvertedAnswerValidates(d: map<string, Value>, key: string, val: string, pathExists: string -> bool,
                                 valid: string -> bool)
    requires Convert(val).Int?
    ensures Validated(d[key := Convert(val)], key, val, None, pathExists, valid) ==
            Environment.Stored(d[key := Convert(val)], None)
  {
  }

  /** A path answer is accepted exactly when the path exists, and the
      environment is left as it is. */
  lemma PathAnswerValidates(d: map<string, Value>, key: string, val: string,
                            searchfunc: Option<(string, string) -> Value>, pathExists: string -> bool,
                            valid: string -> bool)
    requires Convert(val).Str?
    ensures var r := Validated(d[key := Convert(val)], key, val, searchfunc, pathExists, valid);
      r.dict == d[key := Str(val)] && (r.err == None <==> pathExists(val))
  {
  }

  /** What PackageOption hands to Options.Add; the validator carries the
      search function. */
  datatype PackageValidator = PackageValidator(searchfunc: Option<(string, string) -> Value>)
  datatype PackageConverter = PackageConverter

  const HelpSep: string := "\n    "

  /** PackageOption(key, help, default, searchfunc): the help text gains a
      line listing the accepted answers. */
  function MakePackageOption(key: string, help: string, default: Value, searchfunc: Option<(string, string) -> Value>)
    : (r: BoolOption.OptionTuple<PackageValidator, PackageConverter>)
    ensures r.key == key && r.default == default && r.validator.searchfunc == searchfunc
    ensures r.help == help + HelpSep + "( yes | no | /path/to/" + key + " )"
  {
    var parts := [help, "( yes | no | /path/to/" + key + " )"];
    assert parts[1..] == [parts[1]];
    assert Join([parts[1]], HelpSep) == parts[1];
    var h := Join(parts, HelpSep);
    assert h == help + HelpSep + parts[1];
    BoolOption.OptionTuple(key, h, default, PackageValidator(searchfunc), PackageConverter)
  }
}
