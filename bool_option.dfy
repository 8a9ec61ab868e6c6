/** SCons.Options.BoolOption: an option whose text value is read as a
    truth value, with a converter, a validator and the option tuple that
    declares it. */
module BoolOption {
  import opened Errors
  import opened Strings
  import opened Values

  /** Python-version-independent truth values of the module. */
  const True: int := 1
  const False: int := 0

  const TrueStrings: seq<string> := ["y", "yes", "true", "t", "1", "on", "all"]
  const FalseStrings: seq<string> := ["n", "no", "false", "f", "0", "off", "none"]

  /** The tuple handed to Options.Add: key, help text, default, validator,
      converter.  The two functions are named by tags. */
  datatype OptionTuple<V, C> = OptionTuple(key: string, help: string, default: Value, validator: V, converter: C)

  datatype Validator = BoolValidator
  datatype Converter = TextToBoolConverter

  /** _text2bool: the lower-cased text decides; anything outside both
      lists is a ValueError naming the original text. */
  function TextToBool(val: string): (r: Result<int>)
    ensures r.Ok? <==> ToLower(val) in TrueStrings || ToLower(val) in FalseStrings
    ensures r.Ok? ==> (r.value == True <==> ToLower(val) in TrueStrings)
    ensures r.Ok? ==> (r.value == False <==> ToLower(val) in FalseStrings)
    ensures r.Err? ==> r.error == ValueError("Invalid value for boolean option: " + val)
  {
    var lval := ToLower(val);
    if lval in TrueStrings then Ok(True)
    else if lval in FalseStrings then Ok(False)
    else Err(ValueError("Invalid value for boolean option: " + val))
  }

  /** _validator: env[key] must be True or False; a missing key is the
      KeyError of the environment lookup. */
  function Validate(key: string, val: string, env: map<string, Value>): (r: Option<Error>)
    ensures key !in env ==> r == Some(KeyError(key))
    ensures key in env ==> (r == None <==> env[key] == Int(True) || env[key] == Int(False))
    ensures key in env && r.Some? ==>
      r.value == UserError("Invalid value for boolean option " + key + ": " + ToString(env[key]))
  {
    if key !in env then Some(KeyError(key))
    else if env[key] == Int(True) || env[key] == Int(False) then None
    else Some(UserError("Invalid value for boolean option " + key + ": " + ToString(env[key])))
  }

  /** BoolOption(key, help, default) */
  function MakeBoolOption(key: string, help: string, default: Value): (r: OptionTuple<Validator, Converter>)
    ensures r.key == key && r.default == default
    ensures IsPrefix(help, r.help) && r.help[|help|..] == " (yes|no)"
  {
    OptionTuple(key, help + " (yes|no)", default, BoolValidator, TextToBoolConverter)
  }

  /** No text is both true and false. */
  lemma StringListsDisjoint()
    ensures forall s :: s in TrueStrings ==> s !in FalseStrings
  {
  }

  /** Case does not matter: a text and its lower-case form convert alike. */
  lemma {:induction false} TextToBoolIgnoresCase(val: string)
    ensures TextToBool(ToLower(val)).Ok? == TextToBool(val).Ok?
    ensures TextToBool(val).Ok? ==> TextToBool(ToLower(val)) == TextToBool(val)
  {
    ToLowerIdempotent(val);
  }

  /** The upper-case spelling of an accepted text is accepted with the same
      value ("YES", "On", ...). */
  lemma {:induction false} TextToBoolUpperCase(val: string)
    requires TextToBool(val).Ok?
    ensures TextToBool(ToUpper(val)) == TextToBool(val)
  {
    assert ToLower(ToUpper(val)) == ToLower(val) by {
      forall i | 0 <= i < |val| ensures ToLower(ToUpper(val))[i] == ToLower(val)[i] {
        var c := val[i];
        assert LowerChar(UpperChar(c)) == LowerChar(c);
      }
    }
  }

  /** Whatever the converter produces, the validator accepts once it is
      stored under the option's key. */
  lemma ConvertedValuesValidate(key: string, val: string, env: map<string, Value>)
    requires TextToBool(val).Ok?
    ensures Validate(key, val, env[key := Int(TextToBool(val).value)]) == None
  {
  }

  /** The value's own text ("1" or "0", as saved to an options file) reads
      back as the same value. */
  lemma TextToBoolRoundTrip(val: string)
    requires TextToBool(val).Ok?
    ensures TextToBool(IntToString(TextToBool(val).value)) == TextToBool(val)
  {
    var v := TextToBool(val).value;
    if v == True {
      assert IntToString(v) == "1" && ToLower("1") == "1";
    } else {
      assert IntToString(v) == "0" && ToLower("0") == "0";
    }
  }
}
