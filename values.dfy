/** The Python values that flow through construction variables: what
    substitution expands and what the Environment methods store. */
module Values {
  import opened Strings

  /** A construction-variable value.  Obj stands for any other object (a
      Node or its substitution proxy, a Literal, a SpecialAttrWrapper):
      `str` is str(x), `forsig` what x.for_signature() returns, and
      `literal` whether x.is_literal() is true. */
  datatype Value =
    | Str(s: string)
    | Int(i: int)
    | Lst(items: seq<Value>)
    | Tup(items: seq<Value>)
    | Dict(entries: map<string, Value>)
    | Null
    | Func(name: string)
    | Obj(str: string, forsig: string, literal: bool)

  /** SCons.Util.is_List: a list or a UserList. */
  predicate IsList(v: Value) { v.Lst? }

  /** is_List(v) or is_Tuple(v) */
  predicate IsSequence(v: Value) { v.Lst? || v.Tup? }

  /** A size measure used for termination of the substitution functions. */
  function Size(v: Value): (n: nat)
    ensures n >= 1
  {
    match v
    case Lst(items) => 1 + SizeSeq(items)
    case Tup(items) => 1 + SizeSeq(items)
    case _ => 1
  }

  function SizeSeq(items: seq<Value>): (n: nat)
    ensures forall i :: 0 <= i < |items| ==> Size(items[i]) <= n
    ensures items != [] ==> n == Size(items[0]) + SizeSeq(items[1..])
  {
    if items == [] then 0 else Size(items[0]) + SizeSeq(items[1..])
  }

  /** str(v), as SCons.Util.to_String computes it.  Containers are shown
      with their elements separated by ", " (Python's repr of the elements
      is not modelled). */
  function ToString(v: Value): string
    decreases Size(v), 0
  {
    match v
    case Str(s) => s
    case Int(i) => IntToString(i)
    case Lst(items) => "[" + JoinStr(items) + "]"
    case Tup(items) => "(" + JoinStr(items) + ")"
    case Dict(_) => "{...}"
    case Null => "None"
    case Func(name) => "<function " + name + ">"
    case Obj(str, _, _) => str
  }

  function JoinStr(items: seq<Value>): string
    decreases SizeSeq(items), 1
  {
    if items == [] then ""
    else if |items| == 1 then ToString(items[0])
    else ToString(items[0]) + ", " + JoinStr(items[1..])
  }

  /** SCons.Util.to_String_for_signature: x.for_signature() when x has one,
      otherwise str(x). */
  function ToStringForSignature(v: Value): string
  {
    if v.Obj? then v.forsig else ToString(v)
  }
}
