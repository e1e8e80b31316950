/**
 * Runtime values (object/object.js), with the String and Error values that the
 * `len` builtin creates and inspects.
 */
module Object {
  import opened Wrappers
  import opened Strings

  // The `objectType` table
  const INTEGER_OBJ := "INTEGER"
  const BOOLEAN_OBJ := "BOOLEAN"
  const NULL_OBJ := "NULL"
  const RETURN_VALUE_OBJ := "RETURN_VALUE"
  // Kinds object.js does not define; `len` needs them
  const STRING_OBJ := "STRING"
  const ERROR_OBJ := "ERROR"

  datatype Value =
    | Integer(integer: int)
    | Boolean(boolean: bool)
    | Null
    | ReturnValue(wrapped: Value)
    | String(text: string)
    | Error(message: string)

  /** `type()`: the kind tag of a value. */
  function Type(v: Value): string
  {
    match v
    case Integer(_) => INTEGER_OBJ
    case Boolean(_) => BOOLEAN_OBJ
    case Null => NULL_OBJ
    case ReturnValue(_) => RETURN_VALUE_OBJ
    case String(_) => STRING_OBJ
    case Error(_) => ERROR_OBJ
  }

  /** `inspect()`: how a value is shown; a return value shows what it wraps. */
  function Inspect(v: Value): string
  {
    match v
    case Integer(i) => IntToString(i)
    case Boolean(b) => if b then "true" else "false"
    case Null => "null"
    case ReturnValue(w) => Inspect(w)
    case String(s) => s
    case Error(m) => "ERROR: " + m
  }

  /** Both values are of the same kind. */
  predicate SameKind(a: Value, b: Value)
  {
    match (a, b)
    case (Integer(_), Integer(_)) => true
    case (Boolean(_), Boolean(_)) => true
    case (Null, Null) => true
    case (ReturnValue(_), ReturnValue(_)) => true
    case (String(_), String(_)) => true
    case (Error(_), Error(_)) => true
    case _ => false
  }

  /** The type tags are pairwise distinct: two values share a tag exactly when they are of one kind. */
  lemma TypeTagsDistinct(a: Value, b: Value)
    ensures Type(a) == Type(b) <==> SameKind(a, b)
  {
    assert INTEGER_OBJ[0] == 'I' && BOOLEAN_OBJ[0] == 'B' && NULL_OBJ[0] == 'N';
    assert RETURN_VALUE_OBJ[0] == 'R' && STRING_OBJ[0] == 'S' && ERROR_OBJ[0] == 'E';
  }

  /** An integer's inspection is its decimal rendering, which reads back as the integer. */
  lemma InspectInteger(i: int)
    ensures Type(Integer(i)) == "INTEGER"
    ensures ParseInt(Inspect(Integer(i))) == Some(i)
    ensures Inspect(Integer(i))[0] == '-' <==> i < 0
    ensures var s := Inspect(Integer(i)); var d := if i < 0 then s[1..] else s;
      |d| > 0 && AllDigits(d) && (|d| > 1 ==> d[0] != '0')
  {
    IntToStringRoundTrip(i);
  }

  /** A boolean inspects as "true" or "false", according to its value. */
  lemma InspectBoolean(b: bool)
    ensures Type(Boolean(b)) == "BOOLEAN"
    ensures Inspect(Boolean(b)) == "true" <==> b
    ensures Inspect(Boolean(b)) == "false" <==> !b
  {
  }

  lemma InspectNull()
    ensures Type(Null) == "NULL" && Inspect(Null) == "null"
  {
  }

  /** The value under every layer of return-value wrapping. */
  function Innermost(v: Value): (r: Value)
    ensures !r.ReturnValue?
  {
    if v.ReturnValue? then Innermost(v.wrapped) else v
  }

  /** A return value, however deeply nested, inspects as the value it finally wraps. */
  lemma {:induction false} InspectReturnValue(v: Value)
    ensures v.ReturnValue? ==> Type(v) == "RETURN_VALUE"
    ensures Inspect(v) == Inspect(Innermost(v))
  {
    if v.ReturnValue? {
      InspectReturnValue(v.wrapped);
    }
  }
}
