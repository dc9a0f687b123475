/** Column types (`Type`): the `ContentValues` flavour of a column, plus the delegate kinds. */
module Types {

  const BOOLEAN: int := 0
  const INT: int := 2
  const LONG: int := 3
  const STRING: int := 5
  const DOUBLE: int := 7
  /** A column that is not stored in the table but names a related one. */
  const DELEGATE: int := 8
  const DELEGATE_PARENT_ID: int := 9
  const DELEGATE_CHILD_ID: int := 10

  /** The six types `asString` names. */
  predicate IsNamedType(t: int) {
    t == BOOLEAN || t == INT || t == LONG || t == STRING || t == DOUBLE || t == DELEGATE
  }

  /**
   * `asString`: the Java spelling of the six named types; the two delegate
   * id kinds and every other value give "unkown" (the source's spelling).
   */
  function AsString(t: int): (r: string)
    ensures |r| > 0
    ensures r == "unkown" <==> !IsNamedType(t)
  {
    if t == BOOLEAN then "boolean"
    else if t == INT then "int"
    else if t == LONG then "long"
    else if t == STRING then "String"
    else if t == DOUBLE then "double"
    else if t == DELEGATE then "delegate"
    else "unkown"
  }

  lemma Names()
    ensures BOOLEAN != INT && BOOLEAN != LONG && BOOLEAN != STRING && BOOLEAN != DOUBLE
    ensures INT != LONG && INT != STRING && INT != DOUBLE && LONG != STRING && LONG != DOUBLE && STRING != DOUBLE
    ensures DELEGATE != DELEGATE_PARENT_ID && DELEGATE != DELEGATE_CHILD_ID && DELEGATE_PARENT_ID != DELEGATE_CHILD_ID
    ensures !IsNamedType(DELEGATE_PARENT_ID) && !IsNamedType(DELEGATE_CHILD_ID)
    ensures AsString(BOOLEAN) == "boolean" && AsString(INT) == "int" && AsString(LONG) == "long"
    ensures AsString(STRING) == "String" && AsString(DOUBLE) == "double" && AsString(DELEGATE) == "delegate"
  {
  }

  /** The six names are distinct. */
  lemma AsStringInjective(a: int, b: int)
    requires IsNamedType(a) && IsNamedType(b) && AsString(a) == AsString(b)
    ensures a == b
  {
  }
}
