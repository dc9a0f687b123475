/** SQLite column affinities (`Affinity`) and their names in a column declaration. */
module Affinity {

  const NONE: int := 0
  const TEXT: int := 1
  const NUMERIC: int := 2
  const INTEGER: int := 3
  const REAL: int := 4

  /** The five declared affinities. */
  predicate IsAffinity(a: int) {
    a == NONE || a == TEXT || a == NUMERIC || a == INTEGER || a == REAL
  }

  /** The upper-case SQLite names. */
  predicate IsAffinityName(s: string) {
    s == "NONE" || s == "TEXT" || s == "NUMERIC" || s == "INTEGER" || s == "REAL"
  }

  /**
   * `asString`: each affinity by its upper-case name; every other value
   * falls back to "NONE", so the mapping is total.
   */
  function AsString(affinity: int): (r: string)
    ensures IsAffinityName(r)
    ensures !IsAffinity(affinity) ==> r == "NONE"
    ensures r == "NONE" <==> affinity == NONE || !IsAffinity(affinity)
  {
    if affinity == NONE then "NONE"
    else if affinity == INTEGER then "INTEGER"
    else if affinity == NUMERIC then "NUMERIC"
    else if affinity == REAL then "REAL"
    else if affinity == TEXT then "TEXT"
    else "NONE"
  }

  /** The constants are pairwise distinct and each renders as its own name. */
  lemma Names()
    ensures NONE != TEXT && NONE != NUMERIC && NONE != INTEGER && NONE != REAL
    ensures TEXT != NUMERIC && TEXT != INTEGER && TEXT != REAL
    ensures NUMERIC != INTEGER && NUMERIC != REAL && INTEGER != REAL
    ensures AsString(NONE) == "NONE" && AsString(TEXT) == "TEXT" && AsString(NUMERIC) == "NUMERIC"
    ensures AsString(INTEGER) == "INTEGER" && AsString(REAL) == "REAL"
  {
  }

  /** No two affinities share a name. */
  lemma AsStringInjective(a: int, b: int)
    requires IsAffinity(a) && IsAffinity(b) && AsString(a) == AsString(b)
    ensures a == b
  {
  }
}
