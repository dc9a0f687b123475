/**
 * Database views (`View` and its three variants): a raw SQL view, a
 * single SELECT over joined tables, and a UNION of other views. Each has a
 * name, the names of the tables and views it reads, and a SELECT statement.
 */
module Views {
  import opened Common

  /** A column of a single-select view (`ViewColumn`). */
  datatype ViewColumn = ViewColumn(name: string, alias: Option<string>, aggregation: Option<string>)

  /** A joined table of a single-select view (`Dependency`). */
  datatype Dependency = Dependency(table: string, tableAlias: Option<string>, columnLeft: string, columnRight: string, join: string)

  datatype View =
    | SqlView(name: string, statement: string, dependencies: seq<string>)
    | SingleSelectView(name: string, columns: seq<ViewColumn>, joins: seq<Dependency>, suffix: string)
    | UnionView(name: string, parts: seq<View>)

  // ---------------------------------------------------------------------
  // Columns of a single select

  /** The three-argument constructor: an empty or missing name becomes the literal "NULL". */
  function NewViewColumn(name: Option<string>, alias: Option<string>, aggregation: Option<string>): (c: ViewColumn)
    ensures c.name == (if IsEmpty(name) then "NULL" else name.value)
    ensures |c.name| > 0
    ensures c.alias == alias && c.aggregation == aggregation
  {
    ViewColumn(if IsEmpty(name) then "NULL" else name.value, alias, aggregation)
  }

  /** The two-argument constructor: no aggregation. */
  function NewPlainColumn(name: Option<string>, alias: Option<string>): (c: ViewColumn)
    ensures c == NewViewColumn(name, alias, None)
  {
    NewViewColumn(name, alias, None)
  }

  /** `ViewColumn.NULL`. */
  const NULL_COLUMN: ViewColumn := NewViewColumn(None, None, None)

  /** `aggregate`: "agg(x)" for a non-empty aggregation, otherwise x alone. */
  function Aggregate(c: ViewColumn, x: string): (r: string)
    ensures !IsEmpty(c.aggregation) ==> r == c.aggregation.value + "(" + x + ")"
    ensures IsEmpty(c.aggregation) ==> r == x
    ensures r == x <==> IsEmpty(c.aggregation)
  {
    if !IsEmpty(c.aggregation) then c.aggregation.value + "(" + x + ")" else x
  }

  /**
   * `ViewColumn.toString`: with a non-empty alias, the aggregated alias
   * followed by " AS " and the name; otherwise the aggregated name (empty
   * only for a name the constructor did not build).
   */
  function RenderColumn(c: ViewColumn): (r: string)
    ensures !IsEmpty(c.alias) ==> r == Aggregate(c, c.alias.value) + " AS " + c.name
    ensures IsEmpty(c.alias) && |c.name| > 0 ==> r == Aggregate(c, c.name)
  {
    if !IsEmpty(c.alias) then Aggregate(c, c.alias.value) + " AS " + c.name
    else if |c.name| > 0 then Aggregate(c, c.name)
    else ""
  }

  lemma NullColumnRendering()
    ensures RenderColumn(NULL_COLUMN) == "NULL"
  {
  }

  // ---------------------------------------------------------------------
  // Joined tables

  /** The five-argument constructor. */
  function NewDependency(table: string, tableAlias: Option<string>, left: string, right: string, join: string): Dependency {
    Dependency(table, tableAlias, left, right, join)
  }

  /** The four- and three-argument constructors: a LEFT JOIN, by default without alias. */
  function NewLeftJoin(table: string, tableAlias: Option<string>, left: string, right: string): (d: Dependency)
    ensures d.join == "LEFT JOIN" && d.table == table && d.tableAlias == tableAlias
    ensures d.columnLeft == left && d.columnRight == right
  {
    NewDependency(table, tableAlias, left, right, "LEFT JOIN")
  }

  function NewSimpleJoin(table: string, left: string, right: string): (d: Dependency)
    ensures d == NewLeftJoin(table, None, left, right)
  {
    NewLeftJoin(table, None, left, right)
  }

  /** `appendTo`: " join table[ alias] ON left = right"; a present alias is written even when empty. */
  function JoinClause(d: Dependency): (r: string)
    ensures d.tableAlias.None? ==> r == " " + d.join + " " + d.table + " ON " + d.columnLeft + " = " + d.columnRight
    ensures d.tableAlias.Some? ==>
      r == " " + d.join + " " + d.table + " " + d.tableAlias.value + " ON " + d.columnLeft + " = " + d.columnRight
  {
    " " + d.join + " " + d.table + (if d.tableAlias.Some? then " " + d.tableAlias.value else "")
    + " ON " + d.columnLeft + " = " + d.columnRight
  }

  /** The join clauses of the dependencies after the first, in order. */
  function JoinClauses(ds: seq<Dependency>): string {
    if |ds| == 0 then "" else JoinClauses(ds[..|ds| - 1]) + JoinClause(ds[|ds| - 1])
  }

  function ColumnList(cs: seq<ViewColumn>): string {
    Join(seq(|cs|, i requires 0 <= i < |cs| => RenderColumn(cs[i])), ", ")
  }

  /**
   * `SingleSelectView.getSqlSelectStatement`: "SELECT cols FROM first" then
   * the join clause of each later dependency, then the suffix. The first
   * dependency's join information is never read; a view without
   * dependencies fails on the iterator's `next()`.
   */
  function SingleSelectStatement(columns: seq<ViewColumn>, joins: seq<Dependency>, suffix: string): Result<string> {
    if |joins| == 0 then Err(NoSuchElement)
    else Ok("SELECT " + ColumnList(columns) + " FROM " + joins[0].table + JoinClauses(joins[1..]) + suffix)
  }

  // ---------------------------------------------------------------------
  // Views

  /** `getDependencies`: the names of the tables and views a view reads, in order. */
  function Dependencies(v: View): seq<string>
    decreases v
  {
    match v
    case SqlView(_, _, deps) => deps
    case SingleSelectView(_, _, joins, _) => seq(|joins|, i requires 0 <= i < |joins| => joins[i].table)
    case UnionView(_, parts) => PartDependencies(v, parts)
  }

  /** The parts' dependencies, concatenated in order (`ConcatenatedIterator`). */
  function PartDependencies(v: View, parts: seq<View>): seq<string>
    requires forall p | p in parts :: p < v
    decreases v, |parts|
  {
    if |parts| == 0 then []
    else
      assert parts[0] in parts && forall p | p in parts[1..] :: p in parts;
      Dependencies(parts[0]) + PartDependencies(v, parts[1..])
  }

  /** `getSqlSelectStatement`, for all three variants; a union joins its parts' statements with " UNION ". */
  function SelectStatement(v: View): Result<string>
    decreases v
  {
    match v
    case SqlView(_, statement, _) => Ok(statement)
    case SingleSelectView(_, columns, joins, suffix) => SingleSelectStatement(columns, joins, suffix)
    case UnionView(_, parts) => PartStatements(v, parts)
  }

  function PartStatements(v: View, parts: seq<View>): Result<string>
    requires forall p | p in parts :: p < v
    decreases v, |parts|
  {
    if |parts| == 0 then Ok("")
    else
      assert parts[0] in parts && forall p | p in parts[1..] :: p in parts;
      match SelectStatement(parts[0])
      case Err(e) => Err(e)
      case Ok(first) =>
        if |parts| == 1 then Ok(first)
        else
          match PartStatements(v, parts[1..])
          case Err(e) => Err(e)
          case Ok(rest) => Ok(first + " UNION " + rest)
  }

  /** `View.create`: exactly one statement, "CREATE VIEW name AS select". */
  function CreateStatement(v: View): (r: Result<string>)
    ensures r.Ok? <==> SelectStatement(v).Ok?
    ensures r.Ok? ==> r.value == "CREATE VIEW " + v.name + " AS " + SelectStatement(v).value
  {
    match SelectStatement(v)
    case Err(e) => Err(e)
    case Ok(s) => Ok("CREATE VIEW " + v.name + " AS " + s)
  }

  /** `getView`: the first view with the given name. */
  function FindView(views: seq<View>, name: string): (r: Option<View>)
    ensures r.Some? <==> exists k | 0 <= k < |views| :: views[k].name == name
    ensures r.Some? ==> r.value in views && r.value.name == name
  {
    if |views| == 0 then None
    else if views[0].name == name then Some(views[0])
    else
      var r := FindView(views[1..], name);
      assert forall x | x in views[1..] :: x in views;
      r
  }

  /** The view found is the first of that name: every earlier view has another name. */
  lemma {:induction false} FindViewFirst(views: seq<View>, name: string) returns (k: nat)
    requires FindView(views, name).Some?
    ensures k < |views| && views[k] == FindView(views, name).value
    ensures forall i | 0 <= i < k :: views[i].name != name
  {
    if views[0].name == name {
      k := 0;
    } else {
      var k' := FindViewFirst(views[1..], name);
      k := k' + 1;
    }
  }

  /** The loop of `getSqlSelectStatement`: the first dependency's table, then each later one's join clause. */
  method BuildSingleSelect(columns: seq<ViewColumn>, joins: seq<Dependency>, suffix: string) returns (r: Result<string>)
    ensures r == SingleSelectStatement(columns, joins, suffix)
  {
    if |joins| == 0 {
      return Err(NoSuchElement);
    }
    var s := "SELECT " + ColumnList(columns) + " FROM " + joins[0].table;
    ghost var head := s;
    var k := 1;
    while k < |joins|
      invariant 1 <= k <= |joins|
      invariant s == head + JoinClauses(joins[1..k])
    {
      JoinClausesSnoc(joins, k);
      AppendAssoc(head, JoinClauses(joins[1..k]), JoinClause(joins[k]));
      s := s + JoinClause(joins[k]);
      k := k + 1;
    }
    assert joins[1..k] == joins[1..];
    r := Ok(s + suffix);
  }

  lemma JoinClausesSnoc(joins: seq<Dependency>, k: nat)
    requires 1 <= k < |joins|
    ensures JoinClauses(joins[1..k + 1]) == JoinClauses(joins[1..k]) + JoinClause(joins[k])
  {
    assert joins[1..k + 1][..k - 1] == joins[1..k];
  }

  /**
   * A single select is well formed exactly when it has a dependency; its text
   * starts with "SELECT " and ends with the suffix, and the first dependency
   * contributes only its table name.
   */
  lemma SingleSelectShape(columns: seq<ViewColumn>, joins: seq<Dependency>, suffix: string)
    ensures SingleSelectStatement(columns, joins, suffix).Ok? <==> |joins| > 0
    ensures var r := SingleSelectStatement(columns, joins, suffix);
      r.Ok? ==> && |r.value| >= 7 + |suffix|
                && r.value[..7] == "SELECT "
                && r.value[|r.value| - |suffix|..] == suffix
  {
  }

  /** Changing anything of the first dependency but its table leaves the statement as it was. */
  lemma FirstJoinUnused(columns: seq<ViewColumn>, joins: seq<Dependency>, suffix: string, d: Dependency)
    requires |joins| > 0 && d.table == joins[0].table
    ensures SingleSelectStatement(columns, [d] + joins[1..], suffix) == SingleSelectStatement(columns, joins, suffix)
  {
    assert ([d] + joins[1..])[1..] == joins[1..];
  }

  /** A union of one part renders exactly that part's statement. */
  lemma OnePartUnion(name: string, part: View)
    ensures SelectStatement(UnionView(name, [part])) == SelectStatement(part)
  {
    var v := UnionView(name, [part]);
    assert PartStatements(v, [part]) == SelectStatement(part);
  }

  /** A union reads exactly what its parts read. */
  lemma {:induction false} PartDependenciesMembers(v: View, parts: seq<View>, d: string)
    requires forall p | p in parts :: p < v
    ensures d in PartDependencies(v, parts) <==> exists p | p in parts :: d in Dependencies(p)
    decreases |parts|
  {
    if |parts| > 0 {
      assert forall p | p in parts[1..] :: p in parts;
      PartDependenciesMembers(v, parts[1..], d);
      assert PartDependencies(v, parts) == Dependencies(parts[0]) + PartDependencies(v, parts[1..]);
      assert forall p | p in parts :: p == parts[0] || p in parts[1..];
      if d in Dependencies(parts[0]) {
        assert parts[0] in parts;
      }
    }
  }

  lemma UnionDependencies(name: string, parts: seq<View>, d: string)
    ensures d in Dependencies(UnionView(name, parts)) <==> exists p | p in parts :: d in Dependencies(p)
  {
    PartDependenciesMembers(UnionView(name, parts), parts, d);
  }

  /** A union's statement fails exactly when one of its parts' statements fails. */
  lemma {:induction false} PartStatementsOk(v: View, parts: seq<View>)
    requires forall p | p in parts :: p < v
    ensures PartStatements(v, parts).Ok? <==> forall p | p in parts :: SelectStatement(p).Ok?
    decreases |parts|
  {
    if |parts| > 0 {
      assert forall p | p in parts[1..] :: p in parts;
      PartStatementsOk(v, parts[1..]);
      assert forall p | p in parts :: p == parts[0] || p in parts[1..];
      assert parts[0] in parts;
      if |parts| == 1 {
        assert parts[1..] == [];
      }
    }
  }
}
