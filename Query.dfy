/**
 * Queries (`Select`) and their builder (`Select.Builder`). A select is an
 * immutable value: a table address, an optional projection, a selection with
 * '?' placeholders, its arguments and a sort order. The builder collects
 * clauses and arguments in call order; `build` joins the clauses with " AND ".
 */
module Query {
  import opened Common
  import opened Uris

  datatype Select = Select(
    table: Address,
    projection: Option<seq<string>>,
    selection: Option<string>,
    selectionArgs: Option<seq<string>>,
    sortOrder: Option<string>)

  /** `new Select(table)`: everything but the table is null. */
  function NewSelect(table: Address): (s: Select)
    ensures s.table == table && s.projection.None? && s.selection.None?
    ensures s.selectionArgs.None? && s.sortOrder.None?
  {
    Select(table, None, None, None, None)
  }

  /** The clause `constraintOp` adds: "column op ?". */
  function OpClause(column: string, op: string): string {
    column + " " + op + " ?"
  }

  /** The clause `constraintIsNull` adds. */
  function IsNullClause(column: string): string {
    column + " IS NULL"
  }

  /**
   * The placeholder list of an IN / NOT IN clause for `n` values: one '?'
   * per value, and a single '?' even when there is no value at all.
   */
  function PlaceholderList(n: nat): (r: string)
    ensures CountChar(r, '?') == if n == 0 then 1 else n
    ensures |r| >= 3 && r[..2] == "(?" && r[|r| - 1] == ')'
  {
    var m := if n == 0 then 0 else n - 1;
    CountCharRepeat(",?", m, '?');
    CountCharAppend("(?", Repeat(",?", m), '?');
    CountCharAppend("(?" + Repeat(",?", m), ")", '?');
    "(?" + Repeat(",?", m) + ")"
  }

  /** The clause `selectionConstraintList` adds. */
  function ListClause(column: string, op: string, n: nat): string {
    column + " " + op + " " + PlaceholderList(n)
  }

  /** `group_concat(c)` for every column, in order. */
  function Grouped(columns: seq<string>): (r: seq<string>)
    ensures |r| == |columns|
  {
    seq(|columns|, i requires 0 <= i < |columns| => "group_concat(" + columns[i] + ")")
  }

  /** `String.valueOf` of every long, in order. */
  function Rendered(values: seq<int>): (r: seq<string>)
    ensures |r| == |values|
  {
    seq(|values|, i requires 0 <= i < |values| => IntToString(values[i]))
  }

  /** Placeholders of the whole selection. */
  function Placeholders(clauses: seq<string>): nat {
    CountChar(Join(clauses, " AND "), '?')
  }

  /** One more clause adds exactly its own placeholders: the separator has none. */
  lemma ClauseCount(clauses: seq<string>, clause: string)
    ensures Placeholders(clauses + [clause]) == Placeholders(clauses) + CountChar(clause, '?')
  {
    if |clauses| == 0 {
      assert clauses + [clause] == [clause];
    } else {
      JoinSnoc(clauses, clause, " AND ");
      CountCharAppend(Join(clauses, " AND "), " AND ", '?');
      CountCharAppend(Join(clauses, " AND ") + " AND ", clause, '?');
    }
  }

  lemma OpClauseCount(column: string, op: string)
    requires '?' !in column && '?' !in op
    ensures CountChar(OpClause(column, op), '?') == 1
  {
    CountCharAbsent(column, '?');
    CountCharAbsent(op, '?');
    CountCharAppend(column, " ", '?');
    CountCharAppend(column + " ", op, '?');
    CountCharAppend(column + " " + op, " ?", '?');
  }

  lemma ListClauseCount(column: string, op: string, n: nat)
    requires '?' !in column && '?' !in op
    ensures CountChar(ListClause(column, op, n), '?') == if n == 0 then 1 else n
  {
    CountCharAbsent(column, '?');
    CountCharAbsent(op, '?');
    CountCharAppend(column, " ", '?');
    CountCharAppend(column + " ", op, '?');
    CountCharAppend(column + " " + op, " ", '?');
    CountCharAppend(column + " " + op + " ", PlaceholderList(n), '?');
  }

  lemma {:induction false} CountCharAbsent(s: string, c: char)
    requires c !in s
    ensures CountChar(s, c) == 0
  {
    if |s| > 0 {
      assert s[0] in s;
      assert forall x | x in s[1..] :: x in s;
      CountCharAbsent(s[1..], c);
    }
  }

  class Builder {
    var table: Address
    var projection: Option<seq<string>>
    var selection: seq<string>
    var selectionArgs: seq<string>
    var sortOrder: Option<string>

    /** Every '?' of the clauses has its argument, and every argument its '?'. */
    predicate Balanced()
      reads this
    {
      Placeholders(selection) == |selectionArgs|
    }

    constructor (table: Address)
      ensures this.table == table && projection.None? && sortOrder.None?
      ensures selection == [] && selectionArgs == []
      ensures Balanced()
    {
      this.table := table;
      projection := None;
      selection := [];
      selectionArgs := [];
      sortOrder := None;
    }

    method Projection(columns: seq<string>)
      modifies this`projection
      ensures projection == Some(columns)
    {
      projection := Some(columns);
    }

    /** `groupedProjection`: every column wrapped in `group_concat`, count and order kept. */
    method GroupedProjection(columns: seq<string>)
      modifies this`projection
      ensures projection == Some(Grouped(columns))
    {
      var a := new string[|columns|];
      for i := 0 to |columns|
        modifies a
        invariant forall k | 0 <= k < i :: a[k] == "group_concat(" + columns[k] + ")"
      {
        a[i] := "group_concat(" + columns[i] + ")";
      }
      assert a[..] == Grouped(columns);
      projection := Some(a[..]);
    }

    /** `constraintOp`: the clause "column op ?" and exactly one argument. */
    method ConstraintOp(column: string, op: string, value: string)
      modifies this`selection, this`selectionArgs
      ensures selection == old(selection) + [OpClause(column, op)]
      ensures selectionArgs == old(selectionArgs) + [value]
      ensures old(Balanced()) && '?' !in column && '?' !in op ==> Balanced()
    {
      if '?' !in column && '?' !in op {
        ClauseCount(selection, OpClause(column, op));
        OpClauseCount(column, op);
      }
      selection := selection + [OpClause(column, op)];
      selectionArgs := selectionArgs + [value];
    }

    method ConstraintEquals(column: string, value: string)
      modifies this`selection, this`selectionArgs
      ensures selection == old(selection) + [OpClause(column, "=")]
      ensures selectionArgs == old(selectionArgs) + [value]
      ensures old(Balanced()) && '?' !in column ==> Balanced()
    {
      ConstraintOp(column, "=", value);
    }

    method ConstraintIs(column: string, value: string)
      modifies this`selection, this`selectionArgs
      ensures selection == old(selection) + [OpClause(column, "IS")]
      ensures selectionArgs == old(selectionArgs) + [value]
      ensures old(Balanced()) && '?' !in column ==> Balanced()
    {
      ConstraintOp(column, "IS", value);
    }

    /** `constraintIsNull`: a clause without placeholder and no argument. */
    method ConstraintIsNull(column: string)
      modifies this`selection
      ensures selection == old(selection) + [IsNullClause(column)]
      ensures old(Balanced()) && '?' !in column ==> Balanced()
    {
      if '?' !in column {
        ClauseCount(selection, IsNullClause(column));
        CountCharAbsent(column, '?');
        CountCharAppend(column, " IS NULL", '?');
      }
      selection := selection + [IsNullClause(column)];
    }

    /** `selectionConstraintList`: builds "(?" + ",?" per further value + ")". */
    method SelectionConstraintList(column: string, op: string, length: nat)
      modifies this`selection
      ensures selection == old(selection) + [ListClause(column, op, length)]
    {
      var exp := "(?";
      var i := 0;
      while i < length - 1
        invariant 0 <= i && (length >= 1 ==> i <= length - 1) && (length == 0 ==> i == 0)
        invariant exp == "(?" + Repeat(",?", i)
        invariant selection == old(selection)
      {
        RepeatSnoc(",?", i);
        exp := exp + ",?";
        i := i + 1;
      }
      assert i == if length == 0 then 0 else length - 1;
      exp := exp + ")";
      assert exp == PlaceholderList(length);
      selection := selection + [column + " " + op + " " + exp];
    }

    method AppendArgs(values: seq<string>)
      modifies this`selectionArgs
      ensures selectionArgs == old(selectionArgs) + values
    {
      for i := 0 to |values|
        invariant selectionArgs == old(selectionArgs) + values[..i]
      {
        assert values[..i + 1] == values[..i] + [values[i]];
        selectionArgs := selectionArgs + [values[i]];
      }
    }

    /**
     * `constraintIn` / `constraintNotIn` (`op` is "IN" or "NOT IN"): one
     * placeholder list and the values in order. A non-empty list keeps the
     * placeholders balanced; an empty one still emits "(?)" with no argument.
     */
    method ConstraintList(column: string, op: string, values: seq<string>)
      modifies this`selection, this`selectionArgs
      ensures selection == old(selection) + [ListClause(column, op, |values|)]
      ensures selectionArgs == old(selectionArgs) + values
      ensures old(Balanced()) && '?' !in column && '?' !in op && |values| > 0 ==> Balanced()
      ensures old(Balanced()) && '?' !in column && '?' !in op && |values| == 0 ==>
        Placeholders(selection) == |selectionArgs| + 1
    {
      if '?' !in column && '?' !in op {
        ClauseCount(selection, ListClause(column, op, |values|));
        ListClauseCount(column, op, |values|);
      }
      SelectionConstraintList(column, op, |values|);
      AppendArgs(values);
    }

    method ConstraintIn(column: string, values: seq<string>)
      modifies this`selection, this`selectionArgs
      ensures selection == old(selection) + [ListClause(column, "IN", |values|)]
      ensures selectionArgs == old(selectionArgs) + values
      ensures old(Balanced()) && '?' !in column && |values| > 0 ==> Balanced()
    {
      ConstraintList(column, "IN", values);
    }

    method ConstraintNotIn(column: string, values: seq<string>)
      modifies this`selection, this`selectionArgs
      ensures selection == old(selection) + [ListClause(column, "NOT IN", |values|)]
      ensures selectionArgs == old(selectionArgs) + values
      ensures old(Balanced()) && '?' !in column && |values| > 0 ==> Balanced()
    {
      ConstraintList(column, "NOT IN", values);
    }

    /** `constraintIn(String, long...)`: the values rendered with `String.valueOf`. */
    method ConstraintInLongs(column: string, values: seq<int>)
      modifies this`selection, this`selectionArgs
      ensures selection == old(selection) + [ListClause(column, "IN", |values|)]
      ensures selectionArgs == old(selectionArgs) + Rendered(values)
      ensures old(Balanced()) && '?' !in column && |values| > 0 ==> Balanced()
    {
      var rendered := new string[|values|];
      for i := 0 to |values|
        modifies rendered
        invariant forall k | 0 <= k < i :: rendered[k] == IntToString(values[k])
      {
        rendered[i] := IntToString(values[i]);
      }
      assert rendered[..] == Rendered(values);
      ConstraintList(column, "IN", rendered[..]);
    }

    /** `sort(String...)`: the columns separated by ", ". */
    method SortColumns(columns: seq<string>)
      modifies this`sortOrder
      ensures sortOrder == Some(Join(columns, ", "))
    {
      sortOrder := Some(Join(columns, ", "));
    }

    method Sort(order: string)
      modifies this`sortOrder
      ensures sortOrder == Some(order)
    {
      sortOrder := Some(order);
    }

    /** `groupBy`: a "gby" parameter on the table address, which the provider reads back. */
    method GroupBy(column: string)
      modifies this`table
      ensures table == AppendQueryParameter(old(table), QUERY_KEY_GROUP_BY, column)
      ensures old(QueryParameter(table, QUERY_KEY_GROUP_BY)).None? ==>
        QueryParameter(table, QUERY_KEY_GROUP_BY) == Some(column)
    {
      AppendedParameterFound(table, QUERY_KEY_GROUP_BY, column, QUERY_KEY_NOTIFY);
      table := AppendQueryParameter(table, QUERY_KEY_GROUP_BY, column);
    }

    /**
     * `build`: the clauses joined by " AND " in call order, the arguments in
     * call order; a balanced builder yields a selection with exactly one '?'
     * per argument.
     */
    method Build() returns (s: Select)
      ensures s.table == table && s.projection == projection && s.sortOrder == sortOrder
      ensures s.selection == Some(Join(selection, " AND ")) && s.selectionArgs == Some(selectionArgs)
      ensures Balanced() ==> CountChar(s.selection.value, '?') == |s.selectionArgs.value|
    {
      s := Select(table, projection, Some(Join(selection, " AND ")), Some(selectionArgs), sortOrder);
    }
  }
}
