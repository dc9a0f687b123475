/**
 * The bridge between a local query and remote api paths (`CollectionFilter`).
 * A static filter carries its api paths; a dynamic one carries a select that
 * yields id rows and a format string with one "%d" per id, and derives its
 * api paths from the rows.
 */
module Filters {
  import opened Common
  import opened Uris
  import opened Query

  /**
   * The table a select reads, standing in for `Select.getTable()`, which the
   * repository calls but does not define: the table segment of the address
   * content://authority/user/table.
   */
  function SelectTable(s: Select): (r: Option<string>)
    ensures r.Some? <==> |s.table.segments| >= 2
  {
    if |s.table.segments| >= 2 then Some(s.table.segments[1]) else None
  }

  // ---------------------------------------------------------------------
  // "%d" placeholders

  predicate IdPatternAt(s: string, k: int) {
    0 <= k && k + 1 < |s| && s[k] == '%' && s[k + 1] == 'd'
  }

  /** Non-overlapping "%d" occurrences, found left to right as `Matcher.find` does. */
  function IdPatterns(s: string): nat {
    if |s| < 2 then 0
    else if IdPatternAt(s, 0) then 1 + IdPatterns(s[2..])
    else IdPatterns(s[1..])
  }

  /** The format string with its "%d" placeholders, left to right, replaced by the ids' decimal forms. */
  function Substitute(fmt: string, ids: seq<int>): string
    requires |ids| == IdPatterns(fmt)
  {
    if |fmt| < 2 then fmt
    else if IdPatternAt(fmt, 0) then IntToString(ids[0]) + Substitute(fmt[2..], ids[1..])
    else [fmt[0]] + Substitute(fmt[1..], ids)
  }

  lemma {:induction false} IdPatternsBound(s: string)
    ensures 2 * IdPatterns(s) <= |s|
  {
    if |s| >= 2 {
      if IdPatternAt(s, 0) { IdPatternsBound(s[2..]); } else { IdPatternsBound(s[1..]); }
    }
  }

  /** There are none exactly when "%d" does not occur at all. */
  lemma {:induction false} IdPatternsNone(s: string)
    ensures IdPatterns(s) == 0 <==> forall k :: !IdPatternAt(s, k)
  {
    if |s| >= 2 && !IdPatternAt(s, 0) {
      IdPatternsNone(s[1..]);
      forall k | IdPatternAt(s[1..], k) ensures IdPatternAt(s, k + 1) { }
      forall k | IdPatternAt(s, k) && k > 0 ensures IdPatternAt(s[1..], k - 1) { }
    }
  }

  /** A string of n placeholders has n of them. */
  lemma {:induction false} IdPatternsRepeat(n: nat)
    ensures IdPatterns(Repeat("%d", n)) == n
  {
    if n > 0 {
      var s := Repeat("%d", n);
      assert s == "%d" + Repeat("%d", n - 1);
      assert IdPatternAt(s, 0);
      assert s[2..] == Repeat("%d", n - 1);
      IdPatternsRepeat(n - 1);
    }
  }

  lemma RepeatHead(n: nat)
    requires n > 0
    ensures IdPatternAt(Repeat("%d", n), 0) && Repeat("%d", n)[2..] == Repeat("%d", n - 1)
  {
    assert Repeat("%d", n) == "%d" + Repeat("%d", n - 1);
  }

  // ---------------------------------------------------------------------
  // `String.format` with long arguments

  /** `s` followed by what formatting the rest gives, or the exception formatting the rest throws. */
  function Prepend(s: string, r: Result<string>): (q: Result<string>)
    ensures q.Ok? <==> r.Ok?
    ensures q.Ok? ==> q.value == s + r.value
    ensures q.Err? ==> q == r
  {
    if r.Ok? then Ok(s + r.value) else r
  }

  /**
   * `String.format(fmt, args)` with long arguments: "%%" is a percent sign,
   * "%n" the line separator, and "%d", "%s" and "%S" the next argument in
   * decimal. Any other specifier, a "%" that ends the string, and a
   * conversion with no argument left throw an `IllegalFormatException`.
   * Arguments beyond the last conversion are ignored.
   */
  function Format(fmt: string, args: seq<int>): Result<string>
    decreases |fmt|
  {
    if |fmt| == 0 then Ok("")
    else if fmt[0] != '%' then Prepend([fmt[0]], Format(fmt[1..], args))
    else if |fmt| == 1 then Err(IllegalFormat)
    else if fmt[1] == '%' then Prepend("%", Format(fmt[2..], args))
    else if fmt[1] == 'n' then Prepend("\n", Format(fmt[2..], args))
    else if fmt[1] in "dsS" then
      if |args| == 0 then Err(IllegalFormat)
      else Prepend(IntToString(args[0]), Format(fmt[2..], args[1..]))
    else Err(IllegalFormat)
  }

  /** A string without a percent sign formats to itself, whatever the arguments. */
  lemma {:induction false} FormatLiteral(fmt: string, args: seq<int>)
    requires '%' !in fmt
    ensures Format(fmt, args) == Ok(fmt)
  {
    if |fmt| > 0 {
      assert fmt[0] in fmt;
      assert fmt == [fmt[0]] + fmt[1..];
      FormatLiteral(fmt[1..], args);
    }
  }

  /** Every percent sign doubled: the format string that prints `s` as it is. */
  function Escape(s: string): string {
    if |s| == 0 then "" else (if s[0] == '%' then "%%" else [s[0]]) + Escape(s[1..])
  }

  /** Formatting an escaped string gives the string back. */
  lemma {:induction false} FormatEscape(s: string, args: seq<int>)
    ensures Format(Escape(s), args) == Ok(s)
  {
    if |s| > 0 {
      var e := Escape(s);
      FormatEscape(s[1..], args);
      assert s == [s[0]] + s[1..];
      if s[0] == '%' {
        assert e[2..] == Escape(s[1..]);
      } else {
        assert e[1..] == Escape(s[1..]);
      }
    }
  }

  /** Arguments beyond what a format string consumes change nothing. */
  lemma {:induction false} FormatIgnoresExtra(fmt: string, args: seq<int>, more: seq<int>)
    requires Format(fmt, args).Ok?
    ensures Format(fmt, args + more) == Format(fmt, args)
    decreases |fmt|
  {
    if |fmt| > 0 {
      if fmt[0] != '%' {
        FormatIgnoresExtra(fmt[1..], args, more);
      } else if fmt[1] == '%' || fmt[1] == 'n' {
        FormatIgnoresExtra(fmt[2..], args, more);
      } else {
        assert (args + more)[1..] == args[1..] + more;
        FormatIgnoresExtra(fmt[2..], args[1..], more);
      }
    }
  }

  /** Every percent sign opens a "%d". */
  predicate OnlyIdPatterns(s: string) {
    forall k | 0 <= k < |s| && s[k] == '%' :: IdPatternAt(s, k)
  }

  lemma OnlyIdPatternsTail(s: string, n: nat)
    requires OnlyIdPatterns(s) && n <= |s|
    ensures OnlyIdPatterns(s[n..])
  {
    forall k | 0 <= k < |s[n..]| && s[n..][k] == '%' ensures IdPatternAt(s[n..], k) {
      assert s[n + k] == '%';
    }
  }

  /**
   * With only "%d" specifiers, formatting succeeds exactly when there is an
   * argument for every placeholder the regex scan counts, and then it
   * substitutes the first ones in order.
   */
  lemma {:induction false} FormatSubstitutes(fmt: string, ids: seq<int>)
    requires OnlyIdPatterns(fmt)
    ensures Format(fmt, ids).Ok? <==> |ids| >= IdPatterns(fmt)
    ensures |ids| >= IdPatterns(fmt) ==> Format(fmt, ids) == Ok(Substitute(fmt, ids[..IdPatterns(fmt)]))
    decreases |fmt|
  {
    if |fmt| == 1 {
      assert fmt[0] != '%';
      assert fmt == [fmt[0]] + fmt[1..];
    } else if |fmt| >= 2 {
      if fmt[0] == '%' {
        assert IdPatternAt(fmt, 0) && fmt[1] in "dsS";
        OnlyIdPatternsTail(fmt, 2);
        if |ids| > 0 {
          FormatSubstitutes(fmt[2..], ids[1..]);
          if |ids| >= IdPatterns(fmt) {
            assert ids[..IdPatterns(fmt)][1..] == ids[1..][..IdPatterns(fmt[2..])];
          }
        }
      } else {
        OnlyIdPatternsTail(fmt, 1);
        FormatSubstitutes(fmt[1..], ids);
      }
    }
  }

  /** n placeholders format to the ids' decimal forms one after the other. */
  lemma {:induction false} FormatPlaceholders(ids: seq<int>)
    ensures IdPatterns(Repeat("%d", |ids|)) == |ids|
    ensures Format(Repeat("%d", |ids|), ids) == Ok(Concat(Rendered(ids)))
  {
    IdPatternsRepeat(|ids|);
    if |ids| > 0 {
      RepeatHead(|ids|);
      FormatPlaceholders(ids[1..]);
      assert Rendered(ids)[1..] == Rendered(ids[1..]);
    }
  }

  /**
   * The regex count is not the number of arguments `String.format` wants:
   * "%%d" counts one placeholder and consumes none, and "%s" counts none
   * and consumes one.
   */
  lemma CountDiffersFromConversions()
    ensures IdPatterns("a%%d") == 1 && Format("a%%d", [5]) == Ok("a%d")
    ensures IdPatterns("%s") == 0 && Format("%s", []) == Err(IllegalFormat)
  {
    assert "d"[1..] == "" && "d"[0] == 'd';
    assert Format("", [5]) == Ok("");
    assert Format("d", [5]) == Prepend(['d'], Format("", [5]));
    assert ['d'] + "" == "d";
    assert "%%d"[2..] == "d" && "%%d"[1] == '%';
    assert Format("%%d", [5]) == Prepend("%", Format("d", [5]));
    assert "%" + "d" == "%d";
    assert "a%%d"[1..] == "%%d" && "a%%d"[0] == 'a';
    assert Format("a%%d", [5]) == Prepend(['a'], Format("%%d", [5]));
    assert ['a'] + "%d" == "a%d";
    assert "%%d"[1..] == "%d" && "%d"[2..] == "";
    assert IdPatternAt("%d", 0) && !IdPatternAt("%%d", 0) && !IdPatternAt("a%%d", 0);
    assert IdPatterns("%d") == 1 && IdPatterns("%%d") == 1;
    assert "%s"[1] == 's' && "%s"[1] in "dsS" && "%s"[1..] == "s" && !IdPatternAt("%s", 0);
  }

  function Concat(parts: seq<string>): string {
    if |parts| == 0 then "" else parts[0] + Concat(parts[1..])
  }

  // ---------------------------------------------------------------------
  // Derived api paths and their select

  /** `String[]`: null, or an array whose elements may be null. */
  type Paths = Option<seq<Option<string>>>

  /**
   * One row's api path: the row's first columns, one per counted
   * placeholder, as the arguments; a column the row does not have is the
   * cursor's `IllegalStateException`.
   */
  function RowPath(fmt: string, row: seq<int>): Result<string> {
    if IdPatterns(fmt) > |row| then Err(IllegalState) else Format(fmt, row[..IdPatterns(fmt)])
  }

  /**
   * The loop over the first n rows: the paths produced, and the exception
   * of the first row that failed, after which no row is formatted.
   */
  function PathsUpTo(fmt: string, rows: seq<seq<int>>, n: nat): (r: (seq<string>, Option<Exception>))
    requires n <= |rows|
    ensures r.1.None? ==> |r.0| == n
    ensures r.1.Some? ==> |r.0| < n && RowPath(fmt, rows[|r.0|]) == Err(r.1.value)
    ensures forall k | 0 <= k < |r.0| :: RowPath(fmt, rows[k]) == Ok(r.0[k])
    ensures r.1.None? <==> forall k | 0 <= k < n :: RowPath(fmt, rows[k]).Ok?
  {
    if n == 0 then ([], None)
    else
      var prev := PathsUpTo(fmt, rows, n - 1);
      if prev.1.Some? then prev
      else match RowPath(fmt, rows[n - 1])
        case Ok(p) => (prev.0 + [p], None)
        case Err(e) => (prev.0, Some(e))
  }

  /** The array of `n` paths after the loop: the paths produced, then nulls. */
  function Filled(ps: seq<string>, n: nat): (r: seq<Option<string>>)
    requires |ps| <= n
    ensures |r| == n
  {
    seq(n, k requires 0 <= k < n => if k < |ps| then Some(ps[k]) else None)
  }

  /** The next row, when none before it failed. */
  lemma PathsSnoc(fmt: string, rows: seq<seq<int>>, k: nat)
    requires k < |rows| && PathsUpTo(fmt, rows, k).1.None?
    ensures PathsUpTo(fmt, rows, k + 1) == match RowPath(fmt, rows[k])
      case Ok(p) => (PathsUpTo(fmt, rows, k).0 + [p], None)
      case Err(e) => (PathsUpTo(fmt, rows, k).0, Some(e))
  {
  }

  /** Writing the next path into the array of nulls. */
  lemma FilledSnoc(ps: seq<string>, p: string, n: nat)
    requires |ps| < n
    ensures Filled(ps, n)[|ps| := Some(p)] == Filled(ps + [p], n)
  {
    assert forall k | 0 <= k < n :: Filled(ps, n)[|ps| := Some(p)][k] == Filled(ps + [p], n)[k];
  }

  /** Once a row failed, the later rows are not formatted. */
  lemma {:induction false} PathsStop(fmt: string, rows: seq<seq<int>>, j: nat)
    requires 0 < j <= |rows| && PathsUpTo(fmt, rows, j).1.Some?
    ensures PathsUpTo(fmt, rows, |rows|) == PathsUpTo(fmt, rows, j)
    decreases |rows| - j
  {
    if j < |rows| {
      PathsStop(fmt, rows, j + 1);
    }
  }

  /**
   * With only "%d" specifiers and rows at least as wide as the placeholder
   * count, every row yields its path, the placeholders replaced by the
   * row's first columns.
   */
  lemma DerivedPathsSubstitute(fmt: string, rows: seq<seq<int>>)
    requires OnlyIdPatterns(fmt)
    requires forall k | 0 <= k < |rows| :: IdPatterns(fmt) <= |rows[k]|
    ensures PathsUpTo(fmt, rows, |rows|).1.None?
    ensures forall k | 0 <= k < |rows| ::
      PathsUpTo(fmt, rows, |rows|).0[k] == Substitute(fmt, rows[k][..IdPatterns(fmt)])
  {
    forall k | 0 <= k < |rows|
      ensures RowPath(fmt, rows[k]) == Ok(Substitute(fmt, rows[k][..IdPatterns(fmt)]))
    {
      var ids := rows[k][..IdPatterns(fmt)];
      FormatSubstitutes(fmt, ids);
      assert ids[..IdPatterns(fmt)] == ids;
    }
  }

  /** The primary id of every row, in row order. */
  function PrimaryIds(rows: seq<seq<int>>, index: nat): (r: seq<int>)
    requires forall k | 0 <= k < |rows| :: index < |rows[k]|
    ensures |r| == |rows| && forall k | 0 <= k < |rows| :: r[k] == rows[k][index]
  {
    seq(|rows|, k requires 0 <= k < |rows| => rows[k][index])
  }

  /** `new Select.Builder(tableUri).constraintIn(column, ids).build()`. */
  function IdSelect(tableUri: Address, column: string, ids: seq<int>): Select {
    Select(tableUri, None, Some(ListClause(column, "IN", |ids|)), Some(Rendered(ids)), None)
  }

  /** The derived select has one placeholder per id and the ids, in order, as its arguments. */
  lemma IdSelectBalanced(tableUri: Address, column: string, ids: seq<int>)
    requires '?' !in column && |ids| > 0
    ensures CountChar(IdSelect(tableUri, column, ids).selection.value, '?') == |ids|
    ensures IdSelect(tableUri, column, ids).selectionArgs == Some(Rendered(ids))
  {
    ListClauseCount(column, "IN", |ids|);
  }

  /** `ObjectUtils.equals`-compared fields that make up a filter's identity. */
  datatype FilterKey = FilterKey(table: Option<string>, selection: Option<string>, selectionArgs: Option<seq<string>>, apiPaths: Paths)

  /** What `equals` may be handed: a filter, null, or an object of another class. */
  datatype Other = FilterRef(filter: CollectionFilter) | NullRef | Foreign

  /** The fields in parcel order: selection, api paths, format string, table, primary id index. */
  datatype FilterFields = FilterFields(
    selection: Option<Select>,
    apiPaths: Paths,
    formatString: Option<string>,
    table: Option<string>,
    primaryIdIndex: int)

  /** One value written to a parcel. */
  datatype Parcelled =
    | ParcelSelect(select: Option<Select>)
    | ParcelStrings(strings: Paths)
    | ParcelString(str: Option<string>)
    | ParcelInt(n: int)

  /** `writeToParcel`. */
  function Encode(f: FilterFields): seq<Parcelled> {
    [ParcelSelect(f.selection), ParcelStrings(f.apiPaths), ParcelString(f.formatString),
     ParcelString(f.table), ParcelInt(f.primaryIdIndex)]
  }

  /** The parcel constructor, reading in the order the writer wrote. */
  function Decode(p: seq<Parcelled>): (r: Option<FilterFields>)
    ensures r.Some? ==> Encode(r.value) == p
  {
    if |p| == 5 && p[0].ParcelSelect? && p[1].ParcelStrings? && p[2].ParcelString? && p[3].ParcelString? && p[4].ParcelInt? then
      Some(FilterFields(p[0].select, p[1].strings, p[2].str, p[3].str, p[4].n))
    else None
  }

  /** Reading back what was written reproduces every field. */
  lemma ParcelRoundTrip(f: FilterFields)
    ensures Decode(Encode(f)) == Some(f)
  {
  }

  class CollectionFilter {
    var table: Option<string>
    var selection: Option<Select>
    var apiPaths: Paths
    var formatString: Option<string>
    var primaryIdIndex: int

    /** The static constructor: the table is cached from the select. */
    constructor FromSelect(select: Select, apiPaths: Paths)
      ensures selection == Some(select) && this.apiPaths == apiPaths && table == SelectTable(select)
      ensures formatString.None? && primaryIdIndex == 0
    {
      selection := Some(select);
      this.apiPaths := apiPaths;
      table := SelectTable(select);
      formatString := None;
      primaryIdIndex := 0;
    }

    /** `CollectionFilter(Uri, String, String[], String[])`: a select with only table, selection and arguments. */
    constructor FromQuery(tableUri: Address, sel: Option<string>, args: Option<seq<string>>, apiPaths: Paths)
      ensures selection == Some(Select(tableUri, None, sel, args, None)) && this.apiPaths == apiPaths
      ensures table == SelectTable(Select(tableUri, None, sel, args, None))
      ensures formatString.None? && primaryIdIndex == 0
    {
      var s := Select(tableUri, None, sel, args, None);
      selection := Some(s);
      this.apiPaths := apiPaths;
      table := SelectTable(s);
      formatString := None;
      primaryIdIndex := 0;
    }

    /** The dynamic constructor: the table is given explicitly and the api paths are left unset. */
    constructor Dynamic(table: Option<string>, select: Option<Select>, formatString: Option<string>, primaryIdIndex: int)
      ensures this.table == table && selection == select && this.formatString == formatString
      ensures this.primaryIdIndex == primaryIdIndex && apiPaths.None?
    {
      this.table := table;
      selection := select;
      this.formatString := formatString;
      this.primaryIdIndex := primaryIdIndex;
      apiPaths := None;
    }

    /** `countIdPatterns`: a scan that counts each "%d" and continues after it. */
    method CountIdPatterns() returns (c: nat)
      requires formatString.Some?
      ensures c == IdPatterns(formatString.value)
    {
      var s := formatString.value;
      c := 0;
      var i := 0;
      while i < |s|
        invariant 0 <= i <= |s|
        invariant c + IdPatterns(s[i..]) == IdPatterns(s)
      {
        if i + 1 < |s| && s[i] == '%' && s[i + 1] == 'd' {
          assert IdPatternAt(s[i..], 0) && s[i..][2..] == s[i + 2..];
          c := c + 1;
          i := i + 2;
        } else {
          if i + 1 < |s| {
            assert !IdPatternAt(s[i..], 0) && s[i..][1..] == s[i + 1..];
          } else {
            assert IdPatterns(s[i..]) == 0;
          }
          i := i + 1;
        }
      }
    }

    /**
     * One row's api path: the row's first `count` columns read into the
     * argument array (a column past the row's end is an
     * `IllegalStateException`), then formatted.
     */
    method FormatRow(fmt: string, count: nat, row: seq<int>) returns (path: Result<string>)
      requires count == IdPatterns(fmt)
      ensures path == RowPath(fmt, row)
    {
      var cells := new int[count];
      for i := 0 to count
        invariant i <= |row|
        invariant forall k | 0 <= k < i :: cells[k] == row[k]
      {
        if i == |row| {
          return Err(IllegalState);
        }
        cells[i] := row[i];
      }
      assert cells[..] == row[..count];
      path := Format(fmt, cells[..]);
    }

    /**
     * The loop over the rows: a fresh array of nulls, one per row, takes
     * each row's api path in turn, and the primary ids are collected in row
     * order; the first row that fails stops the loop, leaving the rest null.
     */
    method RowPaths(fmt: string, count: nat, rows: seq<seq<int>>, index: nat)
      returns (paths: seq<Option<string>>, ids: seq<int>, err: Option<Exception>)
      requires count == IdPatterns(fmt)
      requires forall k | 0 <= k < |rows| :: index < |rows[k]|
      ensures paths == Filled(PathsUpTo(fmt, rows, |rows|).0, |rows|)
      ensures err == PathsUpTo(fmt, rows, |rows|).1
      ensures err.None? ==> ids == PrimaryIds(rows, index)
    {
      var cells := new Option<string>[|rows|](_ => None);
      ids := [];
      for k := 0 to |rows|
        invariant PathsUpTo(fmt, rows, k).1.None?
        invariant cells[..] == Filled(PathsUpTo(fmt, rows, k).0, |rows|)
        invariant ids == PrimaryIds(rows[..k], index)
      {
        ids := ids + [rows[k][index]];
        var path := FormatRow(fmt, count, rows[k]);
        PathsSnoc(fmt, rows, k);
        if path.Err? {
          PathsStop(fmt, rows, k + 1);
          return cells[..], ids, Some(path.error);
        }
        ghost var done := PathsUpTo(fmt, rows, k).0;
        ghost var before := cells[..];
        cells[k] := Some(path.value);
        assert cells[..] == before[k := Some(path.value)];
        FilledSnoc(done, path.value, |rows|);
        assert rows[..k + 1] == rows[..k] + [rows[k]];
      }
      assert rows[..|rows|] == rows;
      paths, err := cells[..], None;
    }

    /** The selection on the primary ids, built with a `Select.Builder`. */
    method IdSelection(tableUri: Address, column: string, ids: seq<int>) returns (s: Select)
      ensures s == IdSelect(tableUri, column, ids)
    {
      var b := new Builder(tableUri);
      b.ConstraintInLongs(column, ids);
      s := b.Build();
      assert b.selection == [ListClause(column, "IN", |ids|)];
      assert b.selectionArgs == Rendered(ids);
    }

    /**
     * `deriveApiPaths`, with the select's result rows (`rows`, one long per
     * column) and column names. A missing format string or select is a
     * `NullPointerException` that changes nothing. Otherwise the api paths
     * become an array of nulls, one per row; a primary id index that names no
     * column then throws. Otherwise each row in turn gets its path, and the
     * first row that fails to format throws, the selection unchanged; when
     * every row formats, the selection becomes "primary IN (ids)" on
     * `tableUri`, or null without one, and the result says whether there
     * was at least one row.
     */
    method DeriveApiPaths(tableUri: Option<Address>, rows: seq<seq<int>>, columnNames: seq<string>)
      returns (r: Result<bool>)
      requires forall k | 0 <= k < |rows| :: |rows[k]| == |columnNames|
      modifies this`apiPaths, this`selection
      ensures formatString.None? || old(selection).None? ==>
        r == Err(NullPointer) && apiPaths == old(apiPaths) && selection == old(selection)
      ensures formatString.Some? && old(selection).Some? && !(0 <= primaryIdIndex < |columnNames|) ==>
        r == Err(IndexOutOfBounds) && apiPaths == Some(Filled([], |rows|)) && selection == old(selection)
      ensures formatString.Some? && old(selection).Some? && 0 <= primaryIdIndex < |columnNames| ==>
        var (ps, e) := PathsUpTo(formatString.value, rows, |rows|);
        && apiPaths == Some(Filled(ps, |rows|))
        && (e.Some? ==> r == Err(e.value) && selection == old(selection))
        && (e.None? ==> r == Ok(|rows| > 0))
        && (e.None? && tableUri.Some? ==>
              selection == Some(IdSelect(tableUri.value, columnNames[primaryIdIndex], PrimaryIds(rows, primaryIdIndex))))
        && (e.None? && tableUri.None? ==> selection.None?)
    {
      if formatString.None? || selection.None? {
        return Err(NullPointer);
      }
      var fmt := formatString.value;
      var count := CountIdPatterns();
      apiPaths := Some(Filled([], |rows|));
      if !(0 <= primaryIdIndex < |columnNames|) {
        return Err(IndexOutOfBounds);
      }
      var column := columnNames[primaryIdIndex];
      var paths, ids, err := RowPaths(fmt, count, rows, primaryIdIndex);
      apiPaths := Some(paths);
      if err.Some? {
        return Err(err.value);
      }
      if tableUri.Some? {
        var s := IdSelection(tableUri.value, column, ids);
        selection := Some(s);
      } else {
        selection := None;
      }
      return Ok(|rows| > 0);
    }

    /** The fields `equals` compares; the selection string and arguments are read off the select. */
    function Key(): FilterKey
      reads this
      requires selection.Some?
    {
      FilterKey(table, selection.value.selection, selection.value.selectionArgs, apiPaths)
    }

    /**
     * `equals`: an object of another class is unequal; null, or a filter
     * with the same table where either side has no select, throws a
     * `NullPointerException`; otherwise equal iff table, selection string,
     * selection arguments and api paths are all equal.
     */
    function Equals(other: Other): (r: Result<bool>)
      reads this, if other.FilterRef? then {other.filter} else {}
      ensures other.Foreign? ==> r == Ok(false)
      ensures other.NullRef? ==> r == Err(NullPointer)
      ensures other.FilterRef? && other.filter.table != table ==> r == Ok(false)
      ensures other.FilterRef? && selection.Some? && other.filter.selection.Some? ==>
        r == Ok(Key() == other.filter.Key())
    {
      match other
      case Foreign => Ok(false)
      case NullRef => Err(NullPointer)
      case FilterRef(o) =>
        if o.table != table then Ok(false)
        else if o.selection.None? || selection.None? then Err(NullPointer)
        else Ok(o.selection.value.selection == selection.value.selection
               && o.selection.value.selectionArgs == selection.value.selectionArgs
               && o.apiPaths == apiPaths)
    }

    function Fields(): FilterFields
      reads this
    {
      FilterFields(selection, apiPaths, formatString, table, primaryIdIndex)
    }

    method WriteToParcel() returns (p: seq<Parcelled>)
      ensures p == Encode(Fields())
      ensures Decode(p) == Some(Fields())
    {
      p := [ParcelSelect(selection), ParcelStrings(apiPaths), ParcelString(formatString),
            ParcelString(table), ParcelInt(primaryIdIndex)];
    }

    constructor FromParcel(p: seq<Parcelled>)
      requires Decode(p).Some?
      ensures Fields() == Decode(p).value
    {
      selection := p[0].select;
      apiPaths := p[1].strings;
      formatString := p[2].str;
      table := p[3].str;
      primaryIdIndex := p[4].n;
    }
  }

  /** Equality of filters is symmetric, and a filter with a select equals itself. */
  lemma EqualsSymmetric(a: CollectionFilter, b: CollectionFilter)
    ensures a.Equals(FilterRef(b)) == b.Equals(FilterRef(a))
    ensures a.selection.Some? ==> a.Equals(FilterRef(a)) == Ok(true)
  {
  }
}
