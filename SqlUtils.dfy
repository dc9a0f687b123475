/**
 * Cursor and value helpers (`SQLUtils`). A cursor's cells are passed in as
 * the values the cursor returns; date formats are parameters, since the
 * rendering and parsing of dates are not part of this model.
 */
module SqlUtils {
  import opened Common

  /** `getBoolean`: a cell is true exactly when its int value is positive. */
  function GetBoolean(intValue: int): (r: bool)
    ensures r <==> intValue > 0
  {
    intValue > 0
  }

  /** `getLong`: null for a null cell, otherwise the cell's long value. */
  function GetLong(isNull: bool, longValue: Long): (r: Option<Long>)
    ensures r.None? <==> isNull
    ensures r.Some? ==> r.value == longValue
  {
    if isNull then None else Some(longValue)
  }

  /** `formatBoolean`: null stays null, true is 1 and false 0. */
  function FormatBoolean(value: Option<bool>): (r: Option<Long>)
    ensures r.None? <==> value.None?
    ensures r.Some? ==> (r.value == 1 <==> value.value) && (r.value == 0 <==> !value.value)
  {
    match value
    case None => None
    case Some(b) => Some(if b then 1 else 0)
  }

  /** `getBoolean` reads back what `formatBoolean` stored. */
  lemma BooleanRoundTrip(b: bool)
    ensures GetBoolean(FormatBoolean(Some(b)).value) == b
  {
  }

  /**
   * `getStringArray`: null for a negative column index or a null cell,
   * otherwise the cell split on ','. An index at or past the row's width is
   * the `IllegalStateException` of the cursor's `getString`.
   */
  function GetStringArray(row: seq<Option<string>>, columnIndex: int): (r: Result<Option<seq<string>>>)
    ensures r.Err? <==> columnIndex >= |row|
    ensures r.Err? ==> r.error == IllegalState
    ensures r == Ok(None) <==> columnIndex < 0 || (columnIndex < |row| && row[columnIndex].None?)
    ensures r.Ok? && r.value.Some? ==>
      0 <= columnIndex < |row| && row[columnIndex].Some? && r.value.value == JavaSplit(row[columnIndex].value, ',')
  {
    if columnIndex < 0 then Ok(None)
    else if columnIndex >= |row| then Err(IllegalState)
    else
      match row[columnIndex]
      case None => Ok(None)
      case Some(v) => Ok(Some(JavaSplit(v, ',')))
  }

  /** The segments parsed one by one; the first that does not parse makes the whole fail. */
  function ParseAll(values: seq<string>, lo: int, hi: int): (r: Option<seq<int>>)
    ensures r.Some? ==> |r.value| == |values|
    ensures r.Some? ==> forall i | 0 <= i < |values| :: ParseDecimal(values[i], lo, hi) == Some(r.value[i])
    ensures r.None? <==> exists i | 0 <= i < |values| :: ParseDecimal(values[i], lo, hi).None?
  {
    if |values| == 0 then Some([])
    else
      var init := ParseAll(values[..|values| - 1], lo, hi);
      var last := ParseDecimal(values[|values| - 1], lo, hi);
      if init.None? then
        assert forall i | 0 <= i < |values| - 1 :: values[..|values| - 1][i] == values[i];
        None
      else if last.None? then None
      else
        assert forall i | 0 <= i < |values| - 1 :: values[..|values| - 1][i] == values[i];
        Some(init.value + [last.value])
  }

  /**
   * The loops of `getLongArray` (lo, hi = the long bounds) and `getIntArray`
   * (the int bounds): an array as long as the split, element i parsed from
   * segment i. The cursor's exception passes through, a null split fails on
   * its length, an unparsable segment with `NumberFormatException`.
   */
  method ParseArray(row: seq<Option<string>>, columnIndex: int, lo: int, hi: int) returns (r: Result<array<int>>)
    ensures GetStringArray(row, columnIndex).Err? ==> r == Err(IllegalState)
    ensures GetStringArray(row, columnIndex) == Ok(None) ==> r == Err(NullPointer)
    ensures GetStringArray(row, columnIndex).Ok? && GetStringArray(row, columnIndex).value.Some? ==>
      var parsed := ParseAll(GetStringArray(row, columnIndex).value.value, lo, hi);
      && (r.Err? <==> parsed.None?)
      && (r.Err? ==> r.error == NumberFormat)
      && (r.Ok? ==> fresh(r.value) && r.value[..] == parsed.value)
  {
    var values := GetStringArray(row, columnIndex);
    if values.Err? {
      return Err(values.error);
    }
    if values.value.None? {
      return Err(NullPointer);
    }
    var segments := values.value.value;
    var result := new int[|segments|];
    var i := 0;
    while i < |segments|
      invariant 0 <= i <= |segments|
      invariant ParseAll(segments[..i], lo, hi) == Some(result[..i])
    {
      var v := ParseDecimal(segments[i], lo, hi);
      assert segments[..i + 1][..i] == segments[..i];
      if v.None? {
        assert ParseAll(segments[..i + 1], lo, hi).None?;
        ParseAllPrefix(segments, i + 1, lo, hi);
        return Err(NumberFormat);
      }
      result[i] := v.value;
      assert result[..i + 1] == result[..i] + [v.value];
      i := i + 1;
    }
    assert segments[..i] == segments;
    r := Ok(result);
  }

  /** A prefix that does not parse keeps the whole from parsing. */
  lemma ParseAllPrefix(values: seq<string>, k: nat, lo: int, hi: int)
    requires k <= |values| && ParseAll(values[..k], lo, hi).None?
    ensures ParseAll(values, lo, hi).None?
  {
    var i :| 0 <= i < k && ParseDecimal(values[..k][i], lo, hi).None?;
    assert values[..k][i] == values[i];
  }

  /** `getLongArray`. */
  method GetLongArray(row: seq<Option<string>>, columnIndex: int) returns (r: Result<array<int>>)
    ensures GetStringArray(row, columnIndex).Err? ==> r == Err(IllegalState)
    ensures GetStringArray(row, columnIndex) == Ok(None) ==> r == Err(NullPointer)
    ensures GetStringArray(row, columnIndex).Ok? && GetStringArray(row, columnIndex).value.Some? ==>
      var parsed := ParseAll(GetStringArray(row, columnIndex).value.value, LONG_MIN, LONG_MAX);
      && (r.Err? <==> parsed.None?)
      && (r.Err? ==> r.error == NumberFormat)
      && (r.Ok? ==> fresh(r.value) && r.value[..] == parsed.value)
  {
    r := ParseArray(row, columnIndex, LONG_MIN, LONG_MAX);
  }

  /** `getIntArray`. */
  method GetIntArray(row: seq<Option<string>>, columnIndex: int) returns (r: Result<array<int>>)
    ensures GetStringArray(row, columnIndex).Err? ==> r == Err(IllegalState)
    ensures GetStringArray(row, columnIndex) == Ok(None) ==> r == Err(NullPointer)
    ensures GetStringArray(row, columnIndex).Ok? && GetStringArray(row, columnIndex).value.Some? ==>
      var parsed := ParseAll(GetStringArray(row, columnIndex).value.value, INT_MIN, INT_MAX);
      && (r.Err? <==> parsed.None?)
      && (r.Err? ==> r.error == NumberFormat)
      && (r.Ok? ==> fresh(r.value) && r.value[..] == parsed.value)
  {
    r := ParseArray(row, columnIndex, INT_MIN, INT_MAX);
  }

  /** A comma-separated list of rendered longs reads back as those longs. */
  lemma LongListRoundTrip(xs: seq<int>)
    requires forall i | 0 <= i < |xs| :: LONG_MIN <= xs[i] <= LONG_MAX
    ensures ParseAll(seq(|xs|, i requires 0 <= i < |xs| => IntToString(xs[i])), LONG_MIN, LONG_MAX) == Some(xs)
  {
    var strs := seq(|xs|, i requires 0 <= i < |xs| => IntToString(xs[i]));
    forall i | 0 <= i < |xs| ensures ParseDecimal(strs[i], LONG_MIN, LONG_MAX) == Some(xs[i]) {
      ParseRendered(xs[i], LONG_MIN, LONG_MAX);
    }
    var r := ParseAll(strs, LONG_MIN, LONG_MAX);
    assert r.Some?;
    assert r.value == xs;
  }

  /**
   * `formatTimestamp` / `formatDate`: null stays null, anything else is rendered
   * with the format.
   */
  function FormatDate(date: Option<int>, format: int -> string): (r: Option<string>)
    ensures r.None? <==> date.None?
    ensures r.Some? ==> r.value == format(date.value)
  {
    match date
    case None => None
    case Some(d) => Some(format(d))
  }

  /**
   * `parseTimestamp` / `parseDate`: a null or empty string is null; anything
   * else goes through the format's parser, whose failure is a `ParseException`.
   */
  function ParseDate(s: Option<string>, parse: string -> Option<int>): (r: Result<Option<int>>)
    ensures IsEmpty(s) ==> r == Ok(None)
    ensures !IsEmpty(s) ==> (r.Err? <==> parse(s.value).None?)
    ensures !IsEmpty(s) && r.Ok? ==> r.value == parse(s.value)
  {
    if IsEmpty(s) then Ok(None)
    else
      match parse(s.value)
      case None => Err(Parse)
      case Some(d) => Ok(Some(d))
  }

  /** `getTimestamp` / `getDate`: a parse failure is logged and read as null. */
  function GetDate(s: Option<string>, parse: string -> Option<int>): (r: Option<int>)
    ensures r.Some? <==> !IsEmpty(s) && parse(s.value).Some?
    ensures r.Some? ==> r == parse(s.value)
  {
    match ParseDate(s, parse)
    case Err(_) => None
    case Ok(d) => d
  }
}
