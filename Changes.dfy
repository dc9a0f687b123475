/**
 * The change journal (`Changes`): the action codes of journal rows, the
 * names of the journal table and its columns, and the journal's table
 * description.
 */
module Changes {
  import opened Common
  import Affinity
  import Types
  import opened Tables

  const ACTION_UPDATE: int := 0
  const ACTION_CREATE: int := 1
  const ACTION_REMOVE: int := 2

  const TABLE_NAME: string := "db_changes"

  const COLUMN_TIMESTAMP: string := "created_at"
  const COLUMN_ACTION: string := "action"
  const COLUMN_TABLE: string := "table_name"
  const COLUMN_NATIVE_ID: string := "obj_native_id"
  const COLUMN_ID: string := "obj_id"
  const COLUMN_VALUES: string := "values_json"
  const COLUMN_ADDITIONAL_DATA: string := "additional_data"

  /** `BaseColumns._ID`, inherited by the journal. */
  const ID: string := "_id"

  /** The action codes are pairwise distinct. */
  lemma ActionsDistinct()
    ensures ACTION_UPDATE != ACTION_CREATE && ACTION_CREATE != ACTION_REMOVE && ACTION_UPDATE != ACTION_REMOVE
  {
  }

  /** A public field without annotations; the table ignores it unless it is `_ID`. */
  function Plain(name: string, value: string): Field {
    Field(name, value, false, None, false, false, false, None)
  }

  /** A field annotated `@Column(type = t, affinity = a)`. */
  function Annotated(name: string, value: string, t: int, a: int): Field {
    Field(name, value, false, Some(DEFAULT_ANNOTATION.(colType := t, affinity := a)), false, false, false, None)
  }

  /** The fields before the columns: the three action codes and the table name. */
  const HEAD: seq<Field> := [
    Plain("ACTION_UPDATE", "0"),
    Plain("ACTION_CREATE", "1"),
    Plain("ACTION_REMOVE", "2"),
    Field("TABLE_NAME", TABLE_NAME, true, None, false, false, false, None)]

  /** The seven annotated columns and the inherited `_ID`. */
  const COLUMNS: seq<Field> := [
    Annotated("COLUMN_TIMESTAMP", COLUMN_TIMESTAMP, Types.STRING, Affinity.TEXT),
    Annotated("COLUMN_ACTION", COLUMN_ACTION, Types.INT, Affinity.INTEGER),
    Annotated("COLUMN_TABLE", COLUMN_TABLE, Types.STRING, Affinity.TEXT),
    Annotated("COLUMN_NATIVE_ID", COLUMN_NATIVE_ID, Types.LONG, Affinity.INTEGER),
    Annotated("COLUMN_ID", COLUMN_ID, Types.LONG, Affinity.INTEGER),
    Annotated("COLUMN_VALUES", COLUMN_VALUES, Types.STRING, Affinity.TEXT),
    Annotated("COLUMN_ADDITIONAL_DATA", COLUMN_ADDITIONAL_DATA, Types.STRING, Affinity.TEXT),
    Plain("_ID", ID)]

  /** The inherited `_COUNT`, which declares no column. */
  const TAIL: seq<Field> := [Plain("_COUNT", "_count")]

  /**
   * The description class: `@Local`, its own public fields in declaration
   * order, then the two it inherits from `BaseColumns`.
   */
  const JOURNAL: Description := Description("Changes", true, HEAD + COLUMNS + TAIL)

  /** The field loop started from `s` instead of the empty scan. */
  function ScanFrom(s: Scan, fields: seq<Field>): Result<Scan> {
    if |fields| == 0 then Ok(s)
    else
      var prev := ScanFrom(s, fields[..|fields| - 1]);
      if prev.Err? then prev else AddField(prev.value, fields[|fields| - 1])
  }

  /** Scanning `a + b` is scanning `b` from where scanning `a` left off. */
  lemma {:induction false} ScanAppend(a: seq<Field>, b: seq<Field>)
    requires ScanFields(a).Ok?
    ensures ScanFields(a + b) == ScanFrom(ScanFields(a).value, b)
  {
    if |b| == 0 {
      assert a + b == a;
    } else {
      ScanAppend(a, b[..|b| - 1]);
      assert (a + b)[..|a + b| - 1] == a + b[..|b| - 1];
    }
  }

  /** A column field without designations. */
  predicate PlainColumn(f: Field) {
    IsColumnField(f) && !f.syncId && !f.creationDate && f.parentId.None?
  }

  /** `PutColumn` of each column in turn. */
  function PutColumns(s: Scan, fields: seq<Field>): Scan {
    if |fields| == 0 then s
    else PutColumn(PutColumns(s, fields[..|fields| - 1]), ColumnOf(fields[|fields| - 1]))
  }

  function Values(fields: seq<Field>): seq<string> {
    seq(|fields|, i requires 0 <= i < |fields| => fields[i].value)
  }

  /** Plain column fields only add their columns. */
  lemma {:induction false} ScanPlain(s: Scan, fields: seq<Field>)
    requires forall i | 0 <= i < |fields| :: PlainColumn(fields[i])
    ensures ScanFrom(s, fields) == Ok(PutColumns(s, fields))
  {
    if |fields| > 0 {
      ScanPlain(s, fields[..|fields| - 1]);
    }
  }

  /** Putting columns adds their names to the keys and changes no designation. */
  lemma {:induction false} PutKeys(s: Scan, fields: seq<Field>)
    ensures var r := PutColumns(s, fields);
      && r.columns.Keys == s.columns.Keys + (set i | 0 <= i < |fields| :: fields[i].value)
      && r.name == s.name && r.syncId == s.syncId && r.creationDate == s.creationDate && r.parentId == s.parentId
  {
    if |fields| > 0 {
      var init := fields[..|fields| - 1];
      PutKeys(s, init);
      assert (set i | 0 <= i < |fields| :: fields[i].value)
        == (set i | 0 <= i < |init| :: init[i].value) + {fields[|fields| - 1].value};
    }
  }

  /** Columns with distinct new names are appended to the order. */
  lemma {:induction false} PutFresh(s: Scan, fields: seq<Field>)
    requires forall i, j | 0 <= i < j < |fields| :: fields[i].value != fields[j].value
    requires forall i | 0 <= i < |fields| :: fields[i].value !in s.columns
    ensures PutColumns(s, fields).order == s.order + Values(fields)
  {
    if |fields| > 0 {
      var init := fields[..|fields| - 1];
      var f := fields[|fields| - 1];
      PutFresh(s, init);
      PutKeys(s, init);
      assert Values(fields) == Values(init) + [f.value];
      assert f.value !in PutColumns(s, init).columns;
    }
  }

  /** Columns with distinct names are each found under their own name. */
  lemma {:induction false} PutLookup(s: Scan, fields: seq<Field>)
    requires forall i, j | 0 <= i < j < |fields| :: fields[i].value != fields[j].value
    ensures forall i | 0 <= i < |fields| ::
      fields[i].value in PutColumns(s, fields).columns && PutColumns(s, fields).columns[fields[i].value] == ColumnOf(fields[i])
  {
    if |fields| > 0 {
      var init := fields[..|fields| - 1];
      PutLookup(s, init);
      forall i | 0 <= i < |init|
        ensures init[i].value != fields[|fields| - 1].value && init[i] == fields[i]
      {
      }
    }
  }

  lemma HeadScan()
    ensures ScanFields(HEAD) == Ok(EMPTY_SCAN.(name := Some(TABLE_NAME)))
  {
    assert HEAD[..0] == [];
    assert ScanFields(HEAD[..1]) == Ok(EMPTY_SCAN);
    assert HEAD[..2][..1] == HEAD[..1];
    assert ScanFields(HEAD[..2]) == Ok(EMPTY_SCAN);
    assert HEAD[..3][..2] == HEAD[..2];
    assert ScanFields(HEAD[..3]) == Ok(EMPTY_SCAN);
    assert HEAD[..3] == HEAD[..|HEAD| - 1];
  }

  lemma ColumnsDistinct()
    ensures forall i, j | 0 <= i < j < |COLUMNS| :: COLUMNS[i].value != COLUMNS[j].value
    ensures forall i | 0 <= i < |COLUMNS| :: PlainColumn(COLUMNS[i])
    ensures Values(COLUMNS) == [COLUMN_TIMESTAMP, COLUMN_ACTION, COLUMN_TABLE, COLUMN_NATIVE_ID, COLUMN_ID,
                                COLUMN_VALUES, COLUMN_ADDITIONAL_DATA, ID]
  {
  }

  /**
   * The journal is a local table named "db_changes" with eight columns: the
   * seven annotated ones and the inherited `_id` primary key; it has no sync
   * id, creation date or parent id.
   */
  lemma JournalTable()
    ensures Describe(JOURNAL).Ok?
    ensures var s := Describe(JOURNAL).value;
      && s.name == Some(TABLE_NAME)
      && s.order == [COLUMN_TIMESTAMP, COLUMN_ACTION, COLUMN_TABLE, COLUMN_NATIVE_ID, COLUMN_ID,
                     COLUMN_VALUES, COLUMN_ADDITIONAL_DATA, ID]
      && s.syncId.None? && s.creationDate.None? && s.parentId.None?
      && ID in s.columns && IsIdDefault(s.columns[ID])
      && COLUMN_ACTION in s.columns && s.columns[COLUMN_ACTION].colType == Types.INT
      && s.columns[COLUMN_ACTION].affinity == Affinity.INTEGER
  {
    var s0 := EMPTY_SCAN.(name := Some(TABLE_NAME));
    HeadScan();
    ScanAppend(HEAD, COLUMNS);
    ColumnsDistinct();
    ScanPlain(s0, COLUMNS);
    PutKeys(s0, COLUMNS);
    PutFresh(s0, COLUMNS);
    PutLookup(s0, COLUMNS);
    var s1 := PutColumns(s0, COLUMNS);
    assert ScanFields(HEAD + COLUMNS) == Ok(s1);
    var all := HEAD + COLUMNS + TAIL;
    assert all[..|all| - 1] == HEAD + COLUMNS;
    assert ScanFields(all) == Ok(s1);
    assert COLUMNS[7].value == ID && COLUMNS[1].value == COLUMN_ACTION;
  }
}
