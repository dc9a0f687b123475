/**
 * Tables (`Table`) built from a table description: the description's
 * table-name field names the table, each column field becomes a column, and
 * at most one column each may be the sync id, the creation date and the
 * parent id. The reflective scan of a description class is replaced by an
 * explicit list of its public fields with their annotations.
 */
module Tables {
  import opened Common
  import Affinity
  import Types
  import Storage
  import opened DataEntries
  import opened Columns
  import Views

  /** The members of a `@Column` annotation; `parser` is None for `IdentityParser`. */
  datatype ColumnAnnotation = ColumnAnnotation(
    defaultValue: string,
    colType: int,
    affinity: int,
    constraint: string,
    storage: int,
    delegate: string,
    parser: Option<Parser>)

  /** A `@Column` written without arguments. */
  const DEFAULT_ANNOTATION: ColumnAnnotation :=
    ColumnAnnotation("", Types.STRING, Affinity.NONE, "", Storage.REMOTE, "", None)

  /**
   * `@ParentId`. The repository's annotation declares no members although
   * the table reads `parentTable()`, `TABLE_FROM_CONTEXT` and
   * `parentTableFromContext()`; these are stand-ins for them.
   */
  datatype ParentAnnotation = ParentAnnotation(parentTable: string, parentTableFromContext: Row -> Option<string>)

  const TABLE_FROM_CONTEXT: string := "TABLE_FROM_CONTEXT"

  /** A public static field of a description class: its name, its string value, its annotations. */
  datatype Field = Field(
    name: string,
    value: string,
    tableName: bool,
    column: Option<ColumnAnnotation>,
    syncId: bool,
    creationDate: bool,
    uid: bool,
    parentId: Option<ParentAnnotation>)

  /** A description class: its simple name, whether it is `@Local`, its fields in order. */
  datatype Description = Description(simpleName: string, local: bool, fields: seq<Field>)

  /** A field that declares a column: annotated `@Column` or named `_ID`, and not the table name. */
  predicate IsColumnField(f: Field) {
    !f.tableName && (f.column.Some? || f.name == "_ID")
  }

  /** The implicit `_ID` column: a long integer primary key stored locally. */
  predicate IsIdDefault(c: Column) {
    c.colType == Types.LONG && c.affinity == Affinity.INTEGER && c.constraint == "PRIMARY KEY"
    && c.storage == Storage.LOCAL && c.delegate == "" && c.defaultValue == "" && c.parser.None?
  }

  /** The column a column field declares. */
  function ColumnOf(f: Field): (c: Column)
    ensures c.name == f.value && c.declaredName == f.name && c.isUID == f.uid
    ensures f.column.None? ==> IsIdDefault(c)
    ensures f.column.Some? && |f.column.value.delegate| > 0 ==> c.colType == Types.DELEGATE
    ensures f.column.Some? && |f.column.value.delegate| == 0 ==> c.colType == f.column.value.colType
    ensures f.column.Some? ==> c.affinity == f.column.value.affinity && c.constraint == f.column.value.constraint
    ensures f.column.Some? ==> c.storage == f.column.value.storage && c.delegate == f.column.value.delegate
    ensures f.column.Some? ==> c.defaultValue == f.column.value.defaultValue && c.parser == f.column.value.parser
  {
    match f.column
    case None => Column(Types.LONG, Affinity.INTEGER, "PRIMARY KEY", Storage.LOCAL, f.value, f.name, "", "", None, f.uid)
    case Some(a) =>
      var t := if |a.delegate| > 0 then Types.DELEGATE else a.colType;
      Column(t, a.affinity, a.constraint, a.storage, f.value, f.name, a.delegate, a.defaultValue, a.parser, f.uid)
  }

  // ---------------------------------------------------------------------
  // The scan of a description

  /** What the constructor has collected so far. */
  datatype Scan = Scan(
    name: Option<string>,
    columns: map<string, Column>,
    order: seq<string>,
    syncId: Option<Column>,
    creationDate: Option<Column>,
    parentId: Option<Column>,
    parentTableName: Option<string>,
    parentTableFromContext: Option<Row -> Option<string>>)

  const EMPTY_SCAN: Scan := Scan(None, map[], [], None, None, None, None, None)

  /** `columns.put`: a later column with the same name replaces the earlier one in place. */
  function PutColumn(s: Scan, c: Column): Scan {
    s.(columns := s.columns[c.name := c], order := if c.name in s.columns then s.order else s.order + [c.name])
  }

  /** The parent-id designation: a static parent table, or the marker for one taken from the entity. */
  function SetParent(s: Scan, c: Column, p: ParentAnnotation): Scan {
    if p.parentTable == TABLE_FROM_CONTEXT then
      s.(parentId := Some(c), parentTableName := None, parentTableFromContext := Some(p.parentTableFromContext))
    else s.(parentId := Some(c), parentTableName := Some(p.parentTable))
  }

  /** One iteration of the constructor's field loop. */
  function AddField(s: Scan, f: Field): Result<Scan> {
    if f.tableName then Ok(s.(name := Some(f.value)))
    else if !IsColumnField(f) then Ok(s)
    else
      var c := ColumnOf(f);
      var s1 := PutColumn(s, c);
      if f.syncId && s1.syncId.Some? then Err(IllegalArgument)
      else
        var s2 := if f.syncId then s1.(syncId := Some(c)) else s1;
        if f.creationDate && s2.creationDate.Some? then Err(IllegalArgument)
        else
          var s3 := if f.creationDate then s2.(creationDate := Some(c)) else s2;
          if f.parentId.Some? && s3.parentId.Some? then Err(IllegalArgument)
          else if f.parentId.Some? then Ok(SetParent(s3, c, f.parentId.value))
          else Ok(s3)
  }

  /** The field loop, stopping at the first exception. */
  function ScanFields(fields: seq<Field>): Result<Scan> {
    if |fields| == 0 then Ok(EMPTY_SCAN)
    else
      var prev := ScanFields(fields[..|fields| - 1]);
      if prev.Err? then prev else AddField(prev.value, fields[|fields| - 1])
  }

  /** The constructor: the scan, then a `NoSuchFieldException` when no field named the table. */
  function Describe(d: Description): Result<Scan> {
    var s := ScanFields(d.fields);
    if s.Err? then s
    else if s.value.name.None? then Err(NoSuchField)
    else s
  }

  /** The three designations a column field can carry. */
  datatype Designation = SyncIdColumn | CreationDateColumn | ParentIdColumn

  predicate Designates(f: Field, k: Designation) {
    IsColumnField(f) &&
    match k
    case SyncIdColumn => f.syncId
    case CreationDateColumn => f.creationDate
    case ParentIdColumn => f.parentId.Some?
  }

  /** How many column fields carry designation `k`. */
  function CountDesignated(fields: seq<Field>, k: Designation): nat {
    if |fields| == 0 then 0
    else CountDesignated(fields[..|fields| - 1], k) + (if Designates(fields[|fields| - 1], k) then 1 else 0)
  }

  function Designated(s: Scan, k: Designation): Option<Column> {
    match k
    case SyncIdColumn => s.syncId
    case CreationDateColumn => s.creationDate
    case ParentIdColumn => s.parentId
  }

  /** Columns are keyed by name, and the names are listed once each, in first-insertion order. */
  predicate WellFormed(s: Scan) {
    (forall i | 0 <= i < |s.order| :: s.order[i] in s.columns)
    && (forall n | n in s.columns :: n in s.order && s.columns[n].name == n)
    && (forall i, j | 0 <= i < j < |s.order| :: s.order[i] != s.order[j])
  }

  /**
   * Each designation is given at most once: the scan fails, with an
   * `IllegalArgumentException`, exactly when some designation is carried by
   * two column fields; otherwise a designation is set iff one field carries it.
   */
  lemma {:induction false} AtMostOnce(fields: seq<Field>)
    ensures ScanFields(fields).Err? <==> exists k: Designation :: CountDesignated(fields, k) > 1
    ensures ScanFields(fields).Err? ==> ScanFields(fields).error == IllegalArgument
    ensures ScanFields(fields).Ok? ==> forall k: Designation ::
      Designated(ScanFields(fields).value, k).Some? <==> CountDesignated(fields, k) == 1
    ensures ScanFields(fields).Ok? ==> WellFormed(ScanFields(fields).value)
  {
    if |fields| > 0 {
      var prefix := fields[..|fields| - 1];
      var f := fields[|fields| - 1];
      AtMostOnce(prefix);
      assert forall k: Designation ::
        CountDesignated(fields, k) == CountDesignated(prefix, k) + (if Designates(f, k) then 1 else 0);
      if ScanFields(prefix).Err? {
        var k: Designation :| CountDesignated(prefix, k) > 1;
        assert CountDesignated(fields, k) > 1;
      } else {
        var s := ScanFields(prefix).value;
        assert ScanFields(fields) == AddField(s, f);
        AddFieldDesignations(s, f);
        AddFieldWellFormed(s, f);
        if AddField(s, f).Err? {
          var k: Designation :| Designates(f, k) && Designated(s, k).Some?;
          assert CountDesignated(prefix, k) == 1;
          assert CountDesignated(fields, k) > 1;
          assert ScanFields(fields).Err?;
          assert exists k: Designation :: CountDesignated(fields, k) > 1;
        } else {
          forall k: Designation
            ensures CountDesignated(fields, k) <= 1
          {
            assert !(Designates(f, k) && Designated(s, k).Some?);
            assert CountDesignated(prefix, k) <= 1;
          }
        }
      }
    }
  }

  /** One field fails the scan exactly when it repeats a designation already given. */
  lemma AddFieldDesignations(s: Scan, f: Field)
    ensures AddField(s, f).Err? <==> exists k: Designation :: Designates(f, k) && Designated(s, k).Some?
    ensures AddField(s, f).Err? ==> AddField(s, f).error == IllegalArgument
    ensures AddField(s, f).Ok? ==> forall k: Designation ::
      Designated(AddField(s, f).value, k).Some? <==> Designated(s, k).Some? || Designates(f, k)
  {
    if IsColumnField(f) {
      var c := ColumnOf(f);
      var s1 := PutColumn(s, c);
      assert forall k: Designation :: Designated(s1, k) == Designated(s, k);
      assert Designates(f, SyncIdColumn) == f.syncId;
      assert Designates(f, CreationDateColumn) == f.creationDate;
      assert Designates(f, ParentIdColumn) == f.parentId.Some?;
    } else {
      assert forall k: Designation :: !Designates(f, k);
      assert AddField(s, f).Ok? ==> forall k: Designation :: Designated(AddField(s, f).value, k) == Designated(s, k);
    }
  }

  lemma AddFieldWellFormed(s: Scan, f: Field)
    requires WellFormed(s)
    ensures AddField(s, f).Ok? ==> WellFormed(AddField(s, f).value)
  {
    if IsColumnField(f) && !f.tableName && AddField(s, f).Ok? {
      PutColumnWellFormed(s, ColumnOf(f));
      AddColumnShape(s, f);
    }
  }

  lemma PutColumnWellFormed(s: Scan, c: Column)
    requires WellFormed(s)
    ensures WellFormed(PutColumn(s, c))
  {
    if c.name !in s.columns {
      assert forall i | 0 <= i < |s.order| :: s.order[i] != c.name;
    }
  }

  /** A column field leaves the columns and their order as `PutColumn` made them. */
  lemma AddColumnShape(s: Scan, f: Field)
    requires IsColumnField(f) && !f.tableName && AddField(s, f).Ok?
    ensures var s1 := PutColumn(s, ColumnOf(f));
      AddField(s, f).value.columns == s1.columns && AddField(s, f).value.order == s1.order
  {
  }

  /** The value of the last table-name field, if any. */
  function LastTableName(fields: seq<Field>): Option<string> {
    if |fields| == 0 then None
    else if fields[|fields| - 1].tableName then Some(fields[|fields| - 1].value)
    else LastTableName(fields[..|fields| - 1])
  }

  lemma AddFieldName(s: Scan, f: Field)
    requires AddField(s, f).Ok?
    ensures AddField(s, f).value.name == if f.tableName then Some(f.value) else s.name
  {
  }

  lemma {:induction false} ScanName(fields: seq<Field>)
    requires ScanFields(fields).Ok?
    ensures ScanFields(fields).value.name == LastTableName(fields)
  {
    if |fields| > 0 {
      var prefix := fields[..|fields| - 1];
      ScanName(prefix);
      AddFieldName(ScanFields(prefix).value, fields[|fields| - 1]);
    }
  }

  lemma {:induction false} LastTableNameAt(fields: seq<Field>) returns (i: nat)
    requires LastTableName(fields).Some?
    ensures i < |fields| && fields[i].tableName && LastTableName(fields).value == fields[i].value
    ensures forall j | i < j < |fields| :: !fields[j].tableName
  {
    if fields[|fields| - 1].tableName {
      i := |fields| - 1;
    } else {
      var prefix := fields[..|fields| - 1];
      i := LastTableNameAt(prefix);
      assert forall j | i < j < |prefix| :: prefix[j] == fields[j];
    }
  }

  lemma {:induction false} LastTableNameSome(fields: seq<Field>, i: nat)
    requires i < |fields| && fields[i].tableName
    ensures LastTableName(fields).Some?
  {
    if !fields[|fields| - 1].tableName {
      var prefix := fields[..|fields| - 1];
      assert prefix[i] == fields[i];
      LastTableNameSome(prefix, i);
    }
  }

  /** The table is named by the last table-name field; without one, the description is no table. */
  lemma TableNameField(fields: seq<Field>)
    requires ScanFields(fields).Ok?
    ensures ScanFields(fields).value.name.Some? <==> exists i | 0 <= i < |fields| :: fields[i].tableName
    ensures ScanFields(fields).value.name.Some? ==> exists i | 0 <= i < |fields| ::
      fields[i].tableName && ScanFields(fields).value.name.value == fields[i].value
      && forall j | i < j < |fields| :: !fields[j].tableName
  {
    ScanName(fields);
    if LastTableName(fields).Some? {
      var i := LastTableNameAt(fields);
    }
    if exists i | 0 <= i < |fields| :: fields[i].tableName {
      var i :| 0 <= i < |fields| && fields[i].tableName;
      LastTableNameSome(fields, i);
    }
  }

  /** A description with no table-name field raises `NoSuchFieldException`, unless a designation clashes first. */
  lemma NoTableName(d: Description)
    ensures Describe(d).Err? && Describe(d).error == NoSuchField <==>
      ScanFields(d.fields).Ok? && forall i | 0 <= i < |d.fields| :: !d.fields[i].tableName
  {
    AtMostOnce(d.fields);
    if ScanFields(d.fields).Ok? {
      TableNameField(d.fields);
    }
  }

  /** The columns of a scan in the order of their names. */
  function InOrder(s: Scan): (cols: seq<Column>)
    requires WellFormed(s)
    ensures |cols| == |s.order| && forall i | 0 <= i < |cols| :: cols[i] == s.columns[s.order[i]]
  {
    seq(|s.order|, i requires 0 <= i < |s.order| && s.order[i] in s.columns => s.columns[s.order[i]])
  }

  // ---------------------------------------------------------------------
  // CREATE TABLE

  /** The declarations of the columns that are not delegates, in column order. */
  function Declarations(cols: seq<Column>): seq<string> {
    if |cols| == 0 then []
    else
      var last := cols[|cols| - 1];
      Declarations(cols[..|cols| - 1]) + (if last.colType != Types.DELEGATE then [Render(last)] else [])
  }

  /**
   * "CREATE TABLE name (" + the declarations separated by ", " + ");". With
   * no declaration at all, deleting the last two characters removes the
   * " (" and leaves "CREATE TABLE name);".
   */
  function CreateSql(name: string, cols: seq<Column>): string {
    var ds := Declarations(cols);
    if |ds| == 0 then "CREATE TABLE " + name + ");"
    else "CREATE TABLE " + name + " (" + Join(ds, ", ") + ");"
  }

  /** Every declaration, each followed by ", ", as the loop appends them. */
  function Terminated(ds: seq<string>): string {
    if |ds| == 0 then "" else Terminated(ds[..|ds| - 1]) + ds[|ds| - 1] + ", "
  }

  lemma {:induction false} TerminatedJoin(ds: seq<string>)
    requires |ds| > 0
    ensures Terminated(ds) == Join(ds, ", ") + ", "
  {
    if |ds| > 1 {
      var init := ds[..|ds| - 1];
      TerminatedJoin(init);
      JoinSnoc(init, ds[|ds| - 1], ", ");
      assert init + [ds[|ds| - 1]] == ds;
    }
  }

  lemma DeclarationsSnoc(cols: seq<Column>, i: nat)
    requires i < |cols|
    ensures Declarations(cols[..i + 1]) ==
      Declarations(cols[..i]) + (if cols[i].colType != Types.DELEGATE then [Render(cols[i])] else [])
  {
    assert cols[..i + 1][..i] == cols[..i];
  }

  lemma DeclareStep(head: string, cols: seq<Column>, i: nat, result: string)
    requires i < |cols| && result == head + Terminated(Declarations(cols[..i]))
    ensures cols[i].colType != Types.DELEGATE ==> result + Render(cols[i]) + ", " == head + Terminated(Declarations(cols[..i + 1]))
    ensures cols[i].colType == Types.DELEGATE ==> result == head + Terminated(Declarations(cols[..i + 1]))
  {
    DeclarationsSnoc(cols, i);
    if cols[i].colType != Types.DELEGATE {
      TerminatedSnoc(head, Declarations(cols[..i]), Render(cols[i]));
    } else {
      assert Declarations(cols[..i + 1]) == Declarations(cols[..i]);
    }
  }

  lemma TerminatedSnoc(head: string, ds: seq<string>, d: string)
    ensures head + Terminated(ds + [d]) == head + Terminated(ds) + d + ", "
  {
    assert (ds + [d])[..|ds|] == ds;
  }

  /** Deleting the trailing ", " (or the " (" when nothing was declared) and closing the statement. */
  lemma CreateFinish(name: string, cols: seq<Column>)
    ensures var result := "CREATE TABLE " + name + " (" + Terminated(Declarations(cols));
      |result| >= 2 && result[..|result| - 2] + ");" == CreateSql(name, cols)
  {
    var ds := Declarations(cols);
    var head := "CREATE TABLE " + name;
    if |ds| > 0 {
      TerminatedJoin(ds);
      AppendAssoc(head + " (", Join(ds, ", "), ", ");
      DropTwo(head + " (" + Join(ds, ", "), ", ");
    } else {
      DropTwo(head, " (");
    }
  }

  /** Deleting the last two characters undoes appending two. */
  lemma DropTwo(s: string, two: string)
    requires |two| == 2
    ensures var r := s + two; |r| >= 2 && r[..|r| - 2] == s
  {
    var r := s + two;
    assert r[..|s|] == s;
  }

  lemma {:induction false} DeclarationsLength(cols: seq<Column>)
    ensures |Declarations(cols)| <= |cols|
  {
    if |cols| > 0 {
      DeclarationsLength(cols[..|cols| - 1]);
    }
  }

  /** Every declaration renders a non-delegate column. */
  lemma {:induction false} DeclarationSound(cols: seq<Column>, x: string) returns (i: nat)
    requires x in Declarations(cols)
    ensures i < |cols| && cols[i].colType != Types.DELEGATE && x == Render(cols[i])
  {
    var init := cols[..|cols| - 1];
    if x in Declarations(init) {
      i := DeclarationSound(init, x);
      assert init[i] == cols[i];
    } else {
      i := |cols| - 1;
    }
  }

  /** Every non-delegate column is declared. */
  lemma {:induction false} DeclarationComplete(cols: seq<Column>, i: nat)
    requires i < |cols| && cols[i].colType != Types.DELEGATE
    ensures Render(cols[i]) in Declarations(cols)
  {
    var init := cols[..|cols| - 1];
    var last := cols[|cols| - 1];
    var rest := if last.colType != Types.DELEGATE then [Render(last)] else [];
    assert Declarations(cols) == Declarations(init) + rest;
    if i < |init| {
      assert init[i] == cols[i];
      DeclarationComplete(init, i);
    } else {
      assert last == cols[i];
      assert rest == [Render(cols[i])];
    }
  }

  /** A declaration is produced exactly for each non-delegate column, in order. */
  lemma DeclarationsExact(cols: seq<Column>)
    ensures |Declarations(cols)| <= |cols|
    ensures forall x :: x in Declarations(cols) <==>
      exists i | 0 <= i < |cols| :: cols[i].colType != Types.DELEGATE && x == Render(cols[i])
  {
    DeclarationsLength(cols);
    forall x
      ensures x in Declarations(cols) <==>
        exists i | 0 <= i < |cols| :: cols[i].colType != Types.DELEGATE && x == Render(cols[i])
    {
      if x in Declarations(cols) {
        var i := DeclarationSound(cols, x);
      }
      if exists i | 0 <= i < |cols| :: cols[i].colType != Types.DELEGATE && x == Render(cols[i]) {
        var i :| 0 <= i < |cols| && cols[i].colType != Types.DELEGATE && x == Render(cols[i]);
        DeclarationComplete(cols, i);
      }
    }
  }

  /** The statement always starts with the table name and ends with ");". */
  lemma CreateSqlShape(name: string, cols: seq<Column>)
    ensures var sql := CreateSql(name, cols);
      |sql| >= 13 + |name| + 2 && sql[..13 + |name|] == "CREATE TABLE " + name && sql[|sql| - 2..] == ");"
  {
  }

  // ---------------------------------------------------------------------
  // Declared values

  /** The two mappings one column adds. */
  function ColumnMappings(m: map<string, string>, declaredName: string, name: string, cols: seq<Column>): map<string, string> {
    if |cols| == 0 then m
    else
      var c := cols[|cols| - 1];
      ColumnMappings(m, declaredName, name, cols[..|cols| - 1])
        [c.declaredName := c.name][declaredName + "." + c.declaredName := name + "." + c.name]
  }

  /** `appendDeclaredValues`: the table's mapping, then each column's two mappings. */
  function DeclaredValues(m: map<string, string>, declaredName: string, name: string, cols: seq<Column>): map<string, string> {
    ColumnMappings(m[declaredName := name], declaredName, name, cols)
  }

  /** The keys a table adds: its declared name, each column's declared name and their dotted pairs. */
  lemma {:induction false} DeclaredKeys(m: map<string, string>, declaredName: string, name: string, cols: seq<Column>)
    ensures ColumnMappings(m, declaredName, name, cols).Keys ==
      m.Keys + (set i | 0 <= i < |cols| :: cols[i].declaredName)
             + (set i | 0 <= i < |cols| :: declaredName + "." + cols[i].declaredName)
  {
    if |cols| > 0 {
      var init := cols[..|cols| - 1];
      DeclaredKeys(m, declaredName, name, init);
      NamesSnoc(cols);
      DottedSnoc(declaredName, cols);
    }
  }

  lemma NamesSnoc(cols: seq<Column>)
    requires |cols| > 0
    ensures var init := cols[..|cols| - 1];
      (set i | 0 <= i < |cols| :: cols[i].declaredName) ==
      (set i | 0 <= i < |init| :: init[i].declaredName) + {cols[|cols| - 1].declaredName}
  {
    var init := cols[..|cols| - 1];
    assert forall i | 0 <= i < |init| :: init[i] == cols[i];
  }

  lemma DottedSnoc(declaredName: string, cols: seq<Column>)
    requires |cols| > 0
    ensures var init := cols[..|cols| - 1];
      (set i | 0 <= i < |cols| :: declaredName + "." + cols[i].declaredName) ==
      (set i | 0 <= i < |init| :: declaredName + "." + init[i].declaredName)
      + {declaredName + "." + cols[|cols| - 1].declaredName}
  {
    var init := cols[..|cols| - 1];
    assert forall i | 0 <= i < |init| :: init[i] == cols[i];
  }

  /** Declared names (Java identifiers) carry no dot, and no two columns share one. */
  predicate PlainNames(declaredName: string, cols: seq<Column>) {
    '.' !in declaredName
    && (forall i | 0 <= i < |cols| :: '.' !in cols[i].declaredName && cols[i].declaredName != declaredName)
    && (forall i, j | 0 <= i < j < |cols| :: cols[i].declaredName != cols[j].declaredName)
  }

  lemma DottedDiffers(prefix: string, a: string, b: string)
    requires '.' !in b
    ensures prefix + "." + a != b
  {
    assert (prefix + "." + a)[|prefix|] == '.';
    if |prefix + "." + a| <= |b| {
      assert b[|prefix|] in b;
    }
  }

  lemma DottedInjective(prefix: string, a: string, b: string)
    requires prefix + "." + a == prefix + "." + b
    ensures a == b
  {
    assert a == (prefix + "." + a)[|prefix| + 1..];
    assert b == (prefix + "." + b)[|prefix| + 1..];
  }

  /**
   * With plain declared names no mapping overwrites another: the table's
   * declared name maps to its name, each column's declared name to the
   * column name, and "Table.COLUMN" to "table.column".
   */
  lemma {:induction false} DeclaredMappings(m: map<string, string>, declaredName: string, name: string, cols: seq<Column>)
    requires PlainNames(declaredName, cols)
    ensures var r := DeclaredValues(m, declaredName, name, cols);
      declaredName in r && r[declaredName] == name
      && forall i | 0 <= i < |cols| ::
        cols[i].declaredName in r && r[cols[i].declaredName] == cols[i].name
        && declaredName + "." + cols[i].declaredName in r
        && r[declaredName + "." + cols[i].declaredName] == name + "." + cols[i].name
  {
    if |cols| > 0 {
      var init := cols[..|cols| - 1];
      var c := cols[|cols| - 1];
      assert PlainNames(declaredName, init);
      DeclaredMappings(m, declaredName, name, init);
      DottedDiffers(declaredName, c.declaredName, declaredName);
      forall i | 0 <= i < |init|
        ensures init[i].declaredName != declaredName + "." + c.declaredName
        ensures declaredName + "." + init[i].declaredName != c.declaredName
        ensures declaredName + "." + init[i].declaredName != declaredName + "." + c.declaredName
      {
        assert init[i] == cols[i];
        DottedDiffers(declaredName, c.declaredName, init[i].declaredName);
        DottedDiffers(declaredName, init[i].declaredName, c.declaredName);
        if declaredName + "." + init[i].declaredName == declaredName + "." + c.declaredName {
          DottedInjective(declaredName, init[i].declaredName, c.declaredName);
        }
      }
    }
  }

  // ---------------------------------------------------------------------
  // The table object

  class Table {
    var isLocal: bool
    var referencedBy: seq<Views.View>
    var columns: map<string, Column>
    /** The iteration order of `columns.values()`. */
    var columnOrder: seq<string>
    var name: Option<string>
    var declaredName: string
    var syncId: Option<Column>
    var parentId: Option<Column>
    var parentTableName: Option<string>
    var parentTableFromContext: Option<Row -> Option<string>>
    var creationDate: Option<Column>

    function State(): Scan
      reads this
    {
      Scan(name, columns, columnOrder, syncId, creationDate, parentId, parentTableName, parentTableFromContext)
    }

    /** A constructed table: named, its column list matching its column map. */
    ghost predicate Valid()
      reads this
    {
      name.Some? && WellFormed(State())
    }

    /** The columns in iteration order. */
    ghost function OrderedColumns(): (cols: seq<Column>)
      reads this
      requires Valid()
      ensures |cols| == |columnOrder| && forall i | 0 <= i < |cols| :: cols[i] == columns[columnOrder[i]]
    {
      InOrder(State())
    }

    constructor Init(declaredName: string, isLocal: bool)
      ensures State() == EMPTY_SCAN && this.declaredName == declaredName && this.isLocal == isLocal
      ensures referencedBy == []
    {
      this.declaredName := declaredName;
      this.isLocal := isLocal;
      referencedBy := [];
      columns := map[];
      columnOrder := [];
      name := None;
      syncId := None;
      parentId := None;
      parentTableName := None;
      parentTableFromContext := None;
      creationDate := None;
    }

    /** `setSyncIdColumn`: refuses a second sync id. */
    method SetSyncIdColumn(c: Column) returns (ok: bool)
      modifies this`syncId
      ensures ok <==> old(syncId).None?
      ensures syncId == if ok then Some(c) else old(syncId)
    {
      if syncId.None? {
        syncId := Some(c);
        ok := true;
      } else {
        ok := false;
      }
    }

    /** `setCreationDateColumn`: refuses a second creation date. */
    method SetCreationDateColumn(c: Column) returns (ok: bool)
      modifies this`creationDate
      ensures ok <==> old(creationDate).None?
      ensures creationDate == if ok then Some(c) else old(creationDate)
    {
      if creationDate.None? {
        creationDate := Some(c);
        ok := true;
      } else {
        ok := false;
      }
    }

    /** `setParentIdColumn`: refuses a second parent id. */
    method SetParentIdColumn(c: Column) returns (ok: bool)
      modifies this`parentId
      ensures ok <==> old(parentId).None?
      ensures parentId == if ok then Some(c) else old(parentId)
    {
      if parentId.None? {
        parentId := Some(c);
        ok := true;
      } else {
        ok := false;
      }
    }

    /** One iteration of the constructor's loop; false stands for the `IllegalArgumentException`. */
    method AddFieldTo(f: Field) returns (ok: bool)
      modifies this`name, this`columns, this`columnOrder, this`syncId, this`creationDate,
        this`parentId, this`parentTableName, this`parentTableFromContext
      ensures ok <==> AddField(old(State()), f).Ok?
      ensures ok ==> State() == AddField(old(State()), f).value
    {
      ok := true;
      if f.tableName {
        name := Some(f.value);
      } else if f.column.Some? || f.name == "_ID" {
        ok := AddColumnTo(f);
      }
    }

    /** The column branch of the loop: put the column, then take each designation it carries. */
    method AddColumnTo(f: Field) returns (ok: bool)
      requires IsColumnField(f)
      modifies this`columns, this`columnOrder, this`syncId, this`creationDate,
        this`parentId, this`parentTableName, this`parentTableFromContext
      ensures ok <==> AddField(old(State()), f).Ok?
      ensures ok ==> State() == AddField(old(State()), f).value
    {
      var c := ColumnOf(f);
      if c.name !in columns {
        columnOrder := columnOrder + [c.name];
      }
      columns := columns[c.name := c];
      assert State() == PutColumn(old(State()), c);
      ok := true;
      if f.syncId {
        ok := SetSyncIdColumn(c);
        if !ok { return; }
      }
      ghost var s2 := State();
      if f.creationDate {
        ok := SetCreationDateColumn(c);
        if !ok { return; }
      }
      ghost var s3 := State();
      assert s3 == if f.creationDate then s2.(creationDate := Some(c)) else s2;
      if f.parentId.Some? {
        ok := SetParentIdColumn(c);
        if !ok { return; }
        var p := f.parentId.value;
        parentTableName := Some(p.parentTable);
        if p.parentTable == TABLE_FROM_CONTEXT {
          parentTableName := None;
          parentTableFromContext := Some(p.parentTableFromContext);
        }
        assert State() == SetParent(s3, c, p);
      }
    }

    /**
     * The constructor: the table of a description, or the exception it
     * raises (`IllegalArgumentException` for a repeated designation,
     * `NoSuchFieldException` when no field names the table).
     */
    static method Load(d: Description) returns (r: Result<Table>)
      ensures r.Ok? <==> Describe(d).Ok?
      ensures r.Err? ==> r.error == Describe(d).error
      ensures r.Ok? ==> fresh(r.value) && r.value.Valid() && r.value.State() == Describe(d).value
      ensures r.Ok? ==> r.value.isLocal == d.local && r.value.declaredName == d.simpleName && r.value.referencedBy == []
    {
      var t := new Table.Init(d.simpleName, d.local);
      for i := 0 to |d.fields|
        invariant fresh(t) && t.declaredName == d.simpleName && t.isLocal == d.local && t.referencedBy == []
        invariant ScanFields(d.fields[..i]).Ok? && t.State() == ScanFields(d.fields[..i]).value
      {
        assert d.fields[..i + 1][..i] == d.fields[..i];
        var ok := t.AddFieldTo(d.fields[i]);
        if !ok {
          assert ScanFields(d.fields[..i + 1]).Err?;
          ScanErrSticks(d.fields, i + 1);
          return Err(IllegalArgument);
        }
      }
      assert d.fields[..|d.fields|] == d.fields;
      AtMostOnce(d.fields);
      if t.name.None? {
        return Err(NoSuchField);
      }
      return Ok(t);
    }

    /** `create`: each non-delegate column followed by ", ", the last two characters deleted, then ");". */
    method Create() returns (sql: string)
      requires Valid()
      ensures sql == CreateSql(name.value, OrderedColumns())
    {
      var head := "CREATE TABLE " + name.value + " (";
      var result := Declare(head, InOrder(State()));
      CreateFinish(name.value, OrderedColumns());
      sql := result[..|result| - 2] + ");";
    }

    /** The loop of `create`: each non-delegate column's declaration followed by ", ". */
    static method Declare(head: string, cols: seq<Column>) returns (result: string)
      ensures result == head + Terminated(Declarations(cols))
    {
      result := head;
      for i := 0 to |cols|
        invariant result == head + Terminated(Declarations(cols[..i]))
      {
        DeclareStep(head, cols, i, result);
        if cols[i].colType != Types.DELEGATE {
          result := result + Render(cols[i]) + ", ";
        }
      }
      assert cols[..|cols|] == cols;
    }

    /** `appendDeclaredValues`: the caller's map with this table's mappings put into it. */
    method AppendDeclaredValues(values: map<string, string>) returns (r: map<string, string>)
      requires Valid()
      ensures r == DeclaredValues(values, declaredName, name.value, OrderedColumns())
    {
      var cols := OrderedColumns();
      r := values[declaredName := name.value];
      for i := 0 to |columnOrder|
        invariant r == ColumnMappings(values[declaredName := name.value], declaredName, name.value, cols[..i])
      {
        var c := columns[columnOrder[i]];
        assert cols[..i + 1][..i] == cols[..i];
        r := r[c.declaredName := c.name];
        r := r[declaredName + "." + c.declaredName := name.value + "." + c.name];
      }
      assert cols[..|columnOrder|] == cols;
    }

    predicate HasColumn(columnName: string)
      reads this
    {
      columnName in columns
    }

    /** `getColumn`: the column of that name, or an `IllegalArgumentException`. */
    function GetColumn(columnName: string): (r: Result<Column>)
      reads this
      requires Valid()
      ensures r.Ok? <==> HasColumn(columnName)
      ensures r.Ok? ==> r.value == columns[columnName] && r.value.name == columnName
      ensures r.Err? ==> r.error == IllegalArgument
    {
      if columnName in columns then Ok(columns[columnName]) else Err(IllegalArgument)
    }

    /**
     * `getParentTable`: the static parent table name when there is one,
     * otherwise what the context derives from the entity; with neither, a
     * `NullPointerException`.
     */
    function GetParentTable(entity: Row): (r: Result<Option<string>>)
      reads this
      ensures parentTableName.Some? ==> r == Ok(parentTableName)
      ensures parentTableName.None? && parentTableFromContext.Some? ==> r == Ok(parentTableFromContext.value(entity))
      ensures r.Err? <==> parentTableName.None? && parentTableFromContext.None?
    {
      if parentTableName.Some? then Ok(parentTableName)
      else if parentTableFromContext.Some? then Ok(parentTableFromContext.value(entity))
      else Err(NullPointer)
    }

    method AddReferencedBy(v: Views.View)
      modifies this`referencedBy
      ensures referencedBy == old(referencedBy) + [v]
    {
      referencedBy := referencedBy + [v];
    }
  }

  /** Once the scan fails it stays failed. */
  lemma {:induction false} ScanErrSticks(fields: seq<Field>, i: nat)
    requires i <= |fields| && ScanFields(fields[..i]).Err?
    ensures ScanFields(fields) == ScanFields(fields[..i])
    decreases |fields| - i
  {
    if i < |fields| {
      assert fields[..i + 1][..i] == fields[..i];
      ScanErrSticks(fields, i + 1);
    } else {
      assert fields[..i] == fields;
    }
  }
}
