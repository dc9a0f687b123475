# An offline-first Android sync layer, modelled in Dafny

This project models the core of a library that keeps a local SQLite cache in
step with a remote REST service. It covers:

- the schema: tables and views declared by annotated description classes,
  their SQL, and the registration of views on the tables they read
  (`Table`, `Column`, `Database`, `SingleSelectView`, `UnionView`);
- the mutation gateway (`DataProvider`): content addresses and their
  options, the change journal written beside every local write, the UID
  counters kept per table column, notification aggregation across batches
  and explicit transactions, and the registry that rejects a second
  concurrent sync of one filter;
- the reconciliation engine (`DataProcessor`): remote records bucketed per
  table into duplicate-free sorted sets, then applied in ascending depth.
  The main table is merged against the local rows (update on equal ids,
  insert-or-update for remote-only ids, a conditional delete for
  local-only rows that respects pending journal entries and creation
  dates);
- queries (`Select` and its builder) and the filters that turn a local
  query into remote api paths (`CollectionFilter`, `StaticFilter`).

The relational store, the remote adapter and the clock are not modelled as
code. What they answer (row ids, affected counts, matching rows, fetched
records, start times, cancellations) is a parameter of each operation. What
is written to the store, and every notification sent, is appended to a log
of events that the contracts describe exactly.

Each Java class whose fields change in place is a Dafny `class` with those
fields, proved against pure specification functions. Each value type is a
`datatype`. A thrown exception is the `Err` case of a `Result`; Java's null
is `None`.

## Model

| member | source | states |
|---|---|---|
| Affinity.AsString | src/cat/mobilejazz/database/Affinity.java:11-26 | every value gets an upper-case SQLite affinity name; exactly NONE and the undeclared values give "NONE" |
| Affinity.Names | src/cat/mobilejazz/database/Affinity.java:5-26 | the five constants are distinct and each renders as its own name |
| Affinity.AsStringInjective | src/cat/mobilejazz/database/Affinity.java:11-26 | no two declared affinities share a name |
| Types.AsString | src/cat/mobilejazz/database/Type.java:38-55 | the six named types render non-empty; "unkown" exactly for the delegate id kinds and undeclared values |
| Types.Names | src/cat/mobilejazz/database/Type.java:12-55 | the type constants are distinct, the delegate id kinds are unnamed, and each named type renders as its Java spelling |
| Types.AsStringInjective | src/cat/mobilejazz/database/Type.java:38-55 | no two named types share a name |
| SqlUtils.GetBoolean | src/cat/mobilejazz/database/SQLUtils.java:59-61 | true exactly when the cell's int value is positive |
| SqlUtils.GetLong | src/cat/mobilejazz/database/SQLUtils.java:63-69 | null exactly for a null cell, otherwise the cell's long |
| SqlUtils.FormatBoolean | src/cat/mobilejazz/database/SQLUtils.java:71-75 | null stays null; true is stored as 1 and false as 0 |
| SqlUtils.BooleanRoundTrip | src/cat/mobilejazz/database/SQLUtils.java:59-75 | reading back a formatted boolean gives the boolean |
| SqlUtils.GetStringArray | src/cat/mobilejazz/database/SQLUtils.java:91-103 | null exactly for a negative index or a null cell; the cursor's IllegalStateException exactly for an index at or past the row's width; otherwise Java's split of the cell on ',' |
| SqlUtils.ParseArray | src/cat/mobilejazz/database/SQLUtils.java:105-121 | the cursor's IllegalStateException passes through; a null split is a NullPointerException; otherwise a fresh array, element i parsed from segment i, or NumberFormatException exactly when some segment does not parse |
| SqlUtils.ParseAllPrefix | src/cat/mobilejazz/database/SQLUtils.java:108-110 | a prefix that fails to parse makes the whole array fail |
| SqlUtils.GetLongArray | src/cat/mobilejazz/database/SQLUtils.java:105-112 | the array loop with long bounds: the cursor's exception or NullPointerException as for getStringArray; otherwise NumberFormatException exactly when a segment is not a long |
| SqlUtils.GetIntArray | src/cat/mobilejazz/database/SQLUtils.java:114-121 | the array loop with int bounds: the cursor's exception or NullPointerException as for getStringArray; otherwise NumberFormatException exactly when a segment is not an int |
| SqlUtils.LongListRoundTrip | src/cat/mobilejazz/database/SQLUtils.java:105-112 | rendered longs parse back to the same longs |
| SqlUtils.FormatDate | src/cat/mobilejazz/database/SQLUtils.java:77-89 | null exactly for a null date, otherwise the format's rendering |
| SqlUtils.ParseDate | src/cat/mobilejazz/database/SQLUtils.java:25-39 | null or empty text is null; otherwise the parser's value, or ParseException exactly when it fails |
| SqlUtils.GetDate | src/cat/mobilejazz/database/SQLUtils.java:41-57 | a value exactly when the text is non-empty and parses; a parse failure reads as null |
| EntityContexts.Get | src/cat/mobilejazz/database/StaticValue.java:18-21 | a static value yields its constant for every entity; an instance yields its own answer |
| EntityContexts.GetFromAnnotation | src/cat/mobilejazz/database/annotation/EntityContextHelper.java:8-22 | IllegalArgumentException exactly for the marker with the placeholder class; the marker with a real class gives an instance; another non-empty constant a static value; null exactly for the empty constant |
| EntityContexts.ConstantForEveryEntity | src/cat/mobilejazz/database/annotation/EntityContextHelper.java:17-18 | a non-marker constant yields the same value for any two entities |
| StaticFilters.StaticFilter.constructor | src/cat/mobilejazz/database/filter/StaticFilter.java:21-24 | keeps both filters |
| StaticFilters.StaticFilter.GetLocalFilter | src/cat/mobilejazz/database/filter/StaticFilter.java:26-33 | the local select when present, else the remote filter's select; null exactly when both are absent |
| StaticFilters.StaticFilter.SetListener | src/cat/mobilejazz/database/filter/StaticFilter.java:40-44 | the listener is told exactly once, at once |
| SqlUtils.ParseAll | src/cat/mobilejazz/database/SQLUtils.java:105-121 | the segments parse exactly when each one does, and then element i is segment i's value |
| Columns.PathPieces | src/cat/mobilejazz/database/Column.java:44 | the path pieces contain no '$' and, rejoined with '$', give back the name up to trailing '$'s |
| Columns.HasPathIff | src/cat/mobilejazz/database/Column.java:44-45 | a column has a path exactly when its name has a '$' followed somewhere later by a character other than '$' |
| Columns.Parse | src/cat/mobilejazz/database/Column.java:52-58 | the parser's value; IllegalStateException exactly when the column has no parser |
| Columns.HasParserIffParses | src/cat/mobilejazz/database/Column.java:48-58 | `hasParser` is true exactly when `parse` succeeds |
| Columns.FullName | src/cat/mobilejazz/database/Column.java:96-98 | the table's name, one '.', then the column's name |
| Columns.RenderShape | src/cat/mobilejazz/database/Column.java:118-132 | starts with the name, a space and the affinity's name; nothing follows exactly when default and constraint are both empty |
| Columns.RenderNamesColumn | src/cat/mobilejazz/database/Column.java:118-132 | for a name without spaces, the first word of the declaration is the column's name |
| DataEntries.NewEntry | src/cat/mobilejazz/database/content/DataEntry.java:28-30 | the two-argument constructor gives parent id 0 and keeps the server id and the values |
| DataEntries.Compare | src/cat/mobilejazz/database/content/DataEntry.java:32-40 | 1 exactly when a > b, -1 exactly when a < b, otherwise 0 |
| DataEntries.CompareTo | src/cat/mobilejazz/database/content/DataEntry.java:42-51 | the result is always -1, 0 or 1 |
| DataEntries.CompareToLexicographic | src/cat/mobilejazz/database/content/DataEntry.java:42-51 | -1, 1 and 0 exactly for a lexicographically smaller, greater and equal (parent id, server id) key |
| DataEntries.CompareToTotalOrder | src/cat/mobilejazz/database/content/DataEntry.java:42-51 | the comparison is reflexive, antisymmetric and transitive |
| DataEntries.NewEntryOrder | src/cat/mobilejazz/database/content/DataEntry.java:28-51 | parentless entries compare by server id alone |
| DataEntries.CompareToNegative | src/cat/mobilejazz/database/content/DataEntry.java:42-51 | negative exactly for a smaller key, zero exactly for an equal one |
| DataEntries.Add | src/cat/mobilejazz/database/content/DataProcessor.java:428 | adding to a bucket keeps it strictly ascending; the keys gain the new key; an entry whose key is present leaves the bucket unchanged, otherwise exactly the new entry is added |
| DataEntries.AddParentless | src/cat/mobilejazz/database/content/DataProcessor.java:422-428 | among parentless entries, the server ids gain the new id, and a repeated server id leaves the bucket unchanged |
| DataEntries.AsLong | src/cat/mobilejazz/database/content/DataProcessor.java:428 | `ContentValues.getAsLong` of a value: a long as it is, a string exactly as `Long.valueOf` parses it, null otherwise |
| DataEntries.GetAsLong | src/cat/mobilejazz/database/content/DataProcessor.java:428 | `getAsLong` of a key: null when the key is absent, else the value read as a long |
| DataEntries.GetAsLongRoundTrip | src/cat/mobilejazz/database/content/DataProcessor.java:428 | a long stored under a key, or its decimal string, reads back as that long |
| Tables.ColumnOf | src/cat/mobilejazz/database/Table.java:79-106 | a column field yields a column named by the field's value and declared by the field's name; without `@Column` the `_ID` defaults; a non-empty delegate forces the delegate type; otherwise every annotation attribute is carried over |
| Tables.AtMostOnce | src/cat/mobilejazz/database/Table.java:41-66 | the field loop fails, with IllegalArgumentException, exactly when some designation (sync id, creation date, parent id) is carried by two column fields; otherwise each designation is set exactly when one field carries it, and the columns stay keyed by name in first-insertion order |
| Tables.AddFieldDesignations | src/cat/mobilejazz/database/Table.java:107-125 | one field fails exactly when it repeats a designation already taken; on success the designations are the old ones plus the field's |
| Tables.AddFieldWellFormed | src/cat/mobilejazz/database/Table.java:76-127 | one loop iteration keeps the columns keyed by name and listed once each |
| Tables.PutColumnWellFormed | src/cat/mobilejazz/database/Table.java:107 | `columns.put` keeps the columns keyed by name and listed once each |
| Tables.AddColumnShape | src/cat/mobilejazz/database/Table.java:105-107 | a successful column field changes the columns and their order only by putting its column |
| Tables.AddFieldName | src/cat/mobilejazz/database/Table.java:77-78 | a table-name field sets the name; any other field keeps it |
| Tables.ScanName | src/cat/mobilejazz/database/Table.java:76-78 | after the loop the name is the value of the last table-name field |
| Tables.TableNameField | src/cat/mobilejazz/database/Table.java:76-78 | the table is named iff some field carries `@TableName`, and then by the last such field |
| Tables.NoTableName | src/cat/mobilejazz/database/Table.java:128-130 | NoSuchFieldException exactly when the loop succeeds and no field names the table |
| Tables.ScanErrSticks | src/cat/mobilejazz/database/Table.java:76-127 | an exception at some field ends the constructor with that exception |
| Tables.Table.Init | src/cat/mobilejazz/database/Table.java:70-74 | a new table has the declared name and local flag, no columns, no designation and no referencing views |
| Tables.Table.SetSyncIdColumn | src/cat/mobilejazz/database/Table.java:41-48 | the column becomes the sync id exactly when none was set; otherwise the call fails and the sync id is unchanged |
| Tables.Table.SetCreationDateColumn | src/cat/mobilejazz/database/Table.java:50-57 | the column becomes the creation date exactly when none was set; otherwise the call fails and nothing changes |
| Tables.Table.SetParentIdColumn | src/cat/mobilejazz/database/Table.java:59-66 | the column becomes the parent id exactly when none was set; otherwise the call fails and nothing changes |
| Tables.Table.AddFieldTo | src/cat/mobilejazz/database/Table.java:77-126 | one loop iteration on the object succeeds exactly when the value-level step does, and leaves the object in the state that step computes |
| Tables.Table.AddColumnTo | src/cat/mobilejazz/database/Table.java:79-126 | the column branch on the object: put the column, then take each designation, matching the value-level step |
| Tables.Table.Load | src/cat/mobilejazz/database/Table.java:68-131 | the constructor succeeds exactly when the description does; then the fresh table holds the described columns and designations, the declared name and local flag; otherwise it raises the description's exception |
| Tables.InOrder | src/cat/mobilejazz/database/Table.java:138 | the columns listed in the order of their names, one per name |
| Tables.Table.OrderedColumns | src/cat/mobilejazz/database/Table.java:138 | the table's columns in iteration order, one per listed name |
| Tables.Table.Declare | src/cat/mobilejazz/database/Table.java:138-143 | the loop appends each non-delegate column's declaration followed by ", " |
| Tables.DeclareStep | src/cat/mobilejazz/database/Table.java:139-142 | one column more appends its declaration and ", " unless it is a delegate |
| Tables.CreateFinish | src/cat/mobilejazz/database/Table.java:145 | deleting the last two characters and appending ");" closes the statement |
| Tables.Table.Create | src/cat/mobilejazz/database/Table.java:133-150 | the statement is "CREATE TABLE name (" followed by the declarations of the non-delegate columns separated by ", " and then ");" |
| Tables.DeclarationSound | src/cat/mobilejazz/database/Table.java:138-143 | every declaration in the statement renders some non-delegate column |
| Tables.DeclarationComplete | src/cat/mobilejazz/database/Table.java:138-143 | every non-delegate column is declared |
| Tables.DeclarationsExact | src/cat/mobilejazz/database/Table.java:138-143 | the declarations are exactly those of the non-delegate columns, at most one per column |
| Tables.CreateSqlShape | src/cat/mobilejazz/database/Table.java:136-145 | the statement starts with "CREATE TABLE " and the name and ends with ");" |
| Tables.DeclaredKeys | src/cat/mobilejazz/database/Table.java:165-171 | the keys added are the table's declared name, each column's declared name and each "Table.COLUMN" pair |
| Tables.DeclaredMappings | src/cat/mobilejazz/database/Table.java:152-171 | with dot-free, distinct declared names the table's declared name maps to its name, each column's declared name to its name and "Table.COLUMN" to "table.column" |
| Tables.Table.AppendDeclaredValues | src/cat/mobilejazz/database/Table.java:165-171 | the caller's map with the table's mapping and each column's two mappings put into it, in column order |
| Tables.Table.GetColumn | src/cat/mobilejazz/database/Table.java:206-217 | the column stored under that name exactly when one exists; otherwise IllegalArgumentException |
| Tables.Table.GetParentTable | src/cat/mobilejazz/database/Table.java:257-263 | the static parent table name when set; otherwise what the context derives from the entity; with neither, NullPointerException |
| Tables.Table.AddReferencedBy | src/cat/mobilejazz/database/Table.java:202-204 | the view is appended to the referencing views |
| Changes.ActionsDistinct | src/cat/mobilejazz/database/content/Changes.java:13-15 | the three journal action codes are pairwise distinct |
| Changes.JournalTable | src/cat/mobilejazz/database/content/Changes.java:10-91 | the journal description loads as the local table "db_changes" with its seven annotated columns and the inherited `_id` primary key, in that order, and with no sync id, creation date or parent id |
| Changes.ScanAppend | src/cat/mobilejazz/database/Table.java:76-127 | scanning two runs of fields is scanning the second from where the first left off |
| Changes.PutKeys | src/cat/mobilejazz/database/Table.java:107 | putting columns adds exactly their names to the keys and changes no designation |
| Changes.PutFresh | src/cat/mobilejazz/database/Table.java:107 | columns with new, distinct names are appended to the order in turn |
| Changes.PutLookup | src/cat/mobilejazz/database/Table.java:107 | columns with distinct names are each found under their own name |
| Views.NewViewColumn | src/cat/mobilejazz/database/SingleSelectView.java:24-32 | a null or empty name becomes the literal "NULL", so every column has a non-empty name; alias and aggregation are kept as given |
| Views.NewPlainColumn | src/cat/mobilejazz/database/SingleSelectView.java:20-22 | the two-argument constructor is the three-argument one without aggregation |
| Views.Aggregate | src/cat/mobilejazz/database/SingleSelectView.java:42-49 | "agg(x)" exactly when an aggregation is given, otherwise x unchanged |
| Views.RenderColumn | src/cat/mobilejazz/database/SingleSelectView.java:51-61 | with a non-empty alias, the aggregated alias then " AS " and the name; otherwise the aggregated name |
| Views.NullColumnRendering | src/cat/mobilejazz/database/SingleSelectView.java:14 | the `NULL` column renders as "NULL" |
| Views.NewLeftJoin | src/cat/mobilejazz/database/SingleSelectView.java:77-79 | the four-argument dependency joins with "LEFT JOIN" and keeps table, alias and both columns |
| Views.NewSimpleJoin | src/cat/mobilejazz/database/SingleSelectView.java:73-75 | the three-argument dependency is the four-argument one without alias |
| Views.JoinClause | src/cat/mobilejazz/database/SingleSelectView.java:105-111 | " join table[ alias] ON left = right", the alias written exactly when it is present |
| Views.BuildSingleSelect | src/cat/mobilejazz/database/SingleSelectView.java:148-162 | the loop builds "SELECT cols FROM first" followed by each later dependency's join clause and the suffix; with no dependency, NoSuchElementException |
| Views.SingleSelectShape | src/cat/mobilejazz/database/SingleSelectView.java:148-162 | the statement exists exactly when there is a dependency; it starts with "SELECT " and ends with the suffix |
| Views.FirstJoinUnused | src/cat/mobilejazz/database/SingleSelectView.java:154-159 | only the first dependency's table is read: its join type, alias and columns do not affect the statement |
| Views.OnePartUnion | src/cat/mobilejazz/database/UnionView.java:39-42 | a union of a single part renders exactly that part's statement |
| Views.PartDependenciesMembers | src/cat/mobilejazz/database/UnionView.java:30-37 | the concatenated dependencies contain a name exactly when some part depends on it |
| Views.UnionDependencies | src/cat/mobilejazz/database/UnionView.java:30-37 | a union depends on exactly what its parts depend on |
| Views.PartStatementsOk | src/cat/mobilejazz/database/UnionView.java:39-42 | a union's statement fails exactly when some part's statement fails |
| Views.CreateStatement | src/cat/mobilejazz/database/View.java:17-22 | exactly one statement "CREATE VIEW name AS " followed by the view's select statement, failing exactly when the select does |
| Views.FindView | src/cat/mobilejazz/database/Database.java:98-105 | a view exactly when one of that name is registered, and then one of that name |
| Views.FindViewFirst | src/cat/mobilejazz/database/Database.java:98-105 | the view found is the first registered under that name |
| Databases.LoadedTables | src/cat/mobilejazz/database/Database.java:61-69 | the table loop fails, always with IllegalArgumentException, exactly when some description repeats a designation; otherwise it loads exactly the descriptions that name a table |
| Databases.LoadedErrSticks | src/cat/mobilejazz/database/Database.java:66-69 | an exception from one `appendTable` ends the constructor with that exception |
| Databases.SchemaLastWins | src/cat/mobilejazz/database/Database.java:152 | a name is in the table map exactly when some loaded table carries it, and then maps to the last such table |
| Databases.LoadStep | src/cat/mobilejazz/database/Database.java:148-156 | one more table replaces the entry under its name, and its name joins the iteration order only when new |
| Databases.WalkSound | src/cat/mobilejazz/database/Database.java:46-59 | every registration the walk makes pairs a table with a view that reads it; the walk fails only with NullPointerException |
| Databases.WalkDepsSound | src/cat/mobilejazz/database/Database.java:47-58 | the walk over part of a view's dependencies makes only such registrations and fails only with NullPointerException |
| Databases.WalkRegistersDirect | src/cat/mobilejazz/database/Database.java:50-53 | a view is registered on every table it reads directly |
| Databases.WalkIncludesSubview | src/cat/mobilejazz/database/Database.java:54-57 | a dependency naming a view makes the walk include every registration of that view's own walk |
| Databases.WalkDepsErrSticks | src/cat/mobilejazz/database/Database.java:47-58 | a failing dependency fails the whole walk |
| Databases.WalkAllErrSticks | src/cat/mobilejazz/database/Database.java:70-74 | a failing view fails the constructor's second loop |
| Databases.RegisteredOnAppend | src/cat/mobilejazz/database/Table.java:202-204 | the views registered on a table by two runs of registrations are those of the first run then those of the second |
| Databases.RegisteredOnMembers | src/cat/mobilejazz/database/Table.java:202-204 | a view is among those registered on a table exactly when that registration was made |
| Databases.ViewStatementsShape | src/cat/mobilejazz/database/Database.java:112-115 | the view statements exist exactly when every view's select does, one CREATE VIEW per view in order |
| Databases.ViewStatementsErrSticks | src/cat/mobilejazz/database/Database.java:112-115 | a failing view stops the view statements |
| Databases.TableStatements | src/cat/mobilejazz/database/Database.java:108-111 | one CREATE TABLE per table in iteration order |
| Databases.DropStatements | src/cat/mobilejazz/database/Database.java:118-125 | a DROP TABLE IF EXISTS per table in iteration order, then a DROP VIEW IF EXISTS per view |
| Databases.InTableOrder | src/cat/mobilejazz/database/Database.java:129 | the tables listed in the map's iteration order |
| Databases.AllDeclaredKeys | src/cat/mobilejazz/database/Database.java:127-133 | the declared values hold exactly the keys every table adds: its declared name, its columns' declared names and the dotted pairs |
| Databases.AllDeclaredSnoc | src/cat/mobilejazz/database/Database.java:129-131 | one more table puts its own mappings into the map built so far |
| Databases.Database.Init | src/cat/mobilejazz/database/Database.java:63-64 | the database starts with no table and the given views |
| Databases.Database.PutTable | src/cat/mobilejazz/database/Database.java:152 | the table replaces any table of the same name; its name joins the iteration order only when new |
| Databases.Database.AppendTable | src/cat/mobilejazz/database/Database.java:148-156 | a description naming a table is loaded as a fresh table and put under its name; one naming no table is ignored; a repeated designation is the exception reported |
| Databases.Database.AppendStep | src/cat/mobilejazz/database/Database.java:67-69 | one iteration of the table loop keeps the map equal to the tables loaded so far |
| Databases.Database.AppendNext | src/cat/mobilejazz/database/Database.java:67-69 | the same iteration on the descriptions loaded so far: it throws exactly when loading them and this one fails, with that exception, and otherwise holds exactly what they load |
| Databases.Database.AppendTables | src/cat/mobilejazz/database/Database.java:66-69 | the journal and each class are appended in turn; the loop fails with IllegalArgumentException exactly when loading fails, and otherwise holds exactly the loaded tables |
| Databases.Database.PropagateDependencies | src/cat/mobilejazz/database/Database.java:46-59 | succeeds exactly when the walk of the view does, and adds exactly the walk's registrations to the tables |
| Databases.Database.PropagateOne | src/cat/mobilejazz/database/Database.java:48-57 | one dependency: register the view on a table, or walk the view of that name, or fail when there is none |
| Databases.Database.Reference | src/cat/mobilejazz/database/Database.java:53 | the view is registered on the named table and on no other |
| Databases.Database.PropagateAll | src/cat/mobilejazz/database/Database.java:70-74 | every view is walked in order; the loop succeeds exactly when every walk does and adds all their registrations |
| Databases.Database.New | src/cat/mobilejazz/database/Database.java:20-75 | the journal and the table classes are loaded first, then every view registered on the tables it reads; a repeated designation fails with IllegalArgumentException, a dependency naming neither table nor view with NullPointerException; on success each table is referenced by exactly the views registered on it |
| Databases.Database.GetTable | src/cat/mobilejazz/database/Database.java:94-96 | the table of that name exactly when one is registered |
| Databases.Database.GetView | src/cat/mobilejazz/database/Database.java:98-105 | the first view of that name, or null |
| Databases.Database.CreateTable | src/cat/mobilejazz/database/Database.java:110 | the CREATE TABLE statement of the table under that name |
| Databases.Database.CreateTables | src/cat/mobilejazz/database/Database.java:108-111 | one CREATE TABLE per table, in iteration order |
| Databases.Database.CreateDatabase | src/cat/mobilejazz/database/Database.java:107-116 | the table statements then the view statements; fails exactly when some view's select fails |
| Databases.Database.DropAll | src/cat/mobilejazz/database/Database.java:118-125 | a DROP TABLE IF EXISTS per table, then a DROP VIEW IF EXISTS per view |
| Databases.Database.DeclareTable | src/cat/mobilejazz/database/Database.java:130 | the table under that name puts its declared mappings into the map |
| Databases.Database.GetDeclaredValues | src/cat/mobilejazz/database/Database.java:127-133 | every table's mappings put into one map, in table order |
| Query.NewSelect | src/cat/mobilejazz/database/query/Select.java:146-148 | a select of a table alone: projection, selection, arguments and sort order are all null |
| Query.PlaceholderList | src/cat/mobilejazz/database/query/Select.java:68-76 | "(?" then ",?" per further value then ")": one '?' per value, and a single '?' even for no value |
| Query.Grouped | src/cat/mobilejazz/database/query/Select.java:41-47 | one `group_concat` column per column given |
| Query.Rendered | src/cat/mobilejazz/database/query/Select.java:110-116 | one decimal string per long value |
| Query.ClauseCount | src/cat/mobilejazz/database/query/Select.java:133-136 | joining one more clause with " AND " adds exactly that clause's placeholders |
| Query.OpClauseCount | src/cat/mobilejazz/database/query/Select.java:49-53 | an operator clause has exactly one placeholder when column and operator have none |
| Query.ListClauseCount | src/cat/mobilejazz/database/query/Select.java:68-76 | a list clause has one placeholder per value, and one for an empty list |
| Query.CountCharAbsent | src/cat/mobilejazz/database/query/Select.java:63-66 | a string without '?' has no placeholder |
| Query.Builder.constructor | src/cat/mobilejazz/database/query/Select.java:30-34 | the builder starts on its table with no clause, no argument, and so balanced |
| Query.Builder.Projection | src/cat/mobilejazz/database/query/Select.java:36-39 | the projection becomes exactly the columns given |
| Query.Builder.GroupedProjection | src/cat/mobilejazz/database/query/Select.java:41-47 | the projection becomes every column wrapped in `group_concat`, count and order kept |
| Query.Builder.ConstraintOp | src/cat/mobilejazz/database/query/Select.java:49-53 | appends the clause "column op ?" and exactly one argument, so a balanced builder stays balanced |
| Query.Builder.ConstraintEquals | src/cat/mobilejazz/database/query/Select.java:55-57 | the operator clause with "=" and its argument |
| Query.Builder.ConstraintIs | src/cat/mobilejazz/database/query/Select.java:59-61 | the operator clause with "IS" and its argument |
| Query.Builder.ConstraintIsNull | src/cat/mobilejazz/database/query/Select.java:63-66 | appends "column IS NULL" and no argument, keeping the balance |
| Query.Builder.SelectionConstraintList | src/cat/mobilejazz/database/query/Select.java:68-76 | appends "column op (?,...,?)" built by the loop |
| Query.Builder.AppendArgs | src/cat/mobilejazz/database/query/Select.java:80-82 | the values are appended to the arguments in order |
| Query.Builder.ConstraintList | src/cat/mobilejazz/database/query/Select.java:78-108 | one placeholder list and the values in order; a non-empty list keeps the balance, an empty one leaves one placeholder without argument |
| Query.Builder.ConstraintIn | src/cat/mobilejazz/database/query/Select.java:78-84 | an IN list over the values in order, balanced when non-empty |
| Query.Builder.ConstraintNotIn | src/cat/mobilejazz/database/query/Select.java:86-92 | a NOT IN list over the values in order, balanced when non-empty |
| Query.Builder.ConstraintInLongs | src/cat/mobilejazz/database/query/Select.java:110-116 | an IN list over the longs' decimal forms in order, balanced when non-empty |
| Query.Builder.SortColumns | src/cat/mobilejazz/database/query/Select.java:118-121 | the sort order becomes the columns separated by ", " |
| Query.Builder.Sort | src/cat/mobilejazz/database/query/Select.java:123-126 | the sort order becomes the string given |
| Query.Builder.GroupBy | src/cat/mobilejazz/database/query/Select.java:128-131 | the table address gains a "gby" parameter; when it had none, reading it back gives the column |
| Query.Builder.Build | src/cat/mobilejazz/database/query/Select.java:133-136 | the clauses joined by " AND " and the arguments, both in call order; a balanced builder yields exactly one '?' per argument |
| Filters.SelectTable | src/cat/mobilejazz/database/content/CollectionFilter.java:68 | the table is known exactly when the address has authority-user-table segments |
| Filters.IdPatternsBound | src/cat/mobilejazz/database/content/CollectionFilter.java:106-114 | the "%d" occurrences found do not overlap: at most half the length |
| Filters.IdPatternsNone | src/cat/mobilejazz/database/content/CollectionFilter.java:106-114 | none are found exactly when "%d" does not occur |
| Filters.IdPatternsRepeat | src/cat/mobilejazz/database/content/CollectionFilter.java:106-114 | n placeholders in a row count as n |
| Filters.FormatLiteral | src/cat/mobilejazz/database/content/CollectionFilter.java:143 | a format string without a percent sign formats to itself, whatever the arguments |
| Filters.FormatEscape | src/cat/mobilejazz/database/content/CollectionFilter.java:143 | a string with every percent sign doubled formats back to the string: "%%" is a literal percent sign |
| Filters.FormatIgnoresExtra | src/cat/mobilejazz/database/content/CollectionFilter.java:139-143 | once a format succeeds, more arguments change nothing, as `String.format` ignores surplus arguments |
| Filters.FormatSubstitutes | src/cat/mobilejazz/database/content/CollectionFilter.java:106-143 | with only "%d" specifiers, formatting succeeds exactly when there is an argument for each counted placeholder, and then it replaces the placeholders by those arguments in order |
| Filters.FormatPlaceholders | src/cat/mobilejazz/database/content/CollectionFilter.java:143 | n "%d" in a row format to the ids' decimal forms one after another |
| Filters.CountDiffersFromConversions | src/cat/mobilejazz/database/content/CollectionFilter.java:106-143 | the regex count and the arguments `String.format` consumes differ: "a%%d" counts one and prints "a%d", and "%s" counts none and throws `IllegalFormatException` |
| Filters.PathsUpTo | src/cat/mobilejazz/database/content/CollectionFilter.java:138-145 | the row loop: every path produced is its row's formatted path, in row order; the loop stops at the first row that fails, with that row's exception; it fails not at all exactly when every row formats |
| Filters.Filled | src/cat/mobilejazz/database/content/CollectionFilter.java:132-145 | the path array has one slot per row, the produced paths first and nulls after them |
| Filters.DerivedPathsSubstitute | src/cat/mobilejazz/database/content/CollectionFilter.java:106-145 | with only "%d" specifiers and wide enough rows, no row fails and each path is the format with the row's first columns substituted |
| Filters.PrimaryIds | src/cat/mobilejazz/database/content/CollectionFilter.java:142 | one primary id per result row: the row's column at the primary index |
| Filters.IdSelectBalanced | src/cat/mobilejazz/database/content/CollectionFilter.java:148-149 | the derived select has one placeholder per id and the ids, in order, as arguments |
| Filters.Decode | src/cat/mobilejazz/database/content/CollectionFilter.java:231-237 | whatever the parcel constructor reads back is what the writer would have written |
| Filters.ParcelRoundTrip | src/cat/mobilejazz/database/content/CollectionFilter.java:231-251 | reading a written parcel reproduces every field |
| Filters.CollectionFilter.FromSelect | src/cat/mobilejazz/database/content/CollectionFilter.java:64-69 | keeps the select and the api paths and caches the select's table |
| Filters.CollectionFilter.FromQuery | src/cat/mobilejazz/database/content/CollectionFilter.java:60-62 | a select of the table with only selection and arguments, then as the constructor from a select |
| Filters.CollectionFilter.Dynamic | src/cat/mobilejazz/database/content/CollectionFilter.java:98-104 | keeps the table, select, format string and primary index; the api paths stay unset |
| Filters.CollectionFilter.CountIdPatterns | src/cat/mobilejazz/database/content/CollectionFilter.java:108-114 | the scan counts exactly the non-overlapping "%d" occurrences |
| Filters.CollectionFilter.FormatRow | src/cat/mobilejazz/database/content/CollectionFilter.java:139-143 | the row's first columns, one per counted placeholder, read into the argument array and formatted; a column past the row's end throws `IllegalStateException`; a bad specifier or missing argument throws `IllegalFormatException` |
| Filters.CollectionFilter.RowPaths | src/cat/mobilejazz/database/content/CollectionFilter.java:132-145 | a fresh array of nulls takes each row's path in row order until a row fails, whose exception is returned; without a failure the primary ids are every row's, in row order |
| Filters.CollectionFilter.IdSelection | src/cat/mobilejazz/database/content/CollectionFilter.java:149 | the builder's "primary IN (ids)" select on the table address |
| Filters.CollectionFilter.DeriveApiPaths | src/cat/mobilejazz/database/content/CollectionFilter.java:128-155 | no format string or no select is a `NullPointerException` that changes nothing; otherwise the api paths become one null per row, and a primary index naming no column throws `IndexOutOfBoundsException`; otherwise the row loop fills the paths, a failing row throws with the selection unchanged, and when every row formats the selection becomes the primary-id IN list on the address, or null without one, and the result says whether there was a row |
| Filters.CollectionFilter.Equals | src/cat/mobilejazz/database/content/CollectionFilter.java:213-223 | another class is unequal; null, or a missing select on a filter of the same table, throws NullPointerException; otherwise equal exactly when table, selection, arguments and api paths agree |
| Filters.EqualsSymmetric | src/cat/mobilejazz/database/content/CollectionFilter.java:213-223 | equality is symmetric, and a filter with a select equals itself |
| Filters.CollectionFilter.WriteToParcel | src/cat/mobilejazz/database/content/CollectionFilter.java:244-251 | select, api paths, format string, table and primary index are written in that order and read back unchanged |
| Filters.CollectionFilter.FromParcel | src/cat/mobilejazz/database/content/CollectionFilter.java:231-237 | the fields read in the order they were written |
| Processing.WildcardListener | src/cat/mobilejazz/database/content/DataProcessor.java:282-285 | a listener with no table, id or action filter is interested in every change |
| Processing.ExactListener | src/cat/mobilejazz/database/content/DataProcessor.java:282-285 | a listener with all three filters set is interested exactly in that action, table and id |
| Processing.SignatureInjective | src/cat/mobilejazz/database/content/DataProcessor.java:256-258 | for table names without ':' the "table:id" signature determines both table and id |
| Processing.ClassifyUnfold | src/cat/mobilejazz/database/content/DataProcessor.java:353-390 | one merge iteration: equal ids update and advance both sides, a smaller incoming id takes the entry, a smaller local id takes the row; an exhausted side reads as Long.MAX_VALUE |
| Processing.ClassifyConsumesAll | src/cat/mobilejazz/database/content/DataProcessor.java:353-390 | the merge takes every local row and every incoming entry exactly once and in order, so it ends after at most the two sizes' sum of iterations |
| Processing.ClassifyPartition | src/cat/mobilejazz/database/content/DataProcessor.java:359-389 | on ascending sides every update pairs equal ids, every insert has no local row with its id, every candidate delete has no incoming entry with its id |
| Processing.MatchedIffShared | src/cat/mobilejazz/database/content/DataProcessor.java:359-365 | an incoming entry is matched exactly when a local row has its id, and a local row exactly when an incoming entry has its id |
| Processing.InsertByDepthElements | src/cat/mobilejazz/database/content/DataProcessor.java:322-329 | inserting a key by depth adds exactly that key |
| Processing.InsertByDepthSorted | src/cat/mobilejazz/database/content/DataProcessor.java:322-329 | inserting a key by depth keeps the keys in non-decreasing depth |
| Processing.InsertByDepthStable | src/cat/mobilejazz/database/content/DataProcessor.java:322-329 | inserting a key puts it after every key of its depth |
| Processing.SortByDepthProps | src/cat/mobilejazz/database/content/DataProcessor.java:320-329 | the sorted buckets are a permutation of the tables, in non-decreasing depth, with tables of equal depth in their original order (the sort is stable) |
| Processing.PendingSignaturesSound | src/cat/mobilejazz/database/content/DataProcessor.java:297-307 | every pending signature comes from a REMOVE row of the journal |
| Processing.PendingSignaturesComplete | src/cat/mobilejazz/database/content/DataProcessor.java:297-307 | every REMOVE row of the journal gives a pending signature |
| Processing.PendingSignaturesMembers | src/cat/mobilejazz/database/content/DataProcessor.java:297-307 | a signature is pending exactly when some REMOVE row of the journal has it |
| Processing.KeyedAscending | src/cat/mobilejazz/database/content/DataEntry.java:32-51 | a bucket of parentless entries ordered by compareTo is strictly ascending by server id, so no id occurs twice |
| Processing.GroupedPut | src/cat/mobilejazz/database/content/DataProcessor.java:420-432 | giving a table a new well-formed bucket keeps the bookkeeping: a new table goes last and takes its depth, whether or not it becomes affected |
| Processing.AddKeyed | src/cat/mobilejazz/database/content/DataProcessor.java:427-428 | adding an entry whose change id, as `getAsLong` reads it, is its server id keeps the bucket keyed |
| Processing.PassWriteOrigin | src/cat/mobilejazz/database/content/DataProcessor.java:331-405 | every remote write of a pass comes from an incoming entry of that table's bucket with those values and whose signature is not pending |
| Processing.MainWriteOrigin | src/cat/mobilejazz/database/content/DataProcessor.java:353-390 | every remote write of the merge comes from an entry of the main bucket that is not pending |
| Processing.StepWriteOrigin | src/cat/mobilejazz/database/content/DataProcessor.java:359-389 | only an incoming entry without a local match writes a row into the store |
| Processing.JournalBlocksResurrection | src/cat/mobilejazz/database/content/DataProcessor.java:297-307 | every row a pass inserts or updates has a readable change id, and the journal holds no REMOVE of that table and id |
| Processing.PassDeleteOrigin | src/cat/mobilejazz/database/content/DataProcessor.java:381-387 | every delete of a pass is by row id, in the main table, of a local row that may be deleted and that no incoming entry carries |
| Processing.MainDeleteOrigin | src/cat/mobilejazz/database/content/DataProcessor.java:381-387 | every delete of the merge removes a deletable local row that no incoming entry carries |
| Processing.PassDeletesStale | src/cat/mobilejazz/database/content/DataProcessor.java:381-387 | every deletable local row that no incoming entry carries is deleted, right after the listener hears of its removal |
| Processing.MainDeletesStale | src/cat/mobilejazz/database/content/DataProcessor.java:381-387 | the merge deletes every deletable local row missing from the bucket, right after notifying its removal |
| Processing.PassUpdatesMatched | src/cat/mobilejazz/database/content/DataProcessor.java:359-362 | every local row of the main table that an incoming entry carries is updated by row id with that entry's values |
| Processing.PassInsertsOther | src/cat/mobilejazz/database/content/DataProcessor.java:400-402 | every incoming entry of a table other than the main one whose signature is not pending is inserted with insert-ignore |
| Processing.PassInsertsUnmatched | src/cat/mobilejazz/database/content/DataProcessor.java:370-374 | every incoming entry of the main table that no local row carries, and whose signature is not pending, is inserted with insert-ignore |
| Processing.PassMember | src/cat/mobilejazz/database/content/DataProcessor.java:331-405 | each event of a pass belongs to the bucket of one table of the pass |
| Processing.EntryMember | src/cat/mobilejazz/database/content/DataProcessor.java:395-404 | each event of a non-main bucket belongs to one of its entries |
| Processing.PassProgressStep | src/cat/mobilejazz/database/content/DataProcessor.java:331-336 | one bucket of the loop keeps the log a prefix of the whole pass, and exactly the pass so far unless a cancel was seen |
| Processing.PassDone | src/cat/mobilejazz/database/content/DataProcessor.java:331-406 | at the end of the loop the log is a prefix of the whole pass, and all of it when no cancel was seen |
| Processing.AppendFinished | src/cat/mobilejazz/database/content/DataProcessor.java:412 | signalling the end keeps everything written before it |
| Processing.DataProcessor.constructor | src/cat/mobilejazz/database/content/DataProcessor.java:232-253 | a new processor keeps its provider and account, has no bucket, no depth, no affected table, zero counters and is not cancelled |
| Processing.DataProcessor.Cancel | src/cat/mobilejazz/database/content/DataProcessor.java:453-455 | after a cancel the processor is cancelled |
| Processing.DataProcessor.OnDataEntry | src/cat/mobilejazz/database/content/DataProcessor.java:416-439 | the first entry of a table creates its bucket last in order and fixes its depth; a change id that `getAsLong` reads as null throws `NullPointerException` and changes nothing more; otherwise the entry is added unless one with its key is there, the count grows by one, the table is affected and the main table's downloads are counted when a count was expected |
| Processing.DataProcessor.OnEmptyTable | src/cat/mobilejazz/database/content/DataProcessor.java:458-463 | an unseen table gets an empty bucket, last in order, and is affected; a seen one changes nothing |
| Processing.DataProcessor.NotifyChanges | src/cat/mobilejazz/database/content/DataProcessor.java:441-447 | every affected table exactly once, each notified on the provider as `getUri(user, table)` resolved, the first exception ending the loop |
| Processing.DataProcessor.CollectPendingDeletes | src/cat/mobilejazz/database/content/DataProcessor.java:297-307 | the pending-delete set is the signatures of the journal's REMOVE rows |
| Processing.DataProcessor.NotifyUpdateListeners | src/cat/mobilejazz/database/content/DataProcessor.java:287-291 | the listener hears of the change exactly when it is set and interested |
| Processing.DataProcessor.InsertOrUpdate | src/cat/mobilejazz/database/content/DataProcessor.java:270-280 | insert ignoring conflicts, then, when the insert returned a negative id, update keyed by the identifying column |
| Processing.DataProcessor.MergeStep | src/cat/mobilejazz/database/content/DataProcessor.java:353-390 | one iteration advances at least one side, takes the next merge step and writes exactly that step's events |
| Processing.DataProcessor.ApplyStep | src/cat/mobilejazz/database/content/DataProcessor.java:359-389 | the chosen branch writes exactly the step's events and counts an operation unless it is a candidate delete |
| Processing.DataProcessor.MergeMain | src/cat/mobilejazz/database/content/DataProcessor.java:341-392 | the merge writes a prefix of the bucket's events, all of them unless a cancel is seen, and counts one operation per incoming entry |
| Processing.DataProcessor.InsertStep | src/cat/mobilejazz/database/content/DataProcessor.java:400-403 | an entry is inserted-or-updated unless its signature is pending |
| Processing.DataProcessor.ApplyInserts | src/cat/mobilejazz/database/content/DataProcessor.java:393-405 | a non-main bucket writes a prefix of its entries' events, all of them unless a cancel is seen, and deletes nothing |
| Processing.DataProcessor.ApplyBucket | src/cat/mobilejazz/database/content/DataProcessor.java:338-405 | one bucket: the merge for the main table, the insert loop for any other |
| Processing.DataProcessor.NextBucket | src/cat/mobilejazz/database/content/DataProcessor.java:331-405 | one iteration of the bucket loop keeps the pass's progress |
| Processing.DataProcessor.ApplyAll | src/cat/mobilejazz/database/content/DataProcessor.java:331-406 | the bucket loop writes a prefix of the pass over the sorted buckets, all of it unless a cancel is seen |
| Processing.DataProcessor.RunPass | src/cat/mobilejazz/database/content/DataProcessor.java:295-406 | read the pending deletes, sort the buckets by depth and apply them: a prefix of the full pass, all of it when nothing cancels |
| Processing.DataProcessor.PerformOperations | src/cat/mobilejazz/database/content/DataProcessor.java:293-413 | the end is signalled last and exactly once; before it, a prefix of the full pass, all of it when nothing cancels and nothing at all when cancelled beforehand |
| Uris.ForTable | src/cat/mobilejazz/database/content/DataProvider.java:172-174 | a table address is this authority with exactly the two segments account and table, and no parameters |
| Uris.FirstValue | src/cat/mobilejazz/database/content/DataProvider.java:282-307 | a parameter lookup finds a value exactly when some parameter carries the key, and the value found is one given for that key |
| Uris.FirstValueAppend | src/cat/mobilejazz/database/content/DataProvider.java:282-307 | appending a parameter leaves an earlier value of its key in force; otherwise the appended value is found for its key and nothing for other absent keys |
| Uris.AppendQueryParameter | src/cat/mobilejazz/database/content/DataProvider.java:181-184 | adding a parameter keeps the authority and the path of the address |
| Uris.AppendedParameterFound | src/cat/mobilejazz/database/content/DataProvider.java:181-184 | an added parameter is what a later lookup of its key returns unless the key was already there, and lookups of other keys are unchanged |
| Uris.WithAppendedId | src/cat/mobilejazz/database/content/DataProvider.java:601 | appending an id adds it as one more path segment, in decimal, keeping the parameters |
| Provider.BooleanParameter | src/cat/mobilejazz/database/content/DataProvider.java:282-289 | an absent flag gives the default; a present one is true exactly when its value is not "0" |
| Provider.IntegerParameter | src/cat/mobilejazz/database/content/DataProvider.java:291-298 | an absent number gives the default; a present one succeeds exactly when it parses as a 32-bit integer |
| Provider.LongParameterRejectsLongs | src/cat/mobilejazz/database/content/DataProvider.java:300-307 | as written, a long beyond the 32-bit range given as the parameter is rejected |
| Provider.LongParameterReadsLongs | src/cat/mobilejazz/database/content/DataProvider.java:300-307 | with a long parser, every 64-bit value written as the parameter is read back exactly |
| Provider.ResolveParams | src/cat/mobilejazz/database/content/DataProvider.java:317-336 | every option of a resolved address is the corresponding parameter with its default (record changes and notify on, insert-or-update off, no action), and resolution fails exactly when the action parameter is not a number |
| Provider.ResolveUri | src/cat/mobilejazz/database/content/DataProvider.java:317-336 | a resolved address has at least two segments naming account and table, has a row id exactly when it is not a table address, and carries the options its parameters give |
| Provider.DefaultParams | src/cat/mobilejazz/database/content/DataProvider.java:317-336 | an address without parameters resolves with the default options |
| Provider.ResolveTableAddress | src/cat/mobilejazz/database/content/DataProvider.java:172-174 | the address built for an account and a table resolves back to that table and account, without a row id, with the default options |
| Provider.ResolveRowAddress | src/cat/mobilejazz/database/content/DataProvider.java:186-188 | a table address with a long id appended resolves back to that row id |
| Provider.ResolveWithParams | src/cat/mobilejazz/database/content/DataProvider.java:181-184 | a table address marked with the record-changes flag resolves with exactly that option changed |
| Provider.ExtendSelectionShape | src/cat/mobilejazz/database/content/DataProvider.java:135-146 | without a row id the selection is unchanged; with one it ends in the id clause, and is the clause alone when the selection was empty, else the selection joined to it by AND |
| Provider.ExtendSelectionInjective | src/cat/mobilejazz/database/content/DataProvider.java:135-146 | two different row ids never narrow one selection to the same text |
| Provider.UidColumns | src/cat/mobilejazz/database/content/DataProvider.java:230-240 | the UID columns collected for a table are at most as many as its columns |
| Provider.UidColumnsExact | src/cat/mobilejazz/database/content/DataProvider.java:230-240 | a name is collected exactly when some UID column of the table carries it |
| Provider.AllocationsIncrease | src/cat/mobilejazz/database/content/DataProvider.java:544-554 | successive UIDs of one table column are consecutive from the stored value, hence strictly increasing, until the counter would wrap |
| Provider.AllocateSeparate | src/cat/mobilejazz/database/content/DataProvider.java:548-554 | allocating a UID for one table column leaves the counter of every other column unchanged |
| Provider.FillValues | src/cat/mobilejazz/database/content/DataProvider.java:556-563 | filling keeps every given value and adds exactly the missing UID columns |
| Provider.FillLongs | src/cat/mobilejazz/database/content/DataProvider.java:556-563 | each column filled in holds a long |
| Provider.FillComplete | src/cat/mobilejazz/database/content/DataProvider.java:556-563 | values that already hold every UID column are left as they are and no UID is consumed |
| Provider.GetChangesRow | src/cat/mobilejazz/database/content/DataProvider.java:402-463 | a journal row records the table, the native id, the action and the time; its payload is the custom change value when given, else the remote columns rendered; with the native id column its object id is the native id |
| Provider.NativeObjectId | src/cat/mobilejazz/database/content/DataProvider.java:413-415 | when the change-id column is the native id a journal row is always produced, with the native id as object id |
| Provider.MissingRowSkipped | src/cat/mobilejazz/database/content/DataProvider.java:418-427 | when the object id has to be looked up and the store finds no row with that id, no journal row is produced |
| Provider.MergedKeys | src/cat/mobilejazz/database/content/DataProvider.java:441-456 | the additional data's keys override the rendered INFO keys and the other INFO keys stay; malformed additional data leaves the INFO object unchanged |
| Provider.TransactionShape | src/cat/mobilejazz/database/content/DataProvider.java:583-598 | a transaction begins first and ends last whatever happens, and is marked successful, right before its end, exactly when its body did not throw |
| Provider.TransactionNotifies | src/cat/mobilejazz/database/content/DataProvider.java:583-598 | a transaction notifies an observer exactly when its body does, and queues and throws what its body does |
| Provider.QuietThen | src/cat/mobilejazz/database/content/DataProvider.java:583-598 | two steps that notify nobody, run in sequence, notify nobody |
| Provider.QuietTransaction | src/cat/mobilejazz/database/content/DataProvider.java:583-598 | wrapping a silent body in a transaction keeps it silent |
| Provider.ResolvedConsistent | src/cat/mobilejazz/database/content/DataProvider.java:317-336 | what resolution yields, whatever row id is set on it later, names the account and table of its address |
| Provider.DependencyAddresses | src/cat/mobilejazz/database/content/DataProvider.java:265-280 | an unknown table fails; otherwise there is one address per view that references the table, in order, each for the same account |
| Provider.NotifyCases | src/cat/mobilejazz/database/content/DataProvider.java:338-350 | while aggregating the call is queued and nothing is sent; otherwise nothing is queued and something is sent exactly when the notify option is on: the address first, then each dependent view, with the record-changes option as the sync flag |
| Provider.FlushAppend | src/cat/mobilejazz/database/content/DataProvider.java:668-671 | flushing two queues in a row is flushing the first and, unless it threw, the second |
| Provider.FlushOne | src/cat/mobilejazz/database/content/DataProvider.java:706-709 | a one-element queue is flushed as one notification without aggregation |
| Provider.FlushQueuesNothing | src/cat/mobilejazz/database/content/DataProvider.java:706-709 | flushing never queues anything again |
| Provider.TableNotices | src/cat/mobilejazz/database/content/DataProcessor.java:441-447 | one notification per table, in order: `getUri(user, table)` with what `resolveUri` makes of it |
| Provider.NotifyTablesQueuesOrFlushes | src/cat/mobilejazz/database/content/DataProcessor.java:441-447 | while aggregating, the tables' notifications are queued in order and nothing is sent; otherwise they are sent exactly as a flush of that queue would send them |
| Provider.NotifyTablesAnnounces | src/cat/mobilejazz/database/content/DataProcessor.java:441-447 | without aggregation and with every table in the schema, nothing throws or is queued and each table's address is announced with the sync flag set |
| Provider.DataProvider.NotifyTables | src/cat/mobilejazz/database/content/DataProcessor.java:441-447 | the loop sends or queues exactly what notifying each table in turn does, stopping at the first exception |
| Provider.FlushStop | src/cat/mobilejazz/database/content/DataProvider.java:668-671 | once a flushed notification threw, the later ones are not sent |
| Provider.JournalRowsOnly | src/cat/mobilejazz/database/content/DataProvider.java:477-484 | journaling rows for a list of ids writes journal rows and nothing else |
| Provider.JournalOnly | src/cat/mobilejazz/database/content/DataProvider.java:486-516 | the journal step writes only journal rows and queues nothing |
| Provider.JournalRowsStop | src/cat/mobilejazz/database/content/DataProvider.java:505-510 | once a journal row threw, the later ids add nothing |
| Provider.LocalNotJournaled | src/cat/mobilejazz/database/content/DataProvider.java:488-489 | a write with record-changes off, or to a local table, leaves no journal row |
| Provider.JournalNeverJournaled | src/cat/mobilejazz/database/content/DataProvider.java:488-489 | writes to the journal table itself are never journaled, because its descriptor is local |
| Provider.JournalRowsNative | src/cat/mobilejazz/database/content/DataProvider.java:477-484 | with the native id column, journaling writes exactly one row per id, in order, each with that id as native and object id, the action and the table |
| Provider.JournalDecisions | src/cat/mobilejazz/database/content/DataProvider.java:486-516 | a recorded write to a journaled table writes a row for the address's row id; for a removal without one, one row with id 0; otherwise one row per matching row; each with the custom action when one is given |
| Provider.InsertEffectOk | src/cat/mobilejazz/database/content/DataProvider.java:566-602 | an insert on a table address of a known table is its transaction over the values with the missing UIDs filled, and the preferences advanced accordingly |
| Provider.InsertRejectsRowAddress | src/cat/mobilejazz/database/content/DataProvider.java:571-573 | an insert on a row address fails with an illegal argument before anything is written or allocated |
| Provider.InsertFillsUids | src/cat/mobilejazz/database/content/DataProvider.java:576-588 | the store receives the given values unchanged plus exactly the missing UID columns |
| Provider.InsertBodyHead | src/cat/mobilejazz/database/content/DataProvider.java:583-589 | an insert's transaction begins and then writes the row, replacing a conflicting one when insert-or-update is set |
| Provider.WriteNotifies | src/cat/mobilejazz/database/content/DataProvider.java:605-651 | without aggregation a write queues nothing and, unless the journal threw, notifies exactly when it changed rows and notify is on; with aggregation it notifies nobody and queues its one call exactly when it changed rows |
| Provider.UpdateNotifies | src/cat/mobilejazz/database/content/DataProvider.java:630-651 | an update notifies exactly when rows changed and notify is on, and queues its call instead while aggregating |
| Provider.DeleteNotifies | src/cat/mobilejazz/database/content/DataProvider.java:605-627 | a delete notifies exactly when rows went and notify is on, and queues its call instead while aggregating |
| Provider.BatchQuiet | src/cat/mobilejazz/database/content/DataProvider.java:654-666 | while a batch aggregates none of its operations notifies anybody |
| Provider.BatchStop | src/cat/mobilejazz/database/content/DataProvider.java:659-666 | once an operation threw, the rest of the batch is not applied |
| Provider.AccountBatchResultsAsWritten | src/cat/mobilejazz/database/content/DataProvider.java:675-692 | the account batch returns one slot per operation |
| Provider.AccountBatchLosesResults | src/cat/mobilejazz/database/content/DataProvider.java:683-688 | as written, no slot of the account batch's result holds its operation's result |
| Provider.AccountBatchDropsSuccesses | src/cat/mobilejazz/database/content/DataProvider.java:675-692 | where the corrected batch succeeds, every slot returned as written is null although its operation produced a result, so a non-empty batch never returns the corrected results |
| Provider.Fetch | src/cat/mobilejazz/database/content/DataProvider.java:818-824 | the fetch loop only reports paths from the one it starts at |
| Provider.FetchCancelled | src/cat/mobilejazz/database/content/DataProvider.java:818-824 | a cancellation on a path reports that path alone and stops the fetch |
| Provider.AbortedArePaths | src/cat/mobilejazz/database/content/DataProvider.java:793-847 | only api paths of the filter are ever reported as aborted |
| Provider.UninterruptedSync | src/cat/mobilejazz/database/content/DataProvider.java:815-842 | a sync that is never cancelled aborts nothing, and performs the operations once inside a transaction that is marked successful and ended |
| Provider.CancelledDuringAbortsAll | src/cat/mobilejazz/database/content/DataProvider.java:827-835 | a processor cancelled while performing its operations reports every api path of the filter as aborted |
| Provider.QueryGroupBy | src/cat/mobilejazz/database/content/DataProvider.java:353-357 | a group-by column put on a table address reaches the store query of that table, with the selection unchanged |
| Provider.DataProvider.constructor | src/cat/mobilejazz/database/content/DataProvider.java:221-243 | a new provider has the UID map of its schema, an empty dependency cache and queue, aggregation off and no sync registered |
| Provider.DataProvider.GetDependencies | src/cat/mobilejazz/database/content/DataProvider.java:265-280 | the dependent view addresses of the address's table, computed or cached, and the cache stays correct for every table address |
| Provider.DataProvider.NotifyChange | src/cat/mobilejazz/database/content/DataProvider.java:338-350 | the events and queue changes are those of the notification rules, and every queued notification stays consistent with its address |
| Provider.DataProvider.Flush | src/cat/mobilejazz/database/content/DataProvider.java:706-710 | the queue is flushed in order with aggregation off and emptied unless a notification threw |
| Provider.DataProvider.NewUID | src/cat/mobilejazz/database/content/DataProvider.java:548-554 | the UID returned and the stored counter are those of one allocation on the key "table:column" |
| Provider.DataProvider.FillUIDs | src/cat/mobilejazz/database/content/DataProvider.java:556-563 | a table without UID entry is a NullPointerException with nothing allocated; otherwise the values are filled as the fill rule says |
| Provider.DataProvider.InsertSingleChange | src/cat/mobilejazz/database/content/DataProvider.java:477-484 | logs the journal row for one id, or nothing, or reports the exception that building it raised |
| Provider.DataProvider.InsertEachChange | src/cat/mobilejazz/database/content/DataProvider.java:502-513 | logs one journal row per matching id, stopping at the first exception |
| Provider.DataProvider.InsertChanges | src/cat/mobilejazz/database/content/DataProvider.java:486-516 | logs what the journal rules give for the write |
| Provider.DataProvider.WriteTransaction | src/cat/mobilejazz/database/content/DataProvider.java:613-623 | logs and queues one transaction of journal, store write and, when rows changed, notification |
| Provider.DataProvider.InsertTransaction | src/cat/mobilejazz/database/content/DataProvider.java:582-598 | logs and queues the transaction of the insert over the filled values |
| Provider.DataProvider.Insert | src/cat/mobilejazz/database/content/DataProvider.java:566-602 | logs, queues and allocates what the insert rules give, and returns the address with the new row id appended |
| Provider.DataProvider.Update | src/cat/mobilejazz/database/content/DataProvider.java:630-651 | logs and queues what the update rules give, and returns the number of rows updated |
| Provider.DataProvider.Delete | src/cat/mobilejazz/database/content/DataProvider.java:605-627 | logs and queues what the delete rules give, and returns the number of rows deleted |
| Provider.DataProvider.Apply | src/cat/mobilejazz/database/content/DataProvider.java:665 | one batch operation is the insert, update or delete it names, with that call's outcome |
| Provider.DataProvider.ApplyEach | src/cat/mobilejazz/database/content/DataProvider.java:659-666 | the operations run in order, each seeing the UIDs the previous ones allocated, until one throws; each one's result is returned |
| Provider.DataProvider.ApplyBatch | src/cat/mobilejazz/database/content/DataProvider.java:654-673 | the batch runs with aggregation on; after it aggregation is off and every queued notification is flushed in order and the queue emptied; an exception leaves aggregation on and the queue as it is |
| Provider.DataProvider.ApplyBatchIn | src/cat/mobilejazz/database/content/DataProvider.java:675-692 | the account batch runs in one transaction under the aggregation state as it stands, returning each operation's result |
| Provider.DataProvider.BeginTransaction | src/cat/mobilejazz/database/content/DataProvider.java:694-700 | a transaction begins and aggregation is on |
| Provider.DataProvider.BeginTransactionWithListener | src/cat/mobilejazz/database/content/DataProvider.java:722-729 | a transaction begins; aggregation is turned on only when no listener is given |
| Provider.DataProvider.SetTransactionSuccessful | src/cat/mobilejazz/database/content/DataProvider.java:702-712 | aggregation is off, every queued notification is flushed in order, the queue emptied and the transaction marked, unless a notification threw |
| Provider.DataProvider.EndTransaction | src/cat/mobilejazz/database/content/DataProvider.java:714-720 | aggregation is off and the transaction ends; what is queued stays queued |
| Provider.DataProvider.UpdateFromServer | src/cat/mobilejazz/database/content/DataProvider.java:793-847 | a sync already running for the same database and filter is rejected with nothing aborted; a filter without api paths is a `NullPointerException`; an adapter exception ends the sync; otherwise the transaction runs and ends, then the processor notifies each table it touched, and the aborted paths are returned unless a notification threw; the registry is left as it was |

## Behaviour worth knowing

The model follows the code in each of these places.

- `applyBatch` flushes every queued notification in order after the batch. It does not deliver one notification per table.
- `insert` journals a CREATE even when the store reports row id -1. Only the notification is skipped for a negative id.
- `getDependencies` caches under the address it is given but reads the cache under the table address. A row address is therefore recomputed every time.
- An exception thrown by an operation of `applyBatch` escapes before aggregation is turned off. Aggregation stays on and the queue keeps its entries.
- In the cursor branch of `insertChanges`, the values of the change-id column are passed on as native ids.
- While aggregating, `notifyChange` queues the call even when the notify option is off. The option is checked only when the queue is flushed.
- A view that depends on a name that is neither a table nor a view makes `propagateDependencies` throw a `NullPointerException`, not a not-found error, and does not undo the registrations made before the failure.
- `propagateDependencies` registers the view it is walking on each table. When it descends into a sub-view, that sub-view is registered, not the outer view.
- `deriveApiPaths` counts placeholders with the regex "%d", but `String.format` reads the specifiers itself. "%%d" counts one placeholder and prints "%d"; "%s" counts none and throws. Arguments beyond the specifiers are ignored.
- `deriveApiPaths` replaces the api paths by an array of nulls before it reads the primary column's name. A bad primary index or a row that fails to format leaves nulls behind.
- `onDataEntry` creates a new table's bucket and depth before it reads the change id. A change id that `getAsLong` reads as null then throws, leaving an empty bucket that is not affected.
- After a sync the processor notifies each table it touched with the default options, so every notification asks for a sync to the network. An exception from these notifications replaces the sync's result.

## Left out

- The SQLite store, the Android content resolver, shared preferences and the remote adapter are parameters and event logs. Their internal behaviour is not part of this model.
- Concurrency is left out: `synchronized` blocks, the `ConcurrentHashMap` of running syncs and calls from other threads. The registry is a set that `UpdateFromServer` restores on every exit.
- Provider.DataProvider.UpdateFromServer: `cancelUpdate` from another thread is modelled only by the cancellation answers in `SyncAnswers`, because a second thread cannot be expressed here.
- Floating point is left out: the fraction reported to the progress listener is not computed, and the model counts the operations performed instead.
- Dates are opaque: `SQLUtils` date formatting and parsing are parameters. A null or unparseable creation date (a `NullPointerException` in the merge) is not modelled.
- JSON rendering (`renderValues`) and JSON parsing of additional data are hooks. Their `JSONException` path is not modelled, because building JSON from stored values does not fail in the model.
- `firstUIDValue` and `nextUIDValue` keep their default bodies (0 and plus one, with Java `long` wrap-around). Overriding them in a subclass is not modelled.
- Provider.DataProvider.FillUIDs: returns the filled values rather than mutating the caller's `ContentValues`, because the map is a value here.
- `getType` returns null and is not modelled. `query` is modelled only up to the request it sends to the store (Provider.QueryRequest), because the cursor it returns is the store's.
- `getDelegate` and `StringTemplate`, and the debug `dump` helpers, are not modelled, because they only produce diagnostic text.
- The registry key for a sync compares the filter's fields structurally. The repository's `CollectionFilter` overrides `equals` without `hashCode`, and the hash lookup that results is not modelled.
- `Select.getTable()` is called but not defined in the repository. Filters.SelectTable stands in for it with the table segment of the select's address.
- `EntityContext.FROM_ENTITY_CONTEXT`, `DefaultContext`, `getTableOrThrow` and the members of `@ParentId` are used but not defined in the repository. They are not part of this model, and fixed stand-ins replace them.
- `StringFormatter.printIterable` is used but not defined in the repository. The model assumes that its form without a separator joins the elements with ", ". Query.Builder.SortColumns (Select.java:119) and Views.BuildSingleSelect (the column list of SingleSelectView.java:152, and Select.java:229) rest on that assumption.
- Databases.Database.PropagateOne: Database.java:47 iterates `for (Dependency d : v.getDependencies())` over the `Iterable<String>` that View.java:13 declares, which does not type-check as written. The model reads each element as the name of the table or view the dependency is on.
- StaticFilters.FilterListener is a stand-in listener that counts its calls, because the listener interface is foreign code.
- The forwarding methods of `Select` (`delete`, `update`, `query`, `newCursorLoader`, `toString`) are not modelled, since they only call the content resolver.
- The iteration order of Java's `HashMap` (tables, columns, affected tables) is not modelled. The model fixes a sequence order instead.
- Tables.Table.Init: the fields of a description class are read in declaration order, the order `getFields` is assumed to return.
- Processing.DataProcessor.PerformOperations: requires every real server id to be below `Long.MAX_VALUE`. The merge uses that value as its end-of-cursor sentinel, and an id equal to it makes the source read past the end.
- Processing.DataProcessor.PerformOperations: requires a depth for every bucket when two or more buckets are sorted. `onEmptyTable` records no depth, and sorting such a bucket against another throws a `NullPointerException` in the source.
- Databases.Database.PropagateDependencies: requires the views to be ranked, so a view never depends on itself. A cycle makes the source recurse until the stack overflows.
- Databases.Database.PutTable: requires that no view is registered on the table yet. The constructor loads every table before it walks the views.
- Databases.Database.AppendTable: requires that no view is registered yet, for the same reason.
- Filters.CollectionFilter.DeriveApiPaths: requires every result row to have one value per column name, as a cursor's rows do.
- Common.ParseDecimal: only the ASCII digits '0' to '9' are read. Java's `Integer.parseInt`, `Long.parseLong` and `Long.valueOf` also accept the other Unicode decimal digits (those `Character.digit` maps to 0-9), such as Arabic-Indic digits; the model reports those strings as malformed. This affects Provider.IntegerParameter, SqlUtils.GetLongArray, SqlUtils.GetIntArray and DataEntries.AsLong.
- Filters.Format: only the specifiers "%%", "%n", "%d", "%s" and "%S" are interpreted. Java also accepts flags, widths, argument indices and other conversions ("%5d", "%x", "%1$d"); the model reports `IllegalFormatException` for all of them.
- Filters.CollectionFilter.FormatRow: a column past a row's end is the `IllegalStateException` of Android's cursor window. The exception class is the platform's and is not part of this repository.
- Tables.Table.AppendDeclaredValues: returns the caller's map with the mappings added, rather than mutating the caller's `ContentValues`, because the map is a value here.
- Databases.Database.DeclareTable: returns the filled map in the same way, for the same reason.
- Provider.DataProvider.UpdateFromServer: the processor's run is part of `SyncAnswers`: the tables its `notifyChanges` visits, in order. Processing.DataProcessor.NotifyChanges models that loop from the processor's own state.

## Findings

| source | as written | input that shows it | evidently intended | confidence | as-written member | corrected member |
|---|---|---|---|---|---|---|
| src/cat/mobilejazz/database/content/DataProvider.java:300-307 | `getLongQueryParameter` parses the value with `Integer.parseInt`; the method is private and nothing in the repository calls it, so the defect is latent | any parameter holding a long above 2147483647, such as 4294967296, once a caller exists | the value parsed with `Long.parseLong`, as the name and the `long` result say | high, not executed | Provider.LongParameterRejectsLongs | Provider.LongParameterReadsLongs |
| src/cat/mobilejazz/database/content/DataProvider.java:675-692 | `applyBatch(account, operations)` allocates the result array but never stores `op.apply`'s result into it | any non-empty batch, such as one insert | each slot holds its operation's result, as the other `applyBatch` does | high, not executed | Provider.AccountBatchDropsSuccesses | Provider.DataProvider.ApplyBatchIn |
