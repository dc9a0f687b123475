/**
 * The mutation gateway (`DataProvider`): resolving content addresses and
 * their options, extending selections by row id, the change journal written
 * beside every write, the per-(table, column) UID counter, notification
 * aggregation across batches and explicit transactions, and the registry
 * that rejects a second concurrent sync of the same filter.
 *
 * The relational store is abstract: what it answers (row ids, affected
 * counts, matching rows) is handed to each operation, and what is written
 * to it, and every notification sent, is recorded as an `Event`.
 */
module Provider {
  import opened Common
  import opened Uris
  import Changes
  import Storage
  import Filters
  import DataEntries

  // ---------------------------------------------------------------------
  // Resolving addresses

  /** The options `resolveUri` puts into the `Bundle`. */
  datatype Params = Params(
    recordChanges: bool,
    changeValue: Option<string>,
    notify: bool,
    action: int,
    groupBy: Option<string>,
    additionalData: Option<string>,
    insertOrUpdate: bool)

  /** `ResolvedUri`: a table (or view), the account's name, an optional row id and the options. */
  datatype Resolved = Resolved(table: string, user: string, id: Option<int>, params: Params)

  /** The options of an address without parameters. */
  const DEFAULT_PARAMS: Params := Params(true, None, true, -1, None, None, false)

  /** `getBooleanQueryParameter`: absent gives the default, present is true unless exactly "0". */
  function BooleanParameter(u: Address, key: string, default: bool): (r: bool)
    ensures QueryParameter(u, key).None? ==> r == default
    ensures QueryParameter(u, key).Some? ==> (r <==> QueryParameter(u, key).value != QUERY_FALSE)
  {
    match QueryParameter(u, key)
    case None => default
    case Some(v) => v != QUERY_FALSE
  }

  /** `getIntegerQueryParameter`: absent gives the default, present is parsed by `Integer.parseInt`. */
  function IntegerParameter(u: Address, key: string, default: int): (r: Result<int>)
    ensures QueryParameter(u, key).None? ==> r == Ok(default)
    ensures QueryParameter(u, key).Some? ==>
      (r.Ok? <==> ParseInt(QueryParameter(u, key).value).Some?)
  {
    match QueryParameter(u, key)
    case None => Ok(default)
    case Some(v) => if ParseInt(v).Some? then Ok(ParseInt(v).value) else Err(NumberFormat)
  }

  /** `getLongQueryParameter` as written: the value is parsed by `Integer.parseInt`. */
  function LongParameterAsWritten(u: Address, key: string, default: int): Result<int> {
    match QueryParameter(u, key)
    case None => Ok(default)
    case Some(v) => if ParseInt(v).Some? then Ok(ParseInt(v).value) else Err(NumberFormat)
  }

  /** `getLongQueryParameter` parsing with `Long.parseLong`, as its name and result type intend. */
  function LongParameter(u: Address, key: string, default: int): Result<int> {
    match QueryParameter(u, key)
    case None => Ok(default)
    case Some(v) => if ParseLong(v).Some? then Ok(ParseLong(v).value) else Err(NumberFormat)
  }

  /** A long beyond the `int` range, given as a parameter, is rejected as written. */
  lemma LongParameterRejectsLongs(u: Address, key: string, default: int, n: int)
    requires INT_MAX < n <= LONG_MAX
    ensures LongParameterAsWritten(AppendQueryParameter(u.(query := []), key, IntToString(n)), key, default).Err?
  {
    var w := AppendQueryParameter(u.(query := []), key, IntToString(n));
    assert QueryParameter(w, key) == Some(IntToString(n));
    NatToStringValue(n);
  }

  /** Every `long` written as a parameter is read back by the corrected parser. */
  lemma LongParameterReadsLongs(u: Address, key: string, default: int, n: int)
    requires LONG_MIN <= n <= LONG_MAX
    ensures LongParameter(AppendQueryParameter(u.(query := []), key, IntToString(n)), key, default) == Ok(n)
  {
    var w := AppendQueryParameter(u.(query := []), key, IntToString(n));
    assert QueryParameter(w, key) == Some(IntToString(n));
    ParseRendered(n, LONG_MIN, LONG_MAX);
  }

  /** The options as `resolveUri` reads them; a malformed action is a `NumberFormatException`. */
  function ResolveParams(u: Address): (r: Result<Params>)
    ensures r.Ok? ==>
      && r.value.recordChanges == BooleanParameter(u, QUERY_KEY_RECORD_CHANGES, true)
      && r.value.notify == BooleanParameter(u, QUERY_KEY_NOTIFY, true)
      && r.value.insertOrUpdate == BooleanParameter(u, QUERY_KEY_INSERT_OR_UPDATE, false)
      && Ok(r.value.action) == IntegerParameter(u, QUERY_KEY_ACTION, -1)
      && r.value.changeValue == QueryParameter(u, QUERY_KEY_CHANGE_VALUE)
      && r.value.groupBy == QueryParameter(u, QUERY_KEY_GROUP_BY)
      && r.value.additionalData == QueryParameter(u, QUERY_KEY_ADDITIONAL_DATA)
    ensures r.Err? <==> IntegerParameter(u, QUERY_KEY_ACTION, -1).Err?
  {
    var action := IntegerParameter(u, QUERY_KEY_ACTION, -1);
    if action.Err? then Err(action.error)
    else
      Ok(Params(
        BooleanParameter(u, QUERY_KEY_RECORD_CHANGES, true),
        QueryParameter(u, QUERY_KEY_CHANGE_VALUE),
        BooleanParameter(u, QUERY_KEY_NOTIFY, true),
        action.value,
        QueryParameter(u, QUERY_KEY_GROUP_BY),
        QueryParameter(u, QUERY_KEY_ADDITIONAL_DATA),
        BooleanParameter(u, QUERY_KEY_INSERT_OR_UPDATE, false)))
  }

  const TABLE_URI: int := 1
  const ROW_URI: int := 0
  const NO_MATCH: int := -1

  /**
   * The `UriMatcher` of `onCreate`: two segments on this authority make a
   * table address, three whose last is a run of digits a row address.
   */
  function Match(authority: string, u: Address): int {
    if u.authority != authority then NO_MATCH
    else if |u.segments| == 2 then TABLE_URI
    else if |u.segments| == 3 && forall k | 0 <= k < |u.segments[2]| :: IsDigit(u.segments[2][k]) then ROW_URI
    else NO_MATCH
  }

  /** `ContentUris.parseId`: the last segment as a long, -1 without segments. */
  function ParseId(u: Address): Result<int> {
    if |u.segments| == 0 then Ok(-1)
    else
      var last := u.segments[|u.segments| - 1];
      if ParseLong(last).Some? then Ok(ParseLong(last).value) else Err(NumberFormat)
  }

  /**
   * `resolveUri`: the options first; then a table address names its table
   * and account, and anything else is read as a row address whose last
   * segment is the id, failing when that is not a number or when there are
   * fewer than two segments.
   */
  function ResolveUri(authority: string, u: Address): (r: Result<Resolved>)
    ensures r.Ok? ==> |u.segments| >= 2 && r.value.user == u.segments[0] && r.value.table == u.segments[1]
    ensures r.Ok? ==> (r.value.id.None? <==> Match(authority, u) == TABLE_URI)
    ensures r.Ok? ==> Ok(r.value.params) == ResolveParams(u)
  {
    var params := ResolveParams(u);
    if params.Err? then Err(params.error)
    else if Match(authority, u) == TABLE_URI then Ok(Resolved(u.segments[1], u.segments[0], None, params.value))
    else
      var id := ParseId(u);
      if id.Err? then Err(id.error)
      else if |u.segments| < 2 then Err(IndexOutOfBounds)
      else Ok(Resolved(u.segments[1], u.segments[0], Some(id.value), params.value))
  }

  /** An address without parameters has the default options. */
  lemma DefaultParams(u: Address)
    requires u.query == []
    ensures ResolveParams(u) == Ok(DEFAULT_PARAMS)
  {
  }

  /** `getUri(user, table)` resolves back to that table and account, with the default options. */
  lemma ResolveTableAddress(authority: string, user: string, table: string)
    ensures ResolveUri(authority, ForTable(authority, user, table)) == Ok(Resolved(table, user, None, DEFAULT_PARAMS))
  {
    DefaultParams(ForTable(authority, user, table));
  }

  /** A row address made by `withAppendedId` resolves back to that id. */
  lemma ResolveRowAddress(authority: string, user: string, table: string, id: int)
    requires LONG_MIN <= id <= LONG_MAX
    ensures ResolveUri(authority, WithAppendedId(ForTable(authority, user, table), id)) ==
      Ok(Resolved(table, user, Some(id), DEFAULT_PARAMS))
  {
    var u := WithAppendedId(ForTable(authority, user, table), id);
    DefaultParams(u);
    ParseRendered(id, LONG_MIN, LONG_MAX);
    assert u.segments[|u.segments| - 1] == IntToString(id);
  }

  /** `withParams(uri, recordChange)`. */
  function WithParams(u: Address, recordChange: bool): Address {
    AppendQueryParameter(u, QUERY_KEY_RECORD_CHANGES, if recordChange then QUERY_TRUE else QUERY_FALSE)
  }

  /** A table address marked by `withParams` resolves with that record-changes option and no other change. */
  lemma ResolveWithParams(authority: string, user: string, table: string, recordChange: bool)
    ensures ResolveUri(authority, WithParams(ForTable(authority, user, table), recordChange)) ==
      Ok(Resolved(table, user, None, DEFAULT_PARAMS.(recordChanges := recordChange)))
  {
    var u := WithParams(ForTable(authority, user, table), recordChange);
    var v := if recordChange then QUERY_TRUE else QUERY_FALSE;
    assert u.query == [(QUERY_KEY_RECORD_CHANGES, v)];
    assert QueryParameter(u, QUERY_KEY_RECORD_CHANGES) == Some(v);
    assert forall key | key != QUERY_KEY_RECORD_CHANGES :: QueryParameter(u, key).None?;
  }

  // ---------------------------------------------------------------------
  // Selections

  /** `extendSelection`: the selection narrowed to the address's row, if it names one. */
  function ExtendSelection(r: Resolved, selection: Option<string>): Option<string> {
    if r.id.None? then selection
    else if IsEmpty(selection) then Some("_ID = " + IntToString(r.id.value))
    else Some(selection.value + " AND _ID = " + IntToString(r.id.value))
  }

  /**
   * Without a row id the selection is unchanged; with one, the result is the
   * id clause, preceded by the original selection and " AND " when that was
   * not empty.
   */
  lemma ExtendSelectionShape(r: Resolved, selection: Option<string>)
    ensures r.id.None? ==> ExtendSelection(r, selection) == selection
    ensures r.id.Some? ==> ExtendSelection(r, selection).Some?
    ensures r.id.Some? ==>
      var clause := "_ID = " + IntToString(r.id.value);
      var s := ExtendSelection(r, selection).value;
      && |clause| <= |s| && s[|s| - |clause|..] == clause
      && (IsEmpty(selection) ==> s == clause)
      && (!IsEmpty(selection) ==> s[..|s| - |clause|] == selection.value + " AND ")
  {
    if r.id.Some? && !IsEmpty(selection) {
      var clause := "_ID = " + IntToString(r.id.value);
      var s := ExtendSelection(r, selection).value;
      assert s == (selection.value + " AND ") + clause;
    }
  }

  /** Two row ids extending the same selection give different selections. */
  lemma ExtendSelectionInjective(r1: Resolved, r2: Resolved, selection: Option<string>)
    requires r1.id.Some? && r2.id.Some?
    requires ExtendSelection(r1, selection) == ExtendSelection(r2, selection)
    ensures r1.id == r2.id
  {
    ExtendSelectionShape(r1, selection);
    ExtendSelectionShape(r2, selection);
    var c1 := "_ID = " + IntToString(r1.id.value);
    var c2 := "_ID = " + IntToString(r2.id.value);
    var s := ExtendSelection(r1, selection).value;
    if IsEmpty(selection) {
      assert c1[6..] == IntToString(r1.id.value);
      assert c2[6..] == IntToString(r2.id.value);
    } else {
      var head := selection.value + " AND ";
      assert s == head + c1 && s == head + c2;
      assert c1 == s[|head|..] == c2;
      assert c1[6..] == IntToString(r1.id.value);
      assert c2[6..] == IntToString(r2.id.value);
    }
    IntToStringInjective(r1.id.value, r2.id.value);
  }

  // ---------------------------------------------------------------------
  // The schema as the provider sees it

  datatype ColumnInfo = ColumnInfo(name: string, uid: bool)

  /** What the provider reads off a `Table`: `isLocal`, the views referencing it, its columns. */
  datatype TableInfo = TableInfo(local: bool, referencedBy: seq<string>, columns: seq<ColumnInfo>)

  /** The UID columns of a table, in column order, as `onCreate` collects them. */
  function UidColumns(cols: seq<ColumnInfo>): (r: seq<string>)
    ensures |r| <= |cols|
  {
    if |cols| == 0 then []
    else UidColumns(cols[..|cols| - 1]) + (if cols[|cols| - 1].uid then [cols[|cols| - 1].name] else [])
  }

  /** A name is collected exactly when some UID column carries it. */
  lemma {:induction false} UidColumnsExact(cols: seq<ColumnInfo>, n: string)
    ensures n in UidColumns(cols) <==> exists i | 0 <= i < |cols| :: cols[i].uid && cols[i].name == n
  {
    if |cols| > 0 {
      var init := cols[..|cols| - 1];
      UidColumnsExact(init, n);
      assert forall i | 0 <= i < |init| :: init[i] == cols[i];
      if cols[|cols| - 1].uid && cols[|cols| - 1].name == n {
        assert n in UidColumns(cols);
      }
    }
  }

  // ---------------------------------------------------------------------
  // Content values

  /** `ContentValues`, as the processor's data entries hold them. */
  type Values = DataEntries.Row

  // ---------------------------------------------------------------------
  // UIDs

  type Preferences = map<string, Long>

  const FIRST_UID: Long := 0

  /** `nextUIDValue`: one more, wrapping around as Java's `long` does. */
  function NextUID(v: Long): Long {
    if v == LONG_MAX then LONG_MIN else v + 1
  }

  /** The preference key of a table's column. */
  function UidKey(table: string, column: string): string {
    table + ":" + column
  }

  /** `newUID`: the stored value (the first UID when none is stored) and the store with its successor. */
  function Allocate(prefs: Preferences, key: string): (Long, Preferences) {
    var v := if key in prefs then prefs[key] else FIRST_UID;
    (v, prefs[key := NextUID(v)])
  }

  /** The values `n` successive `newUID` calls on one key return. */
  function Allocations(prefs: Preferences, key: string, n: nat): seq<Long>
    decreases n
  {
    if n == 0 then [] else var (v, p) := Allocate(prefs, key); [v] + Allocations(p, key, n - 1)
  }

  /** Until the counter wraps, successive UIDs of one key are consecutive, hence strictly increasing. */
  lemma {:induction false} AllocationsIncrease(prefs: Preferences, key: string, n: nat)
    requires Allocate(prefs, key).0 + n <= LONG_MAX + 1
    ensures |Allocations(prefs, key, n)| == n
    ensures forall i | 0 <= i < n :: Allocations(prefs, key, n)[i] == Allocate(prefs, key).0 + i
    ensures forall i, j | 0 <= i < j < n :: Allocations(prefs, key, n)[i] < Allocations(prefs, key, n)[j]
    decreases n
  {
    if n > 0 {
      var (v, p) := Allocate(prefs, key);
      if n > 1 {
        assert Allocate(p, key).0 == v + 1;
      }
      AllocationsIncrease(p, key, n - 1);
    }
  }

  /** Allocating under one key leaves every other key's counter alone. */
  lemma AllocateSeparate(prefs: Preferences, key: string, other: string)
    requires other != key
    ensures Allocate(Allocate(prefs, key).1, other).0 == Allocate(prefs, other).0
  {
  }

  /**
   * `fillUIDs` on a table's UID columns: each column the values lack gets a
   * fresh UID under the key "table:column"; the others are left alone.
   */
  function Fill(prefs: Preferences, table: string, cols: seq<string>, values: Values): (Preferences, Values) {
    if |cols| == 0 then (prefs, values)
    else
      var (p, v) := Fill(prefs, table, cols[..|cols| - 1], values);
      var c := cols[|cols| - 1];
      if c in v then (p, v)
      else var (uid, p') := Allocate(p, UidKey(table, c)); (p', v[c := DataEntries.LongVal(uid)])
  }

  /** Filling keeps every given value and adds exactly the UID columns that were missing. */
  lemma {:induction false} FillValues(prefs: Preferences, table: string, cols: seq<string>, values: Values)
    ensures var v := Fill(prefs, table, cols, values).1;
      && v.Keys == values.Keys + (set i | 0 <= i < |cols| :: cols[i])
      && forall k | k in values :: v[k] == values[k]
  {
    if |cols| > 0 {
      var init := cols[..|cols| - 1];
      FillValues(prefs, table, init, values);
      assert (set i | 0 <= i < |cols| :: cols[i]) == (set i | 0 <= i < |init| :: init[i]) + {cols[|cols| - 1]};
    }
  }

  /** Each filled column holds a long (the UID it was given). */
  lemma {:induction false} FillLongs(prefs: Preferences, table: string, cols: seq<string>, values: Values)
    ensures var v := Fill(prefs, table, cols, values).1;
      forall k | k in v && k !in values :: v[k].LongVal?
  {
    if |cols| > 0 {
      FillLongs(prefs, table, cols[..|cols| - 1], values);
    }
  }

  /** A table whose values already hold every UID column allocates nothing. */
  lemma {:induction false} FillComplete(prefs: Preferences, table: string, cols: seq<string>, values: Values)
    requires forall i | 0 <= i < |cols| :: cols[i] in values
    ensures Fill(prefs, table, cols, values) == (prefs, values)
  {
    if |cols| > 0 {
      FillComplete(prefs, table, cols[..|cols| - 1], values);
    }
  }

  // ---------------------------------------------------------------------
  // The change journal

  /** What the subclass provides: `getChangeIdColumn`, `renderValues` and JSON parsing of additional data. */
  datatype Hooks = Hooks(
    changeIdOf: string -> string,
    render: (Option<Values>, string, int) -> map<string, string>,
    parseJson: string -> Option<map<string, string>>)

  /** The payload of a journal row: the caller's literal, or the rendered REMOTE columns. */
  datatype Payload = Custom(text: string) | Rendered(object: map<string, string>)

  /** A journal row, as `getChanges` fills it. */
  datatype Change = Change(
    table: string,
    nativeId: int,
    objectId: int,
    action: int,
    timestamp: string,
    values: Payload,
    additionalData: map<string, string>)

  /**
   * The object id of a journal row: the native id when the change-id column
   * is `_id`; otherwise the column's value in `values` (null there is a
   * `NullPointerException`), otherwise, for a non-zero id, the column of the
   * row with that `_id` as the store answers (`None` when there is no such
   * row: no journal row is written), otherwise the native id.
   */
  function ObjectId(column: string, id: int, values: Option<Values>, lookup: int -> Option<int>): Result<Option<int>> {
    if column == Changes.ID then Ok(Some(id))
    else if values.Some? && column in values.value then
      var n := DataEntries.GetAsLong(values.value, column);
      if n.Some? then Ok(Some(n.value as int)) else Err(NullPointer)
    else if id != 0 then Ok(lookup(id))
    else Ok(Some(id))
  }

  /** The INFO object with the additional data's keys put over it; malformed additional data is ignored. */
  function Merged(hooks: Hooks, info: map<string, string>, additionalData: Option<string>): map<string, string> {
    if additionalData.Some? && hooks.parseJson(additionalData.value).Some? then info + hooks.parseJson(additionalData.value).value
    else info
  }

  /** `getChanges`: the journal row for one id, none, or the exception raised while building it. */
  function GetChanges(hooks: Hooks, action: int, table: string, id: int, values: Option<Values>,
                      customValue: Option<string>, additionalData: Option<string>,
                      now: string, lookup: int -> Option<int>): Result<Option<Change>>
  {
    var payload := if customValue.Some? then Custom(customValue.value) else Rendered(hooks.render(values, table, Storage.REMOTE));
    var objId := ObjectId(hooks.changeIdOf(table), id, values, lookup);
    if objId.Err? then Err(objId.error)
    else if objId.value.None? then Ok(None)
    else
      var info := Merged(hooks, hooks.render(values, table, Storage.INFO), additionalData);
      Ok(Some(Change(table, id, objId.value.value, action, now, payload, info)))
  }

  /**
   * A journal row records the table, the native id and the action given; its
   * payload is the custom value when there is one, else the rendering of the
   * REMOTE columns.
   */
  lemma GetChangesRow(hooks: Hooks, action: int, table: string, id: int, values: Option<Values>,
                      customValue: Option<string>, additionalData: Option<string>,
                      now: string, lookup: int -> Option<int>)
    requires GetChanges(hooks, action, table, id, values, customValue, additionalData, now, lookup).Ok?
    requires GetChanges(hooks, action, table, id, values, customValue, additionalData, now, lookup).value.Some?
    ensures var c := GetChanges(hooks, action, table, id, values, customValue, additionalData, now, lookup).value.value;
      && c.table == table && c.nativeId == id && c.action == action && c.timestamp == now
      && c.values == (if customValue.Some? then Custom(customValue.value) else Rendered(hooks.render(values, table, Storage.REMOTE)))
      && (hooks.changeIdOf(table) == Changes.ID ==> c.objectId == id)
  {
  }

  /** With `_id` as change-id column a row is always written and its object id is the native id. */
  lemma NativeObjectId(hooks: Hooks, action: int, table: string, id: int, values: Option<Values>,
                       customValue: Option<string>, additionalData: Option<string>,
                       now: string, lookup: int -> Option<int>)
    requires hooks.changeIdOf(table) == Changes.ID
    ensures var r := GetChanges(hooks, action, table, id, values, customValue, additionalData, now, lookup);
      r.Ok? && r.value.Some? && r.value.value.objectId == id
  {
  }

  /** A row the store does not find yields no journal row. */
  lemma MissingRowSkipped(hooks: Hooks, action: int, table: string, id: int, values: Option<Values>,
                          customValue: Option<string>, additionalData: Option<string>,
                          now: string, lookup: int -> Option<int>)
    requires hooks.changeIdOf(table) != Changes.ID && id != 0 && lookup(id).None?
    requires values.None? || hooks.changeIdOf(table) !in values.value
    ensures GetChanges(hooks, action, table, id, values, customValue, additionalData, now, lookup) == Ok(None)
  {
  }

  /** Additional-data keys overwrite INFO keys, the other INFO keys stay, and malformed data changes nothing. */
  lemma MergedKeys(hooks: Hooks, info: map<string, string>, additionalData: Option<string>)
    ensures additionalData.None? || hooks.parseJson(additionalData.value).None? ==>
      Merged(hooks, info, additionalData) == info
    ensures additionalData.Some? && hooks.parseJson(additionalData.value).Some? ==>
      var extra := hooks.parseJson(additionalData.value).value;
      var m := Merged(hooks, info, additionalData);
      && m.Keys == info.Keys + extra.Keys
      && (forall k | k in extra :: m[k] == extra[k])
      && (forall k | k in info && k !in extra :: m[k] == info[k])
  {
  }

  // ---------------------------------------------------------------------
  // What an operation does

  /** What is written to the store, sent to observers, or handed to the sync processor. */
  datatype Event =
    | TxBegin
    | TxSuccess
    | TxEnd
    | StoreInsert(table: string, values: Values, replace: bool)
    | StoreUpdate(table: string, values: Values, selection: Option<string>)
    | StoreDelete(table: string, selection: Option<string>)
    | Journaled(change: Change)
    | Notified(uri: Address, syncToNetwork: bool)
    | Performed(startTime: int)

  /** A deferred `notifyChange` call. */
  datatype Notification = Notification(uri: Address, resolved: Resolved)

  /** The events an operation emits, the notifications it queues, and the exception that ended it, if any. */
  datatype Effect = Effect(events: seq<Event>, queued: seq<Notification>, error: Option<Exception>)

  const NOTHING: Effect := Effect([], [], None)

  function Emit(e: Event): Effect { Effect([e], [], None) }

  function Fail(e: Exception): Effect { Effect([], [], Some(e)) }

  /** `a`, then `b` unless `a` threw. */
  function Then(a: Effect, b: Effect): Effect {
    if a.error.Some? then a else Effect(a.events + b.events, a.queued + b.queued, b.error)
  }

  /** `begin; try { body; setTransactionSuccessful } finally { end }`. */
  function Transaction(body: Effect): Effect {
    var e := Then(Emit(TxBegin), Then(body, Emit(TxSuccess)));
    e.(events := e.events + [TxEnd])
  }

  lemma ThenAssoc(a: Effect, b: Effect, c: Effect)
    ensures Then(Then(a, b), c) == Then(a, Then(b, c))
  {
    if a.error.None? && b.error.None? {
      AppendAssoc(a.events, b.events, c.events);
      AppendAssoc(a.queued, b.queued, c.queued);
    }
  }

  /**
   * A transaction begins first and ends last, whatever happens; it is marked
   * successful exactly when its body did not throw, right before it ends.
   */
  lemma TransactionShape(body: Effect)
    ensures var t := Transaction(body);
      && t.events[0] == TxBegin && t.events[|t.events| - 1] == TxEnd
      && t.events[1..|t.events| - 1] == body.events + (if body.error.None? then [TxSuccess] else [])
      && t.queued == body.queued && t.error == body.error
  {
    var t := Transaction(body);
    assert t.events == [TxBegin] + (body.events + (if body.error.None? then [TxSuccess] else [])) + [TxEnd];
  }

  /** No observer is notified. */
  predicate Quiet(e: Effect) {
    forall i | 0 <= i < |e.events| :: !e.events[i].Notified?
  }

  lemma QuietThen(a: Effect, b: Effect)
    requires Quiet(a) && Quiet(b)
    ensures Quiet(Then(a, b))
  {
  }

  lemma QuietTransaction(body: Effect)
    requires Quiet(body)
    ensures Quiet(Transaction(body))
  {
    TransactionShape(body);
  }

  /** Some observer is notified. */
  predicate Notifies(e: Effect) {
    exists i | 0 <= i < |e.events| :: e.events[i].Notified?
  }

  /** A transaction notifies exactly when its body does, and queues what its body queues. */
  lemma TransactionNotifies(body: Effect)
    ensures Notifies(Transaction(body)) <==> Notifies(body)
    ensures Quiet(Transaction(body)) <==> Quiet(body)
    ensures Transaction(body).queued == body.queued && Transaction(body).error == body.error
  {
    TransactionShape(body);
    var t := Transaction(body);
    assert forall i | 0 < i < |t.events| - 1 :: t.events[i] == (body.events + (if body.error.None? then [TxSuccess] else []))[i - 1];
    if Notifies(body) {
      var i :| 0 <= i < |body.events| && body.events[i].Notified?;
      assert t.events[i + 1] == body.events[i];
    }
    if !Quiet(body) {
      var i :| 0 <= i < |body.events| && body.events[i].Notified?;
      assert t.events[i + 1] == body.events[i];
    }
  }

  // ---------------------------------------------------------------------
  // Notifications

  /** The provider's fixed configuration: its authority, the schema, and the subclass's hooks. */
  datatype Config = Config(authority: string, schema: map<string, TableInfo>, hooks: Hooks)

  /** An address `getUri` could have made: this authority, two segments, no parameters. */
  predicate IsTableAddress(authority: string, u: Address) {
    u.authority == authority && |u.segments| == 2 && u.query == []
  }

  /** A notification whose resolved form names the table and account of its address when that is a table address. */
  predicate Consistent(authority: string, n: Notification) {
    IsTableAddress(authority, n.uri) ==> n.resolved.user == n.uri.segments[0] && n.resolved.table == n.uri.segments[1]
  }

  /** What `resolveUri` gives, whatever row id is set on it later, is consistent with its address. */
  lemma ResolvedConsistent(authority: string, u: Address, r: Resolved, id: Option<int>)
    requires ResolveUri(authority, u) == Ok(r)
    ensures Consistent(authority, Notification(u, r.(id := id)))
  {
  }

  /** `getDependencies`: the address of each view referencing the table, for the same account. */
  function DependencyAddresses(config: Config, user: string, table: string): (r: Result<seq<Address>>)
    ensures table !in config.schema <==> r.Err?
    ensures r.Ok? ==> |r.value| == |config.schema[table].referencedBy|
    ensures r.Ok? ==> forall i | 0 <= i < |r.value| :: r.value[i] == ForTable(config.authority, user, config.schema[table].referencedBy[i])
  {
    if table !in config.schema then Err(NotFound)
    else
      var refs := config.schema[table].referencedBy;
      Ok(seq(|refs|, i requires 0 <= i < |refs| => ForTable(config.authority, user, refs[i])))
  }

  function Notices(ds: seq<Address>, sync: bool): (r: seq<Event>)
    ensures |r| == |ds| && forall i | 0 <= i < |ds| :: r[i] == Notified(ds[i], sync)
  {
    seq(|ds|, i requires 0 <= i < |ds| => Notified(ds[i], sync))
  }

  lemma NoticesSnoc(ds: seq<Address>, i: nat, sync: bool)
    requires i < |ds|
    ensures Notices(ds[..i + 1], sync) == Notices(ds[..i], sync) + [Notified(ds[i], sync)]
  {
  }

  /** Notifying the address, then each dependent view; an unknown table throws after the first. */
  function Announce(config: Config, uri: Address, r: Resolved): Effect {
    var sync := r.params.recordChanges;
    match DependencyAddresses(config, r.user, r.table)
    case Err(e) => Effect([Notified(uri, sync)], [], Some(e))
    case Ok(ds) => Effect([Notified(uri, sync)] + Notices(ds, sync), [], None)
  }

  /** `notifyChange`: queued while aggregating, whatever the notify option; else sent if it is set. */
  function NotifyEffect(config: Config, aggregate: bool, uri: Address, r: Resolved): Effect {
    if aggregate then Effect([], [Notification(uri, r)], None)
    else if r.params.notify then Announce(config, uri, r)
    else NOTHING
  }

  /**
   * Aggregation queues exactly the call and sends nothing; otherwise nothing
   * is queued, and something is sent exactly when the notify option is set:
   * the address first, then its dependent views, each with the
   * record-changes option as the sync flag.
   */
  lemma NotifyCases(config: Config, aggregate: bool, uri: Address, r: Resolved)
    ensures var e := NotifyEffect(config, aggregate, uri, r);
      && (aggregate ==> e.events == [] && e.queued == [Notification(uri, r)] && e.error.None?)
      && (!aggregate ==> e.queued == [])
      && (!aggregate ==> (|e.events| > 0 <==> r.params.notify))
      && (!aggregate && r.params.notify ==> e.events[0] == Notified(uri, r.params.recordChanges))
      && (!aggregate && r.params.notify && r.table in config.schema ==>
            e.error.None? && |e.events| == 1 + |config.schema[r.table].referencedBy|
            && forall i | 0 < i < |e.events| ::
                 e.events[i] == Notified(ForTable(config.authority, r.user, config.schema[r.table].referencedBy[i - 1]), r.params.recordChanges))
  {
  }

  /** The queue flushed in order, each with aggregation off; the first exception stops the flush. */
  function FlushEffect(config: Config, q: seq<Notification>): Effect {
    if |q| == 0 then NOTHING
    else Then(FlushEffect(config, q[..|q| - 1]), NotifyEffect(config, false, q[|q| - 1].uri, q[|q| - 1].resolved))
  }

  /** Flushing two queues is flushing the first, then (unless it threw) the second. */
  lemma {:induction false} FlushAppend(config: Config, a: seq<Notification>, b: seq<Notification>)
    ensures FlushEffect(config, a + b) == Then(FlushEffect(config, a), FlushEffect(config, b))
    decreases |b|
  {
    if |b| == 0 {
      assert a + b == a;
    } else {
      var init := b[..|b| - 1];
      var last := b[|b| - 1];
      assert (a + b)[..|a + b| - 1] == a + init;
      FlushAppend(config, a, init);
      ThenAssoc(FlushEffect(config, a), FlushEffect(config, init),
                NotifyEffect(config, false, last.uri, last.resolved));
    }
  }

  /** A one-element queue is flushed as one `notifyChange` without aggregation. */
  lemma FlushOne(config: Config, n: Notification)
    ensures FlushEffect(config, [n]) == NotifyEffect(config, false, n.uri, n.resolved)
  {
    assert [n][..0] == [];
  }

  /** Flushing queues nothing again. */
  lemma {:induction false} FlushQueuesNothing(config: Config, q: seq<Notification>)
    ensures FlushEffect(config, q).queued == []
  {
    if |q| > 0 {
      FlushQueuesNothing(config, q[..|q| - 1]);
    }
  }

  /** `getUri(user, table)` of each table, resolved: what `DataProcessor.notifyChanges` hands to `notifyChange`. */
  function TableNotices(config: Config, user: string, tables: seq<string>): (q: seq<Notification>)
    ensures |q| == |tables|
    ensures forall i | 0 <= i < |tables| ::
      q[i] == Notification(ForTable(config.authority, user, tables[i]), Resolved(tables[i], user, None, DEFAULT_PARAMS))
  {
    seq(|tables|, i requires 0 <= i < |tables| =>
      Notification(ForTable(config.authority, user, tables[i]), Resolved(tables[i], user, None, DEFAULT_PARAMS)))
  }

  /** `DataProcessor.notifyChanges`: `notifyChange` on each table's address in turn, the first exception ending the loop. */
  function NotifyTablesEffect(config: Config, aggregate: bool, user: string, tables: seq<string>): Effect {
    if |tables| == 0 then NOTHING
    else
      var t := tables[|tables| - 1];
      Then(NotifyTablesEffect(config, aggregate, user, tables[..|tables| - 1]),
           NotifyEffect(config, aggregate, ForTable(config.authority, user, t), Resolved(t, user, None, DEFAULT_PARAMS)))
  }

  /**
   * While aggregating, the tables' notifications are queued in order and
   * nothing is sent; otherwise they go out exactly as a flush of that queue
   * would send them.
   */
  lemma {:induction false} NotifyTablesQueuesOrFlushes(config: Config, user: string, tables: seq<string>)
    ensures NotifyTablesEffect(config, true, user, tables) == Effect([], TableNotices(config, user, tables), None)
    ensures NotifyTablesEffect(config, false, user, tables) == FlushEffect(config, TableNotices(config, user, tables))
  {
    if |tables| > 0 {
      var init := tables[..|tables| - 1];
      NotifyTablesQueuesOrFlushes(config, user, init);
      assert TableNotices(config, user, tables)[..|tables| - 1] == TableNotices(config, user, init);
    }
  }

  /**
   * Without aggregation, and with every table in the schema, nothing throws
   * or is queued, and each table's own address is announced with the sync
   * flag set, as the default options ask.
   */
  lemma {:induction false} NotifyTablesAnnounces(config: Config, user: string, tables: seq<string>)
    requires forall i | 0 <= i < |tables| :: tables[i] in config.schema
    ensures var e := NotifyTablesEffect(config, false, user, tables);
      && e.error.None? && e.queued == []
      && forall i | 0 <= i < |tables| :: Notified(ForTable(config.authority, user, tables[i]), true) in e.events
  {
    if |tables| > 0 {
      var init := tables[..|tables| - 1];
      var t := tables[|tables| - 1];
      NotifyTablesAnnounces(config, user, init);
      TableAnnounced(config, user, t);
      var before := NotifyTablesEffect(config, false, user, init);
      var n := NotifyEffect(config, false, ForTable(config.authority, user, t), Resolved(t, user, None, DEFAULT_PARAMS));
      assert NotifyTablesEffect(config, false, user, tables) == Then(before, n);
      AnnouncedSnoc(config.authority, user, tables, before.events, n.events);
    }
  }

  /** The announcements of the earlier tables, followed by those of the last, cover every table. */
  lemma AnnouncedSnoc(authority: string, user: string, tables: seq<string>, before: seq<Event>, last: seq<Event>)
    requires |tables| > 0 && |last| > 0 && last[0] == Notified(ForTable(authority, user, tables[|tables| - 1]), true)
    requires var init := tables[..|tables| - 1];
      forall i | 0 <= i < |init| :: Notified(ForTable(authority, user, init[i]), true) in before
    ensures forall i | 0 <= i < |tables| :: Notified(ForTable(authority, user, tables[i]), true) in before + last
  {
    var init := tables[..|tables| - 1];
    forall i | 0 <= i < |tables| ensures Notified(ForTable(authority, user, tables[i]), true) in before + last {
      if i < |init| {
        assert init[i] == tables[i];
        assert Notified(ForTable(authority, user, init[i]), true) in before;
      } else {
        assert (before + last)[|before|] == last[0];
      }
    }
  }

  /** One table of the schema, announced without aggregation: its own address comes first, and nothing throws. */
  lemma TableAnnounced(config: Config, user: string, t: string)
    requires t in config.schema
    ensures var n := NotifyEffect(config, false, ForTable(config.authority, user, t), Resolved(t, user, None, DEFAULT_PARAMS));
      && n.error.None? && n.queued == [] && |n.events| > 0 && n.events[0] == Notified(ForTable(config.authority, user, t), true)
  {
    assert DependencyAddresses(config, user, t).Ok?;
  }

  /** One more table, when none of the earlier ones threw. */
  lemma NotifyTablesSnoc(config: Config, aggregate: bool, user: string, tables: seq<string>, i: nat)
    requires i < |tables| && NotifyTablesEffect(config, aggregate, user, tables[..i]).error.None?
    ensures var e := NotifyEffect(config, aggregate, ForTable(config.authority, user, tables[i]), Resolved(tables[i], user, None, DEFAULT_PARAMS));
      var before := NotifyTablesEffect(config, aggregate, user, tables[..i]);
      var after := NotifyTablesEffect(config, aggregate, user, tables[..i + 1]);
      && after.events == before.events + e.events
      && after.queued == before.queued + e.queued
      && after.error == e.error
  {
    assert tables[..i + 1][..i] == tables[..i];
  }

  /** Once a table's notification threw, the later tables are not notified. */
  lemma {:induction false} NotifyTablesStop(config: Config, aggregate: bool, user: string, tables: seq<string>, j: nat)
    requires j <= |tables| && NotifyTablesEffect(config, aggregate, user, tables[..j]).error.Some?
    ensures NotifyTablesEffect(config, aggregate, user, tables) == NotifyTablesEffect(config, aggregate, user, tables[..j])
    decreases |tables| - j
  {
    if j < |tables| {
      assert tables[..j + 1][..j] == tables[..j];
      NotifyTablesStop(config, aggregate, user, tables, j + 1);
    } else {
      assert tables[..j] == tables;
    }
  }

  // ---------------------------------------------------------------------
  // Journaling

  /** The action recorded: a non-negative custom action replaces the operation's own. */
  function JournalAction(action: int, r: Resolved): int {
    if r.params.action >= 0 then r.params.action else action
  }

  /** The ids journaled: the address's row id; 0 for a removal without one; else the matching rows' change ids. */
  function JournalIds(action: int, r: Resolved, matching: seq<int>): seq<int> {
    if r.id.Some? then [r.id.value]
    else if action == Changes.ACTION_REMOVE then [0]
    else matching
  }

  /** What the store answers one operation; `lookup` gives the change-id column of the row with an `_id`. */
  datatype Answers = Answers(rowId: int, count: int, matching: seq<int>, lookup: int -> Option<int>, now: string)

  /** `insertSingleChange`. */
  function RowEffect(hooks: Hooks, action: int, r: Resolved, values: Option<Values>, ans: Answers, id: int): Effect {
    match GetChanges(hooks, action, r.table, id, values, r.params.changeValue, r.params.additionalData, ans.now, ans.lookup)
    case Err(e) => Fail(e)
    case Ok(None) => NOTHING
    case Ok(Some(c)) => Emit(Journaled(c))
  }

  /** One journal row per id, in order, stopping at the first exception. */
  function JournalRows(hooks: Hooks, action: int, r: Resolved, values: Option<Values>, ans: Answers, ids: seq<int>): Effect {
    if |ids| == 0 then NOTHING
    else Then(JournalRows(hooks, action, r, values, ans, ids[..|ids| - 1]), RowEffect(hooks, action, r, values, ans, ids[|ids| - 1]))
  }

  /**
   * `insertChanges`: nothing when changes are not recorded or the table is
   * local; a table the schema does not know is a `NullPointerException`;
   * otherwise a journal row for each id journaled.
   */
  function JournalEffect(config: Config, action: int, r: Resolved, values: Option<Values>, ans: Answers): Effect {
    if !r.params.recordChanges then NOTHING
    else if r.table !in config.schema then Fail(NullPointer)
    else if config.schema[r.table].local then NOTHING
    else
      var a := JournalAction(action, r);
      JournalRows(config.hooks, a, r, values, ans, JournalIds(a, r, ans.matching))
  }

  /** The journal only ever writes journal rows, and queues nothing. */
  predicate OnlyJournaled(e: Effect) {
    e.queued == [] && forall i | 0 <= i < |e.events| :: e.events[i].Journaled?
  }

  lemma {:induction false} JournalRowsOnly(hooks: Hooks, action: int, r: Resolved, values: Option<Values>, ans: Answers, ids: seq<int>)
    ensures OnlyJournaled(JournalRows(hooks, action, r, values, ans, ids))
  {
    if |ids| > 0 {
      JournalRowsOnly(hooks, action, r, values, ans, ids[..|ids| - 1]);
    }
  }

  lemma JournalOnly(config: Config, action: int, r: Resolved, values: Option<Values>, ans: Answers)
    ensures OnlyJournaled(JournalEffect(config, action, r, values, ans))
  {
    if r.params.recordChanges && r.table in config.schema && !config.schema[r.table].local {
      var a := JournalAction(action, r);
      JournalRowsOnly(config.hooks, a, r, values, ans, JournalIds(a, r, ans.matching));
    }
  }

  /** Writes to a local table, such as the journal itself, and writes with changes not recorded leave no journal row. */
  lemma LocalNotJournaled(config: Config, action: int, r: Resolved, values: Option<Values>, ans: Answers)
    requires !r.params.recordChanges || (r.table in config.schema && config.schema[r.table].local)
    ensures JournalEffect(config, action, r, values, ans) == NOTHING
  {
  }

  /** The journal descriptor is local, so a schema built from it never journals writes to the journal. */
  lemma JournalNeverJournaled(config: Config, action: int, r: Resolved, values: Option<Values>, ans: Answers)
    requires r.table == Changes.TABLE_NAME && r.table in config.schema
    requires config.schema[r.table].local == Changes.JOURNAL.local
    ensures JournalEffect(config, action, r, values, ans) == NOTHING
  {
  }

  /**
   * With `_id` as change-id column, a recorded write journals exactly one
   * row per journaled id, in order, each with that native id and the
   * recorded action.
   */
  lemma {:induction false} JournalRowsNative(hooks: Hooks, action: int, r: Resolved, values: Option<Values>, ans: Answers, ids: seq<int>)
    requires hooks.changeIdOf(r.table) == Changes.ID
    ensures var e := JournalRows(hooks, action, r, values, ans, ids);
      && e.error.None? && |e.events| == |ids|
      && forall i | 0 <= i < |ids| :: e.events[i].Journaled? && e.events[i].change.nativeId == ids[i]
           && e.events[i].change.objectId == ids[i] && e.events[i].change.action == action && e.events[i].change.table == r.table
  {
    if |ids| > 0 {
      var init := ids[..|ids| - 1];
      JournalRowsNative(hooks, action, r, values, ans, init);
      NativeObjectId(hooks, action, r.table, ids[|ids| - 1], values, r.params.changeValue, r.params.additionalData, ans.now, ans.lookup);
    }
  }

  /**
   * The decision table of `insertChanges` for a recorded write to a
   * journaled table whose change-id column is `_id`: one row for the
   * address's id, one row with id 0 for a removal without one, otherwise
   * one row per matching row, all with the custom action if one is given.
   */
  lemma JournalDecisions(config: Config, action: int, r: Resolved, values: Option<Values>, ans: Answers)
    requires r.params.recordChanges && r.table in config.schema && !config.schema[r.table].local
    requires config.hooks.changeIdOf(r.table) == Changes.ID
    ensures var e := JournalEffect(config, action, r, values, ans);
      var a := if r.params.action >= 0 then r.params.action else action;
      var ids := if r.id.Some? then [r.id.value] else if a == Changes.ACTION_REMOVE then [0] else ans.matching;
      && e.error.None? && |e.events| == |ids|
      && forall i | 0 <= i < |ids| ::
           e.events[i].Journaled? && e.events[i].change.nativeId == ids[i] && e.events[i].change.action == a
  {
    var a := JournalAction(action, r);
    JournalRowsNative(config.hooks, a, r, values, ans, JournalIds(a, r, ans.matching));
  }

  // ---------------------------------------------------------------------
  // Insert, update and delete

  /**
   * `insert`: the address must not name a row (`IllegalArgumentException`)
   * and must name a table (else `fillUIDs` throws); the missing UIDs are
   * filled, then in one transaction the row is inserted (replacing a
   * conflicting row when insert-or-update is asked for), a CREATE is
   * journaled for the new row id, and observers are notified when that id
   * is not negative.
   */
  function InsertEffect(config: Config, prefs: Preferences, aggregate: bool, uri: Address, values: Values, ans: Answers)
    : (Effect, Preferences)
  {
    match ResolveUri(config.authority, uri)
    case Err(e) => (Fail(e), prefs)
    case Ok(r) =>
      if r.id.Some? then (Fail(IllegalArgument), prefs)
      else if r.table !in config.schema then (Fail(NullPointer), prefs)
      else
        var (p, v) := Fill(prefs, r.table, UidColumns(config.schema[r.table].columns), values);
        (InsertBody(config, aggregate, uri, r, v, ans), p)
  }

  /** The transaction of `insert`: the store insert, the CREATE journaled, and the notification when the row id is valid. */
  function InsertBody(config: Config, aggregate: bool, uri: Address, r: Resolved, v: Values, ans: Answers): Effect {
    var withId := r.(id := Some(ans.rowId));
    Transaction(Then(Emit(StoreInsert(r.table, v, r.params.insertOrUpdate)),
                     Then(JournalEffect(config, Changes.ACTION_CREATE, withId, Some(v), ans),
                          if ans.rowId >= 0 then NotifyEffect(config, aggregate, uri, withId) else NOTHING)))
  }

  /** An insert the address and the schema let through is its transaction over the filled values. */
  lemma InsertEffectOk(config: Config, prefs: Preferences, aggregate: bool, uri: Address, values: Values, ans: Answers)
    requires ResolveUri(config.authority, uri).Ok?
    requires ResolveUri(config.authority, uri).value.id.None?
    requires ResolveUri(config.authority, uri).value.table in config.schema
    ensures var r := ResolveUri(config.authority, uri).value;
      var f := Fill(prefs, r.table, UidColumns(config.schema[r.table].columns), values);
      InsertEffect(config, prefs, aggregate, uri, values, ans) == (InsertBody(config, aggregate, uri, r, f.1, ans), f.0)
  {
  }

  /** `update`: journal the UPDATE, update the selected rows, notify when any changed; in one transaction. */
  function UpdateEffect(config: Config, aggregate: bool, uri: Address, values: Values, selection: Option<string>, ans: Answers): Effect {
    match ResolveUri(config.authority, uri)
    case Err(e) => Fail(e)
    case Ok(r) =>
      Transaction(WriteBody(JournalEffect(config, Changes.ACTION_UPDATE, r, Some(values), ans),
                            StoreUpdate(r.table, values, ExtendSelection(r, selection)),
                            ans.count > 0, NotifyEffect(config, aggregate, uri, r)))
  }

  /** `delete`: journal the REMOVE, delete the selected rows, notify when any went; in one transaction. */
  function DeleteEffect(config: Config, aggregate: bool, uri: Address, selection: Option<string>, ans: Answers): Effect {
    match ResolveUri(config.authority, uri)
    case Err(e) => Fail(e)
    case Ok(r) =>
      Transaction(WriteBody(JournalEffect(config, Changes.ACTION_REMOVE, r, None, ans),
                            StoreDelete(r.table, ExtendSelection(r, selection)),
                            ans.count > 0, NotifyEffect(config, aggregate, uri, r)))
  }

  /** An insert on a row address is refused before anything happens. */
  lemma InsertRejectsRowAddress(config: Config, prefs: Preferences, aggregate: bool, uri: Address, values: Values, ans: Answers)
    requires ResolveUri(config.authority, uri).Ok? && ResolveUri(config.authority, uri).value.id.Some?
    ensures InsertEffect(config, prefs, aggregate, uri, values, ans) == (Fail(IllegalArgument), prefs)
  {
  }

  /** The store sees the given values with the missing UID columns filled. */
  lemma InsertFillsUids(config: Config, prefs: Preferences, aggregate: bool, uri: Address, values: Values, ans: Answers)
    requires ResolveUri(config.authority, uri).Ok?
    requires var r := ResolveUri(config.authority, uri).value; r.id.None? && r.table in config.schema
    ensures var r := ResolveUri(config.authority, uri).value;
      var e := InsertEffect(config, prefs, aggregate, uri, values, ans).0;
      var cols := UidColumns(config.schema[r.table].columns);
      && e.events[0] == TxBegin && e.events[1].StoreInsert? && e.events[1].table == r.table
      && e.events[1].values.Keys == values.Keys + (set i | 0 <= i < |cols| :: cols[i])
      && (forall k | k in values :: e.events[1].values[k] == values[k])
  {
    var r := ResolveUri(config.authority, uri).value;
    var cols := UidColumns(config.schema[r.table].columns);
    InsertEffectOk(config, prefs, aggregate, uri, values, ans);
    var f := Fill(prefs, r.table, cols, values);
    InsertBodyHead(config, aggregate, uri, r, f.1, ans);
    FillValues(prefs, r.table, cols, values);
  }

  /** An insert's transaction begins, then writes the row. */
  lemma InsertBodyHead(config: Config, aggregate: bool, uri: Address, r: Resolved, v: Values, ans: Answers)
    ensures var e := InsertBody(config, aggregate, uri, r, v, ans);
      |e.events| >= 2 && e.events[0] == TxBegin && e.events[1] == StoreInsert(r.table, v, r.params.insertOrUpdate)
  {
    var withId := r.(id := Some(ans.rowId));
    var body := Then(Emit(StoreInsert(r.table, v, r.params.insertOrUpdate)),
                     Then(JournalEffect(config, Changes.ACTION_CREATE, withId, Some(v), ans),
                          if ans.rowId >= 0 then NotifyEffect(config, aggregate, uri, withId) else NOTHING));
    TransactionEvents(body);
  }

  /** The three writes, as one shape: a journal part, the store write, and the notification when `changed`. */
  function WriteBody(journal: Effect, write: Event, changed: bool, notify: Effect): Effect {
    Then(journal, Then(Emit(write), if changed then notify else NOTHING))
  }

  /**
   * Without aggregation and without an exception, the write notifies its
   * observers exactly when it changed something and the notify option is
   * set, and queues nothing; with aggregation it notifies nobody, and queues
   * its one call exactly when it changed something.
   */
  lemma {:induction false} WriteNotifies(config: Config, aggregate: bool, uri: Address, r: Resolved, journal: Effect, write: Event, changed: bool)
    requires OnlyJournaled(journal) && !write.Notified?
    ensures var b := WriteBody(journal, write, changed, NotifyEffect(config, aggregate, uri, r));
      && (aggregate ==> Quiet(b))
      && (aggregate && b.error.None? ==> b.queued == if changed then [Notification(uri, r)] else [])
      && (!aggregate ==> b.queued == [])
      && (!aggregate && journal.error.None? ==>
            (Notifies(b) <==> changed && r.params.notify))
  {
    var n := NotifyEffect(config, aggregate, uri, r);
    NotifyCases(config, aggregate, uri, r);
    var tail := Then(Emit(write), if changed then n else NOTHING);
    var b := WriteBody(journal, write, changed, n);
    if !aggregate && journal.error.None? {
      assert b.events == journal.events + ([write] + (if changed then n.events else []));
      if changed && r.params.notify {
        assert b.events[|journal.events| + 1] == n.events[0];
      }
    }
  }

  /** Updates: notified iff rows changed and notify is set; queued instead while aggregating. */
  lemma UpdateNotifies(config: Config, aggregate: bool, uri: Address, values: Values, selection: Option<string>, ans: Answers)
    requires ResolveUri(config.authority, uri).Ok?
    ensures var r := ResolveUri(config.authority, uri).value;
      var e := UpdateEffect(config, aggregate, uri, values, selection, ans);
      var j := JournalEffect(config, Changes.ACTION_UPDATE, r, Some(values), ans);
      && (aggregate ==> Quiet(e))
      && (aggregate && e.error.None? ==> e.queued == if ans.count > 0 then [Notification(uri, r)] else [])
      && (!aggregate ==> e.queued == [])
      && (!aggregate && j.error.None? ==>
            (Notifies(e) <==> ans.count > 0 && r.params.notify))
  {
    var r := ResolveUri(config.authority, uri).value;
    var j := JournalEffect(config, Changes.ACTION_UPDATE, r, Some(values), ans);
    JournalOnly(config, Changes.ACTION_UPDATE, r, Some(values), ans);
    WriteNotifies(config, aggregate, uri, r, j, StoreUpdate(r.table, values, ExtendSelection(r, selection)), ans.count > 0);
    TransactionNotifies(WriteBody(j, StoreUpdate(r.table, values, ExtendSelection(r, selection)), ans.count > 0, NotifyEffect(config, aggregate, uri, r)));
  }

  /** Deletes: notified iff rows went and notify is set; queued instead while aggregating. */
  lemma DeleteNotifies(config: Config, aggregate: bool, uri: Address, selection: Option<string>, ans: Answers)
    requires ResolveUri(config.authority, uri).Ok?
    ensures var r := ResolveUri(config.authority, uri).value;
      var e := DeleteEffect(config, aggregate, uri, selection, ans);
      var j := JournalEffect(config, Changes.ACTION_REMOVE, r, None, ans);
      && (aggregate ==> Quiet(e))
      && (aggregate && e.error.None? ==> e.queued == if ans.count > 0 then [Notification(uri, r)] else [])
      && (!aggregate ==> e.queued == [])
      && (!aggregate && j.error.None? ==>
            (Notifies(e) <==> ans.count > 0 && r.params.notify))
  {
    var r := ResolveUri(config.authority, uri).value;
    var j := JournalEffect(config, Changes.ACTION_REMOVE, r, None, ans);
    JournalOnly(config, Changes.ACTION_REMOVE, r, None, ans);
    WriteNotifies(config, aggregate, uri, r, j, StoreDelete(r.table, ExtendSelection(r, selection)), ans.count > 0);
    TransactionNotifies(WriteBody(j, StoreDelete(r.table, ExtendSelection(r, selection)), ans.count > 0, NotifyEffect(config, aggregate, uri, r)));
  }

  // ---------------------------------------------------------------------
  // Batches

  datatype Operation =
    | InsertOp(uri: Address, values: Values, answers: Answers)
    | UpdateOp(uri: Address, values: Values, selection: Option<string>, answers: Answers)
    | DeleteOp(uri: Address, selection: Option<string>, answers: Answers)

  /** A `ContentProviderResult`: the new row's address, or the number of rows affected. */
  datatype OpResult = Inserted(uri: Address) | Affected(count: int)

  function OpEffect(config: Config, prefs: Preferences, aggregate: bool, op: Operation): (Effect, Preferences) {
    match op
    case InsertOp(uri, values, ans) => InsertEffect(config, prefs, aggregate, uri, values, ans)
    case UpdateOp(uri, values, selection, ans) => (UpdateEffect(config, aggregate, uri, values, selection, ans), prefs)
    case DeleteOp(uri, selection, ans) => (DeleteEffect(config, aggregate, uri, selection, ans), prefs)
  }

  function ResultOf(op: Operation): OpResult {
    match op
    case InsertOp(uri, _, ans) => Inserted(WithAppendedId(uri, ans.rowId))
    case UpdateOp(_, _, _, ans) => Affected(ans.count)
    case DeleteOp(_, _, ans) => Affected(ans.count)
  }

  /** The operations applied in order, each seeing the preferences the previous left; an exception stops the batch. */
  function BatchEffect(config: Config, prefs: Preferences, aggregate: bool, ops: seq<Operation>): (Effect, Preferences) {
    if |ops| == 0 then (NOTHING, prefs)
    else
      var (b, p) := BatchEffect(config, prefs, aggregate, ops[..|ops| - 1]);
      if b.error.Some? then (b, p)
      else var (e, p') := OpEffect(config, p, aggregate, ops[|ops| - 1]); (Then(b, e), p')
  }

  lemma InsertQuiet(config: Config, prefs: Preferences, uri: Address, values: Values, ans: Answers)
    ensures Quiet(InsertEffect(config, prefs, true, uri, values, ans).0)
  {
    match ResolveUri(config.authority, uri)
    case Err(_) =>
    case Ok(r) =>
      if r.id.None? && r.table in config.schema {
        InsertEffectOk(config, prefs, true, uri, values, ans);
        var f := Fill(prefs, r.table, UidColumns(config.schema[r.table].columns), values);
        InsertBodyQuiet(config, uri, r, f.1, ans);
      }
  }

  lemma InsertBodyQuiet(config: Config, uri: Address, r: Resolved, v: Values, ans: Answers)
    ensures Quiet(InsertBody(config, true, uri, r, v, ans))
  {
    var withId := r.(id := Some(ans.rowId));
    var j := JournalEffect(config, Changes.ACTION_CREATE, withId, Some(v), ans);
    JournalOnly(config, Changes.ACTION_CREATE, withId, Some(v), ans);
    var tail := Then(j, if ans.rowId >= 0 then NotifyEffect(config, true, uri, withId) else NOTHING);
    QuietThen(Emit(StoreInsert(r.table, v, r.params.insertOrUpdate)), tail);
    QuietTransaction(Then(Emit(StoreInsert(r.table, v, r.params.insertOrUpdate)), tail));
  }

  lemma OpQuiet(config: Config, prefs: Preferences, op: Operation)
    ensures Quiet(OpEffect(config, prefs, true, op).0)
  {
    match op
    case InsertOp(uri, values, ans) => InsertQuiet(config, prefs, uri, values, ans);
    case UpdateOp(uri, values, selection, ans) =>
      if ResolveUri(config.authority, uri).Ok? {
        UpdateNotifies(config, true, uri, values, selection, ans);
      }
    case DeleteOp(uri, selection, ans) =>
      if ResolveUri(config.authority, uri).Ok? {
        DeleteNotifies(config, true, uri, selection, ans);
      }
  }

  /** While a batch aggregates, none of its operations notifies anybody. */
  lemma {:induction false} BatchQuiet(config: Config, prefs: Preferences, ops: seq<Operation>)
    ensures Quiet(BatchEffect(config, prefs, true, ops).0)
  {
    if |ops| > 0 {
      BatchQuiet(config, prefs, ops[..|ops| - 1]);
      var (b, p) := BatchEffect(config, prefs, true, ops[..|ops| - 1]);
      OpQuiet(config, p, ops[|ops| - 1]);
      if b.error.None? {
        QuietThen(b, OpEffect(config, p, true, ops[|ops| - 1]).0);
      }
    }
  }

  // ---------------------------------------------------------------------
  // Syncing from the server

  /** What the adapter does with one api path. */
  datatype AdapterAnswer = Processed | AdapterCancelled | AdapterFailed(error: Exception)

  /**
   * The outside of one `updateFromServer`: the adapter's answer for each api
   * path in turn, whether the processor is cancelled before and after
   * `performOperations`, the start time, and the tables the processor's
   * `notifyChanges` visits, in the order it visits them.
   */
  datatype SyncAnswers = SyncAnswers(adapter: nat -> AdapterAnswer, cancelledBefore: bool, cancelledAfter: bool,
                                     startTime: int, affected: seq<string>)

  /** The api paths reported as aborted, the events up to the end of the transaction, and the exception, if any. */
  datatype SyncOutcome = SyncOutcome(aborted: set<Option<string>>, events: seq<Event>, error: Option<Exception>)

  /** The fetch loop from path `i`: a cancellation aborts that path and stops; an adapter exception ends the sync. */
  function Fetch(paths: seq<Option<string>>, adapter: nat -> AdapterAnswer, i: nat): (r: (set<Option<string>>, Option<Exception>))
    requires i <= |paths|
    ensures r.0 <= (set k | i <= k < |paths| :: paths[k])
    decreases |paths| - i
  {
    if i == |paths| then ({}, None)
    else match adapter(i)
      case AdapterFailed(e) => ({}, Some(e))
      case AdapterCancelled => ({paths[i]}, None)
      case Processed =>
        var r := Fetch(paths, adapter, i + 1);
        assert (set k | i + 1 <= k < |paths| :: paths[k]) <= (set k | i <= k < |paths| :: paths[k]);
        r
  }

  /**
   * After the fetch loop, in one transaction: unless the processor was
   * cancelled, `performOperations` runs and the transaction is marked
   * successful, and a cancellation that arrived meanwhile aborts every path;
   * in any case the transaction ends (the processor's notifications follow,
   * see `UpdateFromServer`).
   */
  function SyncEffect(paths: seq<Option<string>>, sync: SyncAnswers): SyncOutcome {
    var (aborted, err) := Fetch(paths, sync.adapter, 0);
    if err.Some? then SyncOutcome({}, [], err)
    else if sync.cancelledBefore then SyncOutcome(aborted, [TxBegin, TxEnd], None)
    else
      SyncOutcome(aborted + (if sync.cancelledAfter then set k | 0 <= k < |paths| :: paths[k] else {}),
                  [TxBegin, Performed(sync.startTime), TxSuccess, TxEnd], None)
  }

  /** Only api paths of the filter are ever reported as aborted. */
  lemma AbortedArePaths(paths: seq<Option<string>>, sync: SyncAnswers)
    ensures SyncEffect(paths, sync).aborted <= set k | 0 <= k < |paths| :: paths[k]
  {
  }

  /** An uncancelled sync aborts nothing and performs the operations once. */
  lemma {:induction false} UninterruptedSync(paths: seq<Option<string>>, sync: SyncAnswers)
    requires forall k | 0 <= k < |paths| :: sync.adapter(k) == Processed
    requires !sync.cancelledBefore && !sync.cancelledAfter
    ensures SyncEffect(paths, sync) == SyncOutcome({}, [TxBegin, Performed(sync.startTime), TxSuccess, TxEnd], None)
  {
    FetchAll(paths, sync.adapter, 0);
  }

  lemma {:induction false} FetchAll(paths: seq<Option<string>>, adapter: nat -> AdapterAnswer, i: nat)
    requires i <= |paths| && forall k | i <= k < |paths| :: adapter(k) == Processed
    ensures Fetch(paths, adapter, i) == ({}, None)
    decreases |paths| - i
  {
    if i < |paths| {
      FetchAll(paths, adapter, i + 1);
    }
  }

  /** An adapter cancellation on a path aborts that path and stops the fetch. */
  lemma {:induction false} FetchCancelled(paths: seq<Option<string>>, adapter: nat -> AdapterAnswer, i: nat, j: nat)
    requires i <= j < |paths| && adapter(j) == AdapterCancelled
    requires forall k | i <= k < j :: adapter(k) == Processed
    ensures Fetch(paths, adapter, i) == ({paths[j]}, None)
    decreases j - i
  {
    if i < j {
      FetchCancelled(paths, adapter, i + 1, j);
    }
  }

  /** A processor cancelled while performing the operations aborts every path of the filter. */
  lemma CancelledDuringAbortsAll(paths: seq<Option<string>>, sync: SyncAnswers)
    requires Fetch(paths, sync.adapter, 0).1.None? && !sync.cancelledBefore && sync.cancelledAfter
    ensures SyncEffect(paths, sync).aborted == set k | 0 <= k < |paths| :: paths[k]
  {
  }

  /** The registry identity of a sync: the database and the filter's compared fields. */
  function UpdateKeyOf(database: string, f: Filters.CollectionFilter): (string, Filters.FilterKey)
    reads f
  {
    (database, Filters.FilterKey(f.table, if f.selection.Some? then f.selection.value.selection else None,
                                 if f.selection.Some? then f.selection.value.selectionArgs else None, f.apiPaths))
  }

  lemma JournalOneRow(hooks: Hooks, action: int, r: Resolved, values: Option<Values>, ans: Answers, id: int)
    ensures JournalRows(hooks, action, r, values, ans, [id]) == RowEffect(hooks, action, r, values, ans, id)
  {
    assert [id][..0] == [];
  }

  /** One more journal row, when none of the earlier ones threw. */
  lemma JournalRowsSnoc(hooks: Hooks, action: int, r: Resolved, values: Option<Values>, ans: Answers, ids: seq<int>, i: nat)
    requires i < |ids| && JournalRows(hooks, action, r, values, ans, ids[..i]).error.None?
    ensures var e := RowEffect(hooks, action, r, values, ans, ids[i]);
      && JournalRows(hooks, action, r, values, ans, ids[..i + 1]).events == JournalRows(hooks, action, r, values, ans, ids[..i]).events + e.events
      && JournalRows(hooks, action, r, values, ans, ids[..i + 1]).error == e.error
  {
    assert ids[..i + 1][..i] == ids[..i];
  }

  /** A transaction's events: begin, the body's, the mark unless the body threw, end. */
  lemma TransactionEvents(body: Effect)
    ensures Transaction(body).events == [TxBegin] + body.events + (if body.error.None? then [TxSuccess] else []) + [TxEnd]
    ensures Transaction(body).queued == body.queued && Transaction(body).error == body.error
  {
  }

  /** The events of an `update` or `delete` transaction, step by step. */
  lemma WriteSteps(j: Effect, write: Event, changed: bool, n: Effect)
    requires j.queued == []
    ensures var t := Transaction(WriteBody(j, write, changed, n));
      && (j.error.Some? ==> t.events == [TxBegin] + j.events + [TxEnd] && t.queued == [] && t.error == j.error)
      && (j.error.None? && !changed ==>
            t.events == [TxBegin] + j.events + [write] + [TxSuccess] + [TxEnd] && t.queued == [] && t.error.None?)
      && (j.error.None? && changed && n.error.Some? ==>
            t.events == [TxBegin] + j.events + [write] + n.events + [TxEnd] && t.queued == n.queued && t.error == n.error)
      && (j.error.None? && changed && n.error.None? ==>
            t.events == [TxBegin] + j.events + [write] + n.events + [TxSuccess] + [TxEnd] && t.queued == n.queued && t.error.None?)
  {
    var b := WriteBody(j, write, changed, n);
    TransactionEvents(b);
    if j.error.None? {
      var tail := if changed then n.events else [];
      assert b.events == j.events + ([write] + tail);
      AppendAssoc(j.events, [write], tail);
      AppendAssoc([TxBegin], j.events + [write], tail);
      AppendAssoc([TxBegin], j.events, [write]);
    }
  }

  /** The events of an `insert` transaction, step by step. */
  lemma InsertSteps(si: Event, j: Effect, notify: bool, n: Effect)
    requires j.queued == []
    ensures var t := Transaction(Then(Emit(si), Then(j, if notify then n else NOTHING)));
      && (j.error.Some? ==> t.events == [TxBegin, si] + j.events + [TxEnd] && t.queued == [] && t.error == j.error)
      && (j.error.None? && !notify ==>
            t.events == [TxBegin, si] + j.events + [TxSuccess] + [TxEnd] && t.queued == [] && t.error.None?)
      && (j.error.None? && notify && n.error.Some? ==>
            t.events == [TxBegin, si] + j.events + n.events + [TxEnd] && t.queued == n.queued && t.error == n.error)
      && (j.error.None? && notify && n.error.None? ==>
            t.events == [TxBegin, si] + j.events + n.events + [TxSuccess] + [TxEnd] && t.queued == n.queued && t.error.None?)
  {
    var b := Then(Emit(si), Then(j, if notify then n else NOTHING));
    TransactionEvents(b);
    var tail := if j.error.None? && notify then n.events else [];
    assert b.events == [si] + (j.events + tail);
    AppendAssoc([si], j.events, tail);
    AppendAssoc([TxBegin], [si] + j.events, tail);
    AppendAssoc([TxBegin], [si], j.events);
    assert [TxBegin] + [si] == [TxBegin, si];
  }

  /** Each operation's result, in order. */
  function Results(ops: seq<Operation>): (r: seq<OpResult>)
    ensures |r| == |ops| && forall i | 0 <= i < |ops| :: r[i] == ResultOf(ops[i])
  {
    seq(|ops|, i requires 0 <= i < |ops| => ResultOf(ops[i]))
  }

  /**
   * The results `applyBatch(account, operations)` returns as written: the
   * array is allocated but no operation's result is stored into it.
   */
  function AccountBatchResultsAsWritten(ops: seq<Operation>): (r: seq<Option<OpResult>>)
    ensures |r| == |ops|
  {
    seq(|ops|, i requires 0 <= i < |ops| => None)
  }

  /** As written, every slot of a successful account batch is null, so no caller sees any operation's result. */
  lemma AccountBatchLosesResults(ops: seq<Operation>)
    ensures forall i | 0 <= i < |ops| :: AccountBatchResultsAsWritten(ops)[i] != Some(Results(ops)[i])
  {
  }

  /**
   * Where the corrected account batch succeeds (ApplyBatchIn returns
   * `Ok(Results(ops))`), every slot the code as written returns is null
   * although the operation in that slot produced its result.
   */
  lemma AccountBatchDropsSuccesses(config: Config, prefs: Preferences, aggregate: bool, ops: seq<Operation>)
    requires BatchEffect(config, prefs, aggregate, ops).0.error.None?
    ensures forall i | 0 <= i < |ops| ::
      AccountBatchResultsAsWritten(ops)[i].None? && Results(ops)[i] == ResultOf(ops[i])
    ensures |ops| > 0 ==> AccountBatchResultsAsWritten(ops) != seq(|ops|, i requires 0 <= i < |ops| => Some(Results(ops)[i]))
  {
    if |ops| > 0 {
      assert AccountBatchResultsAsWritten(ops)[0] == None;
    }
  }

  /** One more operation of a batch, when none of the earlier ones threw. */
  lemma BatchSnoc(config: Config, prefs: Preferences, aggregate: bool, ops: seq<Operation>, i: nat)
    requires i < |ops| && BatchEffect(config, prefs, aggregate, ops[..i]).0.error.None?
    ensures var b := BatchEffect(config, prefs, aggregate, ops[..i]);
      var e := OpEffect(config, b.1, aggregate, ops[i]);
      var b' := BatchEffect(config, prefs, aggregate, ops[..i + 1]);
      && b'.0.events == b.0.events + e.0.events && b'.0.queued == b.0.queued + e.0.queued
      && b'.0.error == e.0.error && b'.1 == e.1
  {
    assert ops[..i + 1][..i] == ops[..i];
  }

  lemma ResultsSnoc(ops: seq<Operation>, i: nat)
    requires i < |ops|
    ensures Results(ops[..i + 1]) == Results(ops[..i]) + [ResultOf(ops[i])]
  {
  }

  /** Once the journal threw, later ids add nothing. */
  lemma {:induction false} JournalRowsStop(hooks: Hooks, action: int, r: Resolved, values: Option<Values>, ans: Answers, ids: seq<int>, j: nat)
    requires j <= |ids| && JournalRows(hooks, action, r, values, ans, ids[..j]).error.Some?
    ensures JournalRows(hooks, action, r, values, ans, ids) == JournalRows(hooks, action, r, values, ans, ids[..j])
    decreases |ids| - j
  {
    if j < |ids| {
      assert ids[..j + 1][..j] == ids[..j];
      JournalRowsStop(hooks, action, r, values, ans, ids, j + 1);
    } else {
      assert ids[..j] == ids;
    }
  }

  /** One more notification flushed, when none of the earlier ones threw. */
  lemma FlushSnoc(config: Config, q: seq<Notification>, i: nat)
    requires i < |q| && FlushEffect(config, q[..i]).error.None?
    ensures var e := NotifyEffect(config, false, q[i].uri, q[i].resolved);
      && FlushEffect(config, q[..i + 1]).events == FlushEffect(config, q[..i]).events + e.events
      && FlushEffect(config, q[..i + 1]).error == e.error
  {
    assert q[..i + 1][..i] == q[..i];
  }

  /** Once the flush threw, later notifications are not sent. */
  lemma {:induction false} FlushStop(config: Config, q: seq<Notification>, j: nat)
    requires j <= |q| && FlushEffect(config, q[..j]).error.Some?
    ensures FlushEffect(config, q) == FlushEffect(config, q[..j])
    decreases |q| - j
  {
    if j < |q| {
      assert q[..j + 1][..j] == q[..j];
      FlushStop(config, q, j + 1);
    } else {
      assert q[..j] == q;
    }
  }

  /** Once an operation threw, the rest of the batch is not applied. */
  lemma {:induction false} BatchStop(config: Config, prefs: Preferences, aggregate: bool, ops: seq<Operation>, j: nat)
    requires j <= |ops| && BatchEffect(config, prefs, aggregate, ops[..j]).0.error.Some?
    ensures BatchEffect(config, prefs, aggregate, ops) == BatchEffect(config, prefs, aggregate, ops[..j])
    decreases |ops| - j
  {
    if j < |ops| {
      assert ops[..j + 1][..j] == ops[..j];
      BatchStop(config, prefs, aggregate, ops, j + 1);
    } else {
      assert ops[..j] == ops;
    }
  }

  /** What `query` asks the store for. */
  datatype Request = Request(table: string, selection: Option<string>, groupBy: Option<string>)

  /** `query`: the address's table, the selection narrowed to its row, and its group-by option. */
  function QueryRequest(config: Config, uri: Address, selection: Option<string>): Result<Request> {
    match ResolveUri(config.authority, uri)
    case Err(e) => Err(e)
    case Ok(r) => Ok(Request(r.table, ExtendSelection(r, selection), r.params.groupBy))
  }

  /** A group-by put on a table address by `Select.groupBy` reaches the store query. */
  lemma QueryGroupBy(config: Config, user: string, table: string, column: string, selection: Option<string>)
    ensures QueryRequest(config, AppendQueryParameter(ForTable(config.authority, user, table), QUERY_KEY_GROUP_BY, column), selection)
      == Ok(Request(table, selection, Some(column)))
  {
    var u := AppendQueryParameter(ForTable(config.authority, user, table), QUERY_KEY_GROUP_BY, column);
    assert u.query == [(QUERY_KEY_GROUP_BY, column)];
    assert QueryParameter(u, QUERY_KEY_GROUP_BY) == Some(column);
    assert forall key | key != QUERY_KEY_GROUP_BY :: QueryParameter(u, key).None?;
  }

  /** The `mUIDs` map `onCreate` builds: each table's UID columns. */
  function UidMap(schema: map<string, TableInfo>): (m: map<string, seq<string>>)
    ensures m.Keys == schema.Keys
  {
    map t | t in schema :: UidColumns(schema[t].columns)
  }

  // ---------------------------------------------------------------------
  // The provider

  class DataProvider {
    const config: Config
    /** `mUIDs`. */
    const uids: map<string, seq<string>>
    /** The "uid" shared preferences. */
    var prefs: Preferences
    /** `mDependencies`: the dependency addresses computed so far, by the address they were computed for. */
    var dependencies: map<Address, seq<Address>>
    /** `mAggregateNotifications`. */
    var aggregate: bool
    /** `mNotifications`. */
    var notifications: seq<Notification>
    /** `mUpdates`: the syncs in progress. */
    var updates: set<(string, Filters.FilterKey)>
    /** Everything written, sent or handed on so far. */
    var log: seq<Event>

    /**
     * The dependency cache answers every table address correctly, and every
     * queued notification is consistent with its address.
     */
    ghost predicate Valid()
      reads this`dependencies, this`notifications
    {
      && uids == UidMap(config.schema)
      && (forall k | k in dependencies && IsTableAddress(config.authority, k) ::
            DependencyAddresses(config, k.segments[0], k.segments[1]) == Ok(dependencies[k]))
      && forall i | 0 <= i < |notifications| :: Consistent(config.authority, notifications[i])
    }

    /** `onCreate`, over the preferences as they are stored. */
    constructor (config: Config, prefs: Preferences)
      ensures Valid() && this.config == config && this.prefs == prefs
      ensures dependencies == map[] && !aggregate && notifications == [] && updates == {} && log == []
    {
      this.config := config;
      uids := UidMap(config.schema);
      this.prefs := prefs;
      dependencies := map[];
      aggregate := false;
      notifications := [];
      updates := {};
      log := [];
    }

    /** `getDependencies`: from the cache when the table address is there, else computed and cached. */
    method GetDependencies(uri: Address, r: Resolved) returns (deps: Result<seq<Address>>)
      requires Valid() && Consistent(config.authority, Notification(uri, r))
      modifies this`dependencies
      ensures Valid()
      ensures deps == DependencyAddresses(config, r.user, r.table)
      ensures dependencies == old(dependencies) || (deps.Ok? && dependencies == old(dependencies)[uri := deps.value])
    {
      var base := ForTable(config.authority, r.user, r.table);
      if base in dependencies {
        return Ok(dependencies[base]);
      }
      if r.table !in config.schema {
        return Err(NotFound);
      }
      var refs := config.schema[r.table].referencedBy;
      var result: seq<Address> := [];
      for i := 0 to |refs|
        invariant |result| == i
        invariant forall k | 0 <= k < i :: result[k] == ForTable(config.authority, r.user, refs[k])
      {
        result := result + [ForTable(config.authority, r.user, refs[i])];
      }
      var expected := DependencyAddresses(config, r.user, r.table);
      assert |expected.value| == |result|;
      assert forall k | 0 <= k < |result| :: expected.value[k] == result[k];
      assert expected.value == result;
      dependencies := dependencies[uri := result];
      return Ok(result);
    }

    /** `notifyChange`. */
    method NotifyChange(uri: Address, r: Resolved) returns (err: Option<Exception>)
      requires Valid() && Consistent(config.authority, Notification(uri, r))
      modifies this`dependencies, this`notifications, this`log
      ensures Valid()
      ensures var e := NotifyEffect(config, aggregate, uri, r);
        log == old(log) + e.events && notifications == old(notifications) + e.queued && err == e.error
    {
      var sync := r.params.recordChanges;
      if r.params.notify && !aggregate {
        log := log + [Notified(uri, sync)];
        var deps := GetDependencies(uri, r);
        if deps.Err? {
          return Some(deps.error);
        }
        var ds := deps.value;
        ghost var acc := [Notified(uri, sync)];
        assert ds[..0] == [];
        for i := 0 to |ds|
          invariant acc == [Notified(uri, sync)] + Notices(ds[..i], sync)
          invariant log == old(log) + acc
          modifies this`log
        {
          NoticesSnoc(ds, i, sync);
          log := log + [Notified(ds[i], sync)];
          AppendAssoc(old(log), acc, [Notified(ds[i], sync)]);
          AppendAssoc([Notified(uri, sync)], Notices(ds[..i], sync), [Notified(ds[i], sync)]);
          acc := acc + [Notified(ds[i], sync)];
        }
        assert ds[..|ds|] == ds;
        return None;
      } else if aggregate {
        notifications := notifications + [Notification(uri, r)];
        assert notifications[|notifications| - 1] == Notification(uri, r);
      }
      return None;
    }

    /** The flush loop of `applyBatch` and `setTransactionSuccessful`, with aggregation already off. */
    method Flush() returns (err: Option<Exception>)
      requires Valid() && !aggregate
      modifies this`dependencies, this`log, this`notifications
      ensures Valid()
      ensures log == old(log) + FlushEffect(config, old(notifications)).events
      ensures err == FlushEffect(config, old(notifications)).error
      ensures notifications == if err.None? then [] else old(notifications)
    {
      var q := notifications;
      for i := 0 to |q|
        invariant Valid() && notifications == q
        invariant FlushEffect(config, q[..i]).error.None?
        invariant log == old(log) + FlushEffect(config, q[..i]).events
      {
        FlushSnoc(config, q, i);
        ghost var before := log;
        ghost var e := NotifyEffect(config, false, q[i].uri, q[i].resolved);
        err := NotifyChange(q[i].uri, q[i].resolved);
        assert log == before + e.events && err == e.error;
        AppendAssoc(old(log), FlushEffect(config, q[..i]).events, e.events);
        if err.Some? {
          FlushStop(config, q, i + 1);
          return;
        }
      }
      assert q[..|q|] == q;
      notifications := [];
      return None;
    }

    /**
     * The loop of `DataProcessor.notifyChanges` over the tables in the order
     * visited: `getUri(user, table)`, resolved, is handed to `notifyChange`;
     * an exception ends the loop.
     */
    method NotifyTables(user: string, tables: seq<string>) returns (err: Option<Exception>)
      requires Valid()
      modifies this`dependencies, this`notifications, this`log
      ensures Valid()
      ensures var e := NotifyTablesEffect(config, aggregate, user, tables);
        log == old(log) + e.events && notifications == old(notifications) + e.queued && err == e.error
    {
      for i := 0 to |tables|
        invariant Valid()
        invariant NotifyTablesEffect(config, aggregate, user, tables[..i]).error.None?
        invariant log == old(log) + NotifyTablesEffect(config, aggregate, user, tables[..i]).events
        invariant notifications == old(notifications) + NotifyTablesEffect(config, aggregate, user, tables[..i]).queued
      {
        NotifyTablesSnoc(config, aggregate, user, tables, i);
        var uri := ForTable(config.authority, user, tables[i]);
        var resolved := ResolveUri(config.authority, uri);
        ResolveTableAddress(config.authority, user, tables[i]);
        ghost var e := NotifyEffect(config, aggregate, uri, resolved.value);
        ghost var done := NotifyTablesEffect(config, aggregate, user, tables[..i]);
        err := NotifyChange(uri, resolved.value);
        AppendAssoc(old(log), done.events, e.events);
        AppendAssoc(old(notifications), done.queued, e.queued);
        if err.Some? {
          NotifyTablesStop(config, aggregate, user, tables, i + 1);
          return;
        }
      }
      assert tables[..|tables|] == tables;
      err := None;
    }

    /** `newUID`. */
    method NewUID(table: string, column: string) returns (uid: Long)
      modifies this`prefs
      ensures (uid, prefs) == Allocate(old(prefs), UidKey(table, column))
    {
      var key := table + ":" + column;
      uid := if key in prefs then prefs[key] else FIRST_UID;
      prefs := prefs[key := NextUID(uid)];
    }

    /** `fillUIDs`; a table without an `mUIDs` entry is a `NullPointerException`. */
    method FillUIDs(table: string, values: Values) returns (r: Result<Values>)
      requires Valid()
      modifies this`prefs
      ensures table !in config.schema ==> r == Err(NullPointer) && prefs == old(prefs)
      ensures table in config.schema ==>
        var f := Fill(old(prefs), table, UidColumns(config.schema[table].columns), values);
        r == Ok(f.1) && prefs == f.0
    {
      if table !in uids {
        return Err(NullPointer);
      }
      var cols := uids[table];
      var v := values;
      for i := 0 to |cols|
        invariant (prefs, v) == Fill(old(prefs), table, cols[..i], values)
      {
        assert cols[..i + 1][..i] == cols[..i];
        if cols[i] !in v {
          var uid := NewUID(table, cols[i]);
          v := v[cols[i] := DataEntries.LongVal(uid)];
        }
      }
      assert cols[..|cols|] == cols;
      return Ok(v);
    }

    /** `insertSingleChange`. */
    method InsertSingleChange(action: int, id: int, r: Resolved, values: Option<Values>, ans: Answers) returns (err: Option<Exception>)
      modifies this`log
      ensures var e := RowEffect(config.hooks, action, r, values, ans, id); log == old(log) + e.events && err == e.error
    {
      var changes := GetChanges(config.hooks, action, r.table, id, values, r.params.changeValue, r.params.additionalData, ans.now, ans.lookup);
      if changes.Err? {
        return Some(changes.error);
      }
      if changes.value.Some? {
        log := log + [Journaled(changes.value.value)];
      }
      return None;
    }

    /** The loop of `insertChanges` over the matching rows. */
    method InsertEachChange(action: int, r: Resolved, values: Option<Values>, ans: Answers, ids: seq<int>) returns (err: Option<Exception>)
      modifies this`log
      ensures log == old(log) + JournalRows(config.hooks, action, r, values, ans, ids).events
      ensures err == JournalRows(config.hooks, action, r, values, ans, ids).error
    {
      for i := 0 to |ids|
        invariant JournalRows(config.hooks, action, r, values, ans, ids[..i]).error.None?
        invariant log == old(log) + JournalRows(config.hooks, action, r, values, ans, ids[..i]).events
      {
        JournalRowsSnoc(config.hooks, action, r, values, ans, ids, i);
        err := InsertSingleChange(action, ids[i], r, values, ans);
        if err.Some? {
          JournalRowsStop(config.hooks, action, r, values, ans, ids, i + 1);
          return;
        }
      }
      assert ids[..|ids|] == ids;
      return None;
    }

    /** `insertChanges`. */
    method InsertChanges(action: int, r: Resolved, values: Option<Values>, ans: Answers) returns (err: Option<Exception>)
      modifies this`log
      ensures log == old(log) + JournalEffect(config, action, r, values, ans).events
      ensures err == JournalEffect(config, action, r, values, ans).error
    {
      if !r.params.recordChanges {
        return None;
      }
      if r.table !in config.schema {
        return Some(NullPointer);
      }
      if config.schema[r.table].local {
        return None;
      }
      var a := action;
      if r.params.action >= 0 {
        a := r.params.action;
      }
      assert a == JournalAction(action, r);
      if r.id.Some? {
        JournalOneRow(config.hooks, a, r, values, ans, r.id.value);
        err := InsertSingleChange(a, r.id.value, r, values, ans);
      } else if a == Changes.ACTION_REMOVE {
        JournalOneRow(config.hooks, a, r, values, ans, 0);
        err := InsertSingleChange(a, 0, r, values, ans);
      } else {
        err := InsertEachChange(a, r, values, ans, ans.matching);
      }
    }

    /** The common shape of `update` and `delete` once the address is resolved. */
    method WriteTransaction(uri: Address, r: Resolved, action: int, values: Option<Values>, write: Event, ans: Answers)
      returns (err: Option<Exception>)
      requires Valid() && Consistent(config.authority, Notification(uri, r))
      modifies this`dependencies, this`notifications, this`log
      ensures Valid()
      ensures var e := Transaction(WriteBody(JournalEffect(config, action, r, values, ans), write, ans.count > 0,
                                             NotifyEffect(config, aggregate, uri, r)));
        log == old(log) + e.events && notifications == old(notifications) + e.queued && err == e.error
    {
      ghost var j := JournalEffect(config, action, r, values, ans);
      ghost var n := NotifyEffect(config, aggregate, uri, r);
      JournalOnly(config, action, r, values, ans);
      WriteSteps(j, write, ans.count > 0, n);
      ghost var acc: seq<Event> := [TxBegin];
      log := log + [TxBegin];
      err := InsertChanges(action, r, values, ans);
      AppendAssoc(old(log), acc, j.events);
      acc := acc + j.events;
      if err.None? {
        log := log + [write];
        AppendAssoc(old(log), acc, [write]);
        acc := acc + [write];
        if ans.count > 0 {
          err := NotifyChange(uri, r);
          AppendAssoc(old(log), acc, n.events);
          acc := acc + n.events;
        }
        if err.None? {
          log := log + [TxSuccess];
          AppendAssoc(old(log), acc, [TxSuccess]);
          acc := acc + [TxSuccess];
        }
      }
      log := log + [TxEnd];
      AppendAssoc(old(log), acc, [TxEnd]);
    }

    /** The transaction of `insert`, once the values are filled. */
    method InsertTransaction(uri: Address, r: Resolved, v: Values, ans: Answers) returns (err: Option<Exception>)
      requires Valid() && Consistent(config.authority, Notification(uri, r))
      modifies this`dependencies, this`notifications, this`log
      ensures Valid()
      ensures var e := InsertBody(config, aggregate, uri, r, v, ans);
        log == old(log) + e.events && notifications == old(notifications) + e.queued && err == e.error
    {
      var withId := r.(id := Some(ans.rowId));
      var si := StoreInsert(r.table, v, r.params.insertOrUpdate);
      ghost var j := JournalEffect(config, Changes.ACTION_CREATE, withId, Some(v), ans);
      ghost var n := NotifyEffect(config, aggregate, uri, withId);
      JournalOnly(config, Changes.ACTION_CREATE, withId, Some(v), ans);
      InsertSteps(si, j, ans.rowId >= 0, n);
      ghost var acc: seq<Event> := [TxBegin, si];
      log := log + [TxBegin, si];
      err := InsertChanges(Changes.ACTION_CREATE, withId, Some(v), ans);
      AppendAssoc(old(log), acc, j.events);
      acc := acc + j.events;
      if err.None? {
        if ans.rowId >= 0 {
          err := NotifyChange(uri, withId);
          AppendAssoc(old(log), acc, n.events);
          acc := acc + n.events;
        }
        if err.None? {
          log := log + [TxSuccess];
          AppendAssoc(old(log), acc, [TxSuccess]);
          acc := acc + [TxSuccess];
        }
      }
      log := log + [TxEnd];
      AppendAssoc(old(log), acc, [TxEnd]);
    }

    /** `insert`; the result is the address with the new row id appended. */
    method Insert(uri: Address, values: Values, ans: Answers) returns (res: Result<Address>)
      requires Valid()
      modifies this`prefs, this`dependencies, this`notifications, this`log
      ensures Valid()
      ensures var (e, p) := InsertEffect(config, old(prefs), aggregate, uri, values, ans);
        && prefs == p && log == old(log) + e.events && notifications == old(notifications) + e.queued
        && res == if e.error.Some? then Err(e.error.value) else Ok(WithAppendedId(uri, ans.rowId))
    {
      var resolved := ResolveUri(config.authority, uri);
      if resolved.Err? {
        return Err(resolved.error);
      }
      var r := resolved.value;
      if r.id.Some? {
        return Err(IllegalArgument);
      }
      var filled := FillUIDs(r.table, values);
      if filled.Err? {
        return Err(filled.error);
      }
      InsertEffectOk(config, old(prefs), aggregate, uri, values, ans);
      ResolvedConsistent(config.authority, uri, r, Some(ans.rowId));
      var err := InsertTransaction(uri, r, filled.value, ans);
      if err.Some? {
        return Err(err.value);
      }
      return Ok(WithAppendedId(uri, ans.rowId));
    }

    /** `update`; the result is the number of rows updated. */
    method Update(uri: Address, values: Values, selection: Option<string>, ans: Answers) returns (res: Result<int>)
      requires Valid()
      modifies this`dependencies, this`notifications, this`log
      ensures Valid()
      ensures var e := UpdateEffect(config, aggregate, uri, values, selection, ans);
        && log == old(log) + e.events && notifications == old(notifications) + e.queued
        && res == if e.error.Some? then Err(e.error.value) else Ok(ans.count)
    {
      var resolved := ResolveUri(config.authority, uri);
      if resolved.Err? {
        return Err(resolved.error);
      }
      var r := resolved.value;
      ResolvedConsistent(config.authority, uri, r, r.id);
      var err := WriteTransaction(uri, r, Changes.ACTION_UPDATE, Some(values), StoreUpdate(r.table, values, ExtendSelection(r, selection)), ans);
      if err.Some? {
        return Err(err.value);
      }
      return Ok(ans.count);
    }

    /** `delete`; the result is the number of rows deleted. */
    method Delete(uri: Address, selection: Option<string>, ans: Answers) returns (res: Result<int>)
      requires Valid()
      modifies this`dependencies, this`notifications, this`log
      ensures Valid()
      ensures var e := DeleteEffect(config, aggregate, uri, selection, ans);
        && log == old(log) + e.events && notifications == old(notifications) + e.queued
        && res == if e.error.Some? then Err(e.error.value) else Ok(ans.count)
    {
      var resolved := ResolveUri(config.authority, uri);
      if resolved.Err? {
        return Err(resolved.error);
      }
      var r := resolved.value;
      ResolvedConsistent(config.authority, uri, r, r.id);
      var err := WriteTransaction(uri, r, Changes.ACTION_REMOVE, None, StoreDelete(r.table, ExtendSelection(r, selection)), ans);
      if err.Some? {
        return Err(err.value);
      }
      return Ok(ans.count);
    }

    /** `ContentProviderOperation.apply`: the operation's call on this provider. */
    method Apply(op: Operation) returns (res: Result<OpResult>)
      requires Valid()
      modifies this`prefs, this`dependencies, this`notifications, this`log
      ensures Valid()
      ensures var (e, p) := OpEffect(config, old(prefs), aggregate, op);
        && prefs == p && log == old(log) + e.events && notifications == old(notifications) + e.queued
        && res == if e.error.Some? then Err(e.error.value) else Ok(ResultOf(op))
    {
      match op
      case InsertOp(uri, values, ans) =>
        var r := Insert(uri, values, ans);
        res := if r.Err? then Err(r.error) else Ok(Inserted(r.value));
      case UpdateOp(uri, values, selection, ans) =>
        var r := Update(uri, values, selection, ans);
        res := if r.Err? then Err(r.error) else Ok(Affected(r.value));
      case DeleteOp(uri, selection, ans) =>
        var r := Delete(uri, selection, ans);
        res := if r.Err? then Err(r.error) else Ok(Affected(r.value));
    }

    /** The loop both `applyBatch` variants run: each operation in order, until one throws. */
    method ApplyEach(ops: seq<Operation>) returns (res: Result<seq<OpResult>>)
      requires Valid()
      modifies this`prefs, this`dependencies, this`notifications, this`log
      ensures Valid()
      ensures var (b, p) := BatchEffect(config, old(prefs), aggregate, ops);
        && prefs == p && log == old(log) + b.events && notifications == old(notifications) + b.queued
        && res == if b.error.Some? then Err(b.error.value) else Ok(Results(ops))
    {
      ghost var p0 := prefs;
      ghost var l0 := log;
      ghost var q0 := notifications;
      assert ops[..0] == [];
      ghost var acc := BatchEffect(config, p0, aggregate, ops[..0]);
      var results: seq<OpResult> := [];
      for i := 0 to |ops|
        invariant Valid()
        invariant acc == BatchEffect(config, p0, aggregate, ops[..i])
        invariant acc.0.error.None? && prefs == acc.1
        invariant log == l0 + acc.0.events && notifications == q0 + acc.0.queued
        invariant results == Results(ops[..i])
      {
        ghost var e := OpEffect(config, prefs, aggregate, ops[i]);
        BatchSnoc(config, p0, aggregate, ops, i);
        ghost var next := BatchEffect(config, p0, aggregate, ops[..i + 1]);
        var r := Apply(ops[i]);
        AppendAssoc(l0, acc.0.events, e.0.events);
        AppendAssoc(q0, acc.0.queued, e.0.queued);
        if r.Err? {
          BatchStop(config, p0, aggregate, ops, i + 1);
          return Err(r.error);
        }
        ResultsSnoc(ops, i);
        results := results + [r.value];
        acc := next;
      }
      assert ops[..|ops|] == ops;
      return Ok(results);
    }

    /**
     * `applyBatch`: the operations with aggregation on, then aggregation
     * off and the queue flushed. An exception from an operation leaves
     * aggregation on and the queue as it is.
     */
    method ApplyBatch(ops: seq<Operation>) returns (res: Result<seq<OpResult>>)
      requires Valid()
      modifies this`aggregate, this`prefs, this`dependencies, this`notifications, this`log
      ensures Valid()
      ensures var (b, p) := BatchEffect(config, old(prefs), true, ops);
        && prefs == p
        && (b.error.Some? ==>
              && res == Err(b.error.value) && aggregate
              && log == old(log) + b.events && notifications == old(notifications) + b.queued)
        && (b.error.None? ==>
              var f := FlushEffect(config, old(notifications) + b.queued);
              && !aggregate && log == old(log) + b.events + f.events
              && res == (if f.error.Some? then Err(f.error.value) else Ok(Results(ops)))
              && notifications == if f.error.None? then [] else old(notifications) + b.queued)
    {
      aggregate := true;
      res := ApplyEach(ops);
      if res.Err? {
        return;
      }
      aggregate := false;
      var err := Flush();
      if err.Some? {
        return Err(err.value);
      }
    }

    /**
     * `applyBatch(account, operations)`: the operations in one transaction,
     * under the aggregation state as it stands, returning each operation's
     * result.
     */
    method ApplyBatchIn(ops: seq<Operation>) returns (res: Result<seq<OpResult>>)
      requires Valid()
      modifies this`prefs, this`dependencies, this`notifications, this`log
      ensures Valid()
      ensures var (b, p) := BatchEffect(config, old(prefs), aggregate, ops);
        var t := Transaction(b);
        && prefs == p && log == old(log) + t.events && notifications == old(notifications) + t.queued
        && res == if b.error.Some? then Err(b.error.value) else Ok(Results(ops))
    {
      ghost var b := BatchEffect(config, prefs, aggregate, ops).0;
      TransactionEvents(b);
      log := log + [TxBegin];
      res := ApplyEach(ops);
      AppendAssoc(old(log), [TxBegin], b.events);
      ghost var acc := [TxBegin] + b.events;
      if res.Ok? {
        log := log + [TxSuccess];
        AppendAssoc(old(log), acc, [TxSuccess]);
        acc := acc + [TxSuccess];
      }
      log := log + [TxEnd];
      AppendAssoc(old(log), acc, [TxEnd]);
    }

    /** `beginTransaction(account)`: aggregation on. */
    method BeginTransaction()
      modifies this`aggregate, this`log
      ensures aggregate && log == old(log) + [TxBegin]
    {
      log := log + [TxBegin];
      aggregate := true;
    }

    /** `beginTransaction(account, listener)`: with a listener, aggregation is left as it is. */
    method BeginTransactionWithListener(listener: bool)
      modifies this`aggregate, this`log
      ensures log == old(log) + [TxBegin]
      ensures aggregate == (old(aggregate) || !listener)
    {
      if listener {
        log := log + [TxBegin];
      } else {
        BeginTransaction();
      }
    }

    /** `setTransactionSuccessful(account)`: aggregation off, the queue flushed, then the mark. */
    method SetTransactionSuccessful() returns (err: Option<Exception>)
      requires Valid()
      modifies this`aggregate, this`dependencies, this`notifications, this`log
      ensures Valid() && !aggregate
      ensures var f := FlushEffect(config, old(notifications));
        && log == old(log) + f.events + (if f.error.None? then [TxSuccess] else [])
        && err == f.error
        && notifications == if f.error.None? then [] else old(notifications)
    {
      aggregate := false;
      err := Flush();
      if err.None? {
        log := log + [TxSuccess];
      }
    }

    /** `endTransaction(account)`: aggregation off; what is queued stays queued. */
    method EndTransaction()
      modifies this`aggregate, this`log
      ensures !aggregate && log == old(log) + [TxEnd]
    {
      aggregate := false;
      log := log + [TxEnd];
    }

    /** The fetch loop of `updateFromServer`, over the adapter's answers. */
    method FetchPaths(paths: seq<Option<string>>, adapter: nat -> AdapterAnswer)
      returns (aborted: set<Option<string>>, err: Option<Exception>)
      ensures (aborted, err) == Fetch(paths, adapter, 0)
    {
      aborted := {};
      for i := 0 to |paths|
        invariant Fetch(paths, adapter, 0) == Fetch(paths, adapter, i) && aborted == {}
      {
        var answer := adapter(i);
        if answer.AdapterFailed? {
          return {}, Some(answer.error);
        }
        if answer.AdapterCancelled? {
          return {paths[i]}, None;
        }
      }
      err := None;
    }

    /** Every api path of the filter, collected one by one as the cancellation branch adds them. */
    method AllPaths(paths: seq<Option<string>>) returns (all: set<Option<string>>)
      ensures all == set k | 0 <= k < |paths| :: paths[k]
    {
      all := {};
      for k := 0 to |paths|
        invariant all == set m | 0 <= m < k :: paths[m]
      {
        assert (set m | 0 <= m < k + 1 :: paths[m]) == (set m | 0 <= m < k :: paths[m]) + {paths[k]};
        all := all + {paths[k]};
      }
    }

    /**
     * `updateFromServer` for an account (`user`, and `database`, the
     * database id derived from it): a second sync with the same database and
     * filter is rejected with nothing aborted; otherwise the sync runs, and
     * it is registered only while it runs. After the transaction ends the
     * processor notifies every table it touched, and an exception from that
     * replaces the result.
     */
    method UpdateFromServer(user: string, database: string, filter: Filters.CollectionFilter, sync: SyncAnswers)
      returns (res: Result<set<Option<string>>>)
      requires Valid()
      modifies this`updates, this`log, this`dependencies, this`notifications
      ensures Valid()
      ensures updates == old(updates)
      ensures UpdateKeyOf(database, filter) in old(updates) ==>
        res == Ok({}) && log == old(log) && notifications == old(notifications)
      ensures UpdateKeyOf(database, filter) !in old(updates) && filter.apiPaths.None? ==>
        res == Err(NullPointer) && log == old(log) && notifications == old(notifications)
      ensures UpdateKeyOf(database, filter) !in old(updates) && filter.apiPaths.Some? ==>
        var o := SyncEffect(filter.apiPaths.value, sync);
        var n := NotifyTablesEffect(config, aggregate, user, sync.affected);
        && (o.error.Some? ==> res == Err(o.error.value) && log == old(log) && notifications == old(notifications))
        && (o.error.None? ==>
              && log == old(log) + o.events + n.events
              && notifications == old(notifications) + n.queued
              && res == if n.error.Some? then Err(n.error.value) else Ok(o.aborted))
    {
      var key := UpdateKeyOf(database, filter);
      if key in updates {
        return Ok({});
      }
      updates := updates + {key};
      if filter.apiPaths.None? {
        updates := updates - {key};
        return Err(NullPointer);
      }
      var paths := filter.apiPaths.value;
      var result, failed := FetchPaths(paths, sync.adapter);
      if failed.Some? {
        updates := updates - {key};
        return Err(failed.value);
      }
      ghost var o := SyncEffect(paths, sync);
      log := log + [TxBegin];
      if !sync.cancelledBefore {
        log := log + [Performed(sync.startTime), TxSuccess];
        if sync.cancelledAfter {
          var all := AllPaths(paths);
          result := result + all;
        }
      }
      log := log + [TxEnd];
      assert log == old(log) + o.events && result == o.aborted && o.error.None?;
      var err := NotifyTables(user, sync.affected);
      updates := updates - {key};
      if err.Some? {
        return Err(err.value);
      }
      return Ok(result);
    }
  }
}
