/**
 * The schema (`Database`): the change journal and the tables of a contract,
 * keyed by table name, and the views, each registered on the tables it
 * reads so that a change to a table can be announced on those views.
 */
module Databases {
  import opened Common
  import opened Tables
  import opened Views
  import Changes

  // ---------------------------------------------------------------------
  // Loading the tables

  /** What a table class contributes: its simple name, whether it is `@Local`, and its scan. */
  datatype TableDef = TableDef(declaredName: string, local: bool, scan: Scan)

  /** `new Table(c)` as a value. */
  function DefOf(d: Description): Result<TableDef> {
    match Describe(d)
    case Ok(s) => Ok(TableDef(d.simpleName, d.local, s))
    case Err(e) => Err(e)
  }

  /**
   * The constructor's `appendTable` calls over the description classes, in
   * order: a class that names no table is skipped, the first other failure
   * stops the construction.
   */
  function Loaded(descs: seq<Description>): Result<seq<TableDef>> {
    if |descs| == 0 then Ok([])
    else
      var prev := Loaded(descs[..|descs| - 1]);
      if prev.Err? then prev
      else
        match DefOf(descs[|descs| - 1])
        case Ok(t) => Ok(prev.value + [t])
        case Err(e) => if e == NoSuchField then prev else Err(e)
  }

  /** The journal description comes first. */
  function AllDescriptions(descs: seq<Description>): seq<Description> {
    [Changes.JOURNAL] + descs
  }

  predicate Named(defs: seq<TableDef>) {
    forall i | 0 <= i < |defs| :: defs[i].scan.name.Some? && WellFormed(defs[i].scan)
  }

  /**
   * Loading fails exactly when some description repeats a designation,
   * always with an `IllegalArgumentException`; what is loaded are the
   * descriptions that name a table, in order.
   */
  lemma {:induction false} LoadedTables(descs: seq<Description>)
    ensures Loaded(descs).Err? <==> exists i | 0 <= i < |descs| :: ScanFields(descs[i].fields).Err?
    ensures Loaded(descs).Err? ==> Loaded(descs).error == IllegalArgument
    ensures Loaded(descs).Ok? ==> Named(Loaded(descs).value)
    ensures Loaded(descs).Ok? ==> forall i | 0 <= i < |descs| ::
      DefOf(descs[i]).Ok? ==> DefOf(descs[i]).value in Loaded(descs).value
    ensures Loaded(descs).Ok? ==> forall t | t in Loaded(descs).value ::
      exists i | 0 <= i < |descs| :: DefOf(descs[i]) == Ok(t)
  {
    LoadedFailures(descs);
    if |descs| > 0 {
      var init := descs[..|descs| - 1];
      var d := descs[|descs| - 1];
      LoadedTables(init);
      AtMostOnce(d.fields);
      assert forall i | 0 <= i < |init| :: init[i] == descs[i];
      if Loaded(init).Ok? && DefOf(d).Ok? {
        assert DefOf(descs[|descs| - 1]) == Ok(DefOf(d).value);
      }
    }
  }

  lemma {:induction false} LoadedFailures(descs: seq<Description>)
    ensures Loaded(descs).Err? <==> exists i | 0 <= i < |descs| :: ScanFields(descs[i].fields).Err?
    ensures Loaded(descs).Err? ==> Loaded(descs).error == IllegalArgument
  {
    if |descs| > 0 {
      var init := descs[..|descs| - 1];
      var d := descs[|descs| - 1];
      LoadedFailures(init);
      AtMostOnce(d.fields);
      assert forall i | 0 <= i < |init| :: init[i] == descs[i];
      if Loaded(init).Err? {
        var i :| 0 <= i < |init| && ScanFields(init[i].fields).Err?;
        assert ScanFields(descs[i].fields).Err?;
      }
    }
  }

  /** `tables.put(name, table)` over the loaded tables: a later table of the same name replaces the earlier. */
  function SchemaOf(defs: seq<TableDef>): map<string, TableDef>
    requires Named(defs)
  {
    if |defs| == 0 then map[]
    else
      var last := defs[|defs| - 1];
      SchemaOf(defs[..|defs| - 1])[last.scan.name.value := last]
  }

  /** The iteration order of the table map: names in order of first insertion. */
  function NameOrder(defs: seq<TableDef>): seq<string>
    requires Named(defs)
  {
    if |defs| == 0 then []
    else
      var init := defs[..|defs| - 1];
      var last := defs[|defs| - 1];
      if last.scan.name.value in SchemaOf(init) then NameOrder(init) else NameOrder(init) + [last.scan.name.value]
  }

  /** Each loaded name maps to the last table loaded under it. */
  lemma {:induction false} SchemaLastWins(defs: seq<TableDef>, n: string)
    requires Named(defs)
    ensures n in SchemaOf(defs) <==> exists i | 0 <= i < |defs| :: defs[i].scan.name == Some(n)
    ensures n in SchemaOf(defs) ==> exists i | 0 <= i < |defs| ::
      SchemaOf(defs)[n] == defs[i] && defs[i].scan.name == Some(n)
      && forall j | i < j < |defs| :: defs[j].scan.name != Some(n)
  {
    if |defs| > 0 {
      var init := defs[..|defs| - 1];
      assert Named(init);
      assert forall i | 0 <= i < |init| :: init[i] == defs[i];
      SchemaLastWins(init, n);
      if defs[|defs| - 1].scan.name == Some(n) {
        assert SchemaOf(defs)[n] == defs[|defs| - 1];
      }
    }
  }

  // ---------------------------------------------------------------------
  // Registering views on tables

  /**
   * No view reads itself, directly or through other views: each dependency
   * that names a view (and no table) has a smaller rank than its reader.
   * Without this the walk recurses forever.
   */
  ghost predicate Ranked(tableNames: set<string>, views: seq<View>, rank: map<string, nat>) {
    forall w | w in views ::
      w.name in rank
      && forall d | d in Dependencies(w) ::
        d !in tableNames && FindView(views, d).Some? ==> d in rank && rank[d] < rank[w.name]
  }

  /**
   * `propagateDependencies(v)`: the (table, view) registrations it makes, in
   * order. A dependency naming a table registers `v` on it; one naming a
   * view walks that view, registering the view found, not `v`; one naming
   * neither makes `getView` return null and the walk fail.
   */
  ghost function Walk(tableNames: set<string>, views: seq<View>, rank: map<string, nat>, v: View): Result<seq<(string, View)>>
    requires Ranked(tableNames, views, rank) && v in views
    decreases rank[v.name], |Dependencies(v)| + 1
  {
    WalkDeps(tableNames, views, rank, v, Dependencies(v))
  }

  ghost function WalkDeps(tableNames: set<string>, views: seq<View>, rank: map<string, nat>, v: View, deps: seq<string>)
    : Result<seq<(string, View)>>
    requires Ranked(tableNames, views, rank) && v in views
    requires forall d | d in deps :: d in Dependencies(v)
    decreases rank[v.name], |deps|
  {
    if |deps| == 0 then Ok([])
    else
      var init := deps[..|deps| - 1];
      assert forall d | d in init :: d in deps;
      var prev := WalkDeps(tableNames, views, rank, v, init);
      if prev.Err? then prev
      else
        var d := deps[|deps| - 1];
        WalkStep(tableNames, views, rank, v, d, prev.value)
  }

  /** One dependency of the walk. */
  ghost function WalkStep(tableNames: set<string>, views: seq<View>, rank: map<string, nat>, v: View, d: string,
                          prev: seq<(string, View)>): Result<seq<(string, View)>>
    requires Ranked(tableNames, views, rank) && v in views && d in Dependencies(v)
    decreases rank[v.name], 0
  {
    if d in tableNames then Ok(prev + [(d, v)])
    else
      match FindView(views, d)
      case None => Err(NullPointer)
      case Some(u) =>
        var sub := Walk(tableNames, views, rank, u);
        if sub.Err? then sub else Ok(prev + sub.value)
  }

  /** The constructor's loop: every view walked in order, stopping at the first failure. */
  ghost function WalkAll(tableNames: set<string>, views: seq<View>, rank: map<string, nat>, vs: seq<View>)
    : Result<seq<(string, View)>>
    requires Ranked(tableNames, views, rank) && forall v | v in vs :: v in views
  {
    if |vs| == 0 then Ok([])
    else
      var init := vs[..|vs| - 1];
      assert forall v | v in init :: v in vs;
      var prev := WalkAll(tableNames, views, rank, init);
      if prev.Err? then prev
      else
        var sub := Walk(tableNames, views, rank, vs[|vs| - 1]);
        if sub.Err? then sub else Ok(prev.value + sub.value)
  }

  /** A registration pairs a table with a view that names it as a dependency. */
  predicate SoundRegistration(tableNames: set<string>, views: seq<View>, r: (string, View)) {
    r.0 in tableNames && r.0 in Dependencies(r.1) && r.1 in views
  }

  /**
   * Every registration is sound, and the walk fails only on a dependency
   * that names neither a table nor a view (a `NullPointerException`).
   */
  lemma {:induction false} WalkSound(tableNames: set<string>, views: seq<View>, rank: map<string, nat>, v: View)
    requires Ranked(tableNames, views, rank) && v in views
    ensures Walk(tableNames, views, rank, v).Err? ==> Walk(tableNames, views, rank, v).error == NullPointer
    ensures Walk(tableNames, views, rank, v).Ok? ==> forall r | r in Walk(tableNames, views, rank, v).value ::
      SoundRegistration(tableNames, views, r)
    decreases rank[v.name], |Dependencies(v)| + 1
  {
    WalkDepsSound(tableNames, views, rank, v, Dependencies(v));
  }

  lemma {:induction false} WalkDepsSound(tableNames: set<string>, views: seq<View>, rank: map<string, nat>, v: View,
                                         deps: seq<string>)
    requires Ranked(tableNames, views, rank) && v in views
    requires forall d | d in deps :: d in Dependencies(v)
    ensures WalkDeps(tableNames, views, rank, v, deps).Err? ==> WalkDeps(tableNames, views, rank, v, deps).error == NullPointer
    ensures WalkDeps(tableNames, views, rank, v, deps).Ok? ==> forall r | r in WalkDeps(tableNames, views, rank, v, deps).value ::
      SoundRegistration(tableNames, views, r)
    decreases rank[v.name], |deps|
  {
    if |deps| > 0 {
      var init := deps[..|deps| - 1];
      assert forall d | d in init :: d in deps;
      WalkDepsSound(tableNames, views, rank, v, init);
      var d := deps[|deps| - 1];
      if d !in tableNames && FindView(views, d).Some? {
        WalkSound(tableNames, views, rank, FindView(views, d).value);
      }
    }
  }

  /** A view is registered on each table it names directly. */
  lemma {:induction false} WalkRegistersDirect(tableNames: set<string>, views: seq<View>, rank: map<string, nat>, v: View,
                                               deps: seq<string>, t: string)
    requires Ranked(tableNames, views, rank) && v in views
    requires forall d | d in deps :: d in Dependencies(v)
    requires WalkDeps(tableNames, views, rank, v, deps).Ok? && t in deps && t in tableNames
    ensures (t, v) in WalkDeps(tableNames, views, rank, v, deps).value
  {
    var init := deps[..|deps| - 1];
    assert forall d | d in init :: d in deps;
    assert WalkDeps(tableNames, views, rank, v, init).Ok?;
    if t in init {
      WalkRegistersDirect(tableNames, views, rank, v, init, t);
    }
  }

  /** A view read through another view is walked in full: all its registrations are made too. */
  lemma {:induction false} WalkIncludesSubview(tableNames: set<string>, views: seq<View>, rank: map<string, nat>, v: View,
                                               deps: seq<string>, d: string)
    requires Ranked(tableNames, views, rank) && v in views
    requires forall x | x in deps :: x in Dependencies(v)
    requires WalkDeps(tableNames, views, rank, v, deps).Ok? && d in deps && d !in tableNames
    ensures FindView(views, d).Some? && Walk(tableNames, views, rank, FindView(views, d).value).Ok?
    ensures forall r | r in Walk(tableNames, views, rank, FindView(views, d).value).value ::
      r in WalkDeps(tableNames, views, rank, v, deps).value
  {
    var init := deps[..|deps| - 1];
    assert forall x | x in init :: x in deps;
    assert WalkDeps(tableNames, views, rank, v, init).Ok?;
    if d in init {
      WalkIncludesSubview(tableNames, views, rank, v, init, d);
    }
  }

  /** The views registered on table `t`, in registration order. */
  function RegisteredOn(regs: seq<(string, View)>, t: string): seq<View> {
    if |regs| == 0 then []
    else RegisteredOn(regs[..|regs| - 1], t) + (if regs[|regs| - 1].0 == t then [regs[|regs| - 1].1] else [])
  }

  lemma {:induction false} RegisteredOnAppend(a: seq<(string, View)>, b: seq<(string, View)>, t: string)
    ensures RegisteredOn(a + b, t) == RegisteredOn(a, t) + RegisteredOn(b, t)
  {
    if |b| == 0 {
      assert a + b == a;
    } else {
      assert (a + b)[..|a + b| - 1] == a + b[..|b| - 1];
      RegisteredOnAppend(a, b[..|b| - 1], t);
    }
  }

  /** A view is registered on a table exactly as often as the registrations say. */
  lemma {:induction false} RegisteredOnMembers(regs: seq<(string, View)>, t: string, w: View)
    ensures w in RegisteredOn(regs, t) <==> (t, w) in regs
  {
    if |regs| > 0 {
      var init := regs[..|regs| - 1];
      RegisteredOnMembers(init, t, w);
      assert regs == init + [regs[|regs| - 1]];
    }
  }

  // ---------------------------------------------------------------------
  // Statements and declared values of the whole schema

  /** `createDatabase`: each table's CREATE TABLE, then each view's CREATE VIEW. */
  function ViewStatements(views: seq<View>): Result<seq<string>> {
    if |views| == 0 then Ok([])
    else
      var prev := ViewStatements(views[..|views| - 1]);
      if prev.Err? then prev
      else
        match CreateStatement(views[|views| - 1])
        case Err(e) => Err(e)
        case Ok(s) => Ok(prev.value + [s])
  }

  lemma {:induction false} ViewStatementsShape(views: seq<View>)
    ensures ViewStatements(views).Ok? <==> forall i | 0 <= i < |views| :: SelectStatement(views[i]).Ok?
    ensures ViewStatements(views).Ok? ==> |ViewStatements(views).value| == |views|
    ensures ViewStatements(views).Ok? ==>
      forall i | 0 <= i < |views| :: ViewStatements(views).value[i] == CreateStatement(views[i]).value
  {
    if |views| > 0 {
      var init := views[..|views| - 1];
      ViewStatementsShape(init);
      assert forall i | 0 <= i < |init| :: init[i] == views[i];
    }
  }

  function TableStatements(schema: map<string, TableDef>, order: seq<string>): (r: seq<string>)
    requires forall n | n in order :: n in schema && WellFormed(schema[n].scan)
    ensures |r| == |order|
    ensures forall i | 0 <= i < |order| :: r[i] == CreateSql(order[i], InOrder(schema[order[i]].scan))
  {
    seq(|order|, i requires 0 <= i < |order| => CreateSql(order[i], InOrder(schema[order[i]].scan)))
  }

  /** `dropAll`: a DROP TABLE IF EXISTS per table, then a DROP VIEW IF EXISTS per view. */
  function DropStatements(order: seq<string>, views: seq<View>): (r: seq<string>)
    ensures |r| == |order| + |views|
    ensures forall i | 0 <= i < |order| :: r[i] == "DROP TABLE IF EXISTS " + order[i]
    ensures forall i | 0 <= i < |views| :: r[|order| + i] == "DROP VIEW IF EXISTS " + views[i].name
  {
    seq(|order|, i requires 0 <= i < |order| => "DROP TABLE IF EXISTS " + order[i])
    + seq(|views|, i requires 0 <= i < |views| => "DROP VIEW IF EXISTS " + views[i].name)
  }

  /** The tables of `schema` listed in `order`. */
  function InTableOrder(schema: map<string, TableDef>, order: seq<string>): (r: seq<TableDef>)
    requires forall n | n in order :: n in schema
    ensures |r| == |order| && forall i | 0 <= i < |order| :: r[i] == schema[order[i]]
  {
    seq(|order|, i requires 0 <= i < |order| => schema[order[i]])
  }

  /** `getDeclaredValues`: every table's mappings put into one map, in table order. */
  function AllDeclared(tables: seq<TableDef>): map<string, string>
    requires Named(tables)
  {
    if |tables| == 0 then map[]
    else
      var t := tables[|tables| - 1];
      DeclaredValues(AllDeclared(tables[..|tables| - 1]), t.declaredName, t.scan.name.value, InOrder(t.scan))
  }

  /** The declared values of one more table. */
  lemma AllDeclaredSnoc(tables: seq<TableDef>, i: nat)
    requires i < |tables| && Named(tables)
    ensures AllDeclared(tables[..i + 1]) ==
      DeclaredValues(AllDeclared(tables[..i]), tables[i].declaredName, tables[i].scan.name.value, InOrder(tables[i].scan))
  {
    assert tables[..i + 1][..i] == tables[..i];
  }

  /** The keys one table adds: its declared name, its columns' declared names and their dotted pairs. */
  function TableKeys(t: TableDef): set<string>
    requires WellFormed(t.scan)
  {
    var cols := InOrder(t.scan);
    {t.declaredName}
    + (set i | 0 <= i < |cols| :: cols[i].declaredName)
    + (set i | 0 <= i < |cols| :: t.declaredName + "." + cols[i].declaredName)
  }

  function UnionKeys(tables: seq<TableDef>): set<string>
    requires forall i | 0 <= i < |tables| :: WellFormed(tables[i].scan)
  {
    if |tables| == 0 then {} else UnionKeys(tables[..|tables| - 1]) + TableKeys(tables[|tables| - 1])
  }

  /** The declared values hold exactly the keys every table adds. */
  lemma {:induction false} AllDeclaredKeys(tables: seq<TableDef>)
    requires Named(tables)
    ensures AllDeclared(tables).Keys == UnionKeys(tables)
  {
    if |tables| > 0 {
      var init := tables[..|tables| - 1];
      var t := tables[|tables| - 1];
      AllDeclaredKeys(init);
      var m := AllDeclared(init);
      DeclaredKeys(m[t.declaredName := t.scan.name.value], t.declaredName, t.scan.name.value, InOrder(t.scan));
    }
  }

  // ---------------------------------------------------------------------
  // The schema object

  /** Table object `t`, kept under name `n`, is the loaded `def` and is referenced by `refs`. */
  ghost predicate Matches(t: Table, n: string, def: TableDef, refs: seq<View>)
    reads t
  {
    && def.scan.name == Some(n) && WellFormed(def.scan)
    && t.State() == def.scan && t.declaredName == def.declaredName && t.isLocal == def.local
    && t.referencedBy == refs
  }

  class Database {
    var tables: map<string, Table>
    /** The iteration order of `tables.values()`. */
    var tableOrder: seq<string>
    var views: seq<View>
    /** The loaded table under each name. */
    ghost var schema: map<string, TableDef>
    /** The `addReferencedBy` calls made so far, as (table name, view) pairs in order. */
    ghost var regs: seq<(string, View)>

    /**
     * Tables keyed by their own names (so distinct names hold distinct
     * objects), each listed once in the iteration order, each the loaded
     * table of `schema`, referenced by the views registered on it.
     */
    ghost predicate Valid()
      reads this, tables.Values
    {
      && (forall i | 0 <= i < |tableOrder| :: tableOrder[i] in tables)
      && (forall i, j | 0 <= i < j < |tableOrder| :: tableOrder[i] != tableOrder[j])
      && forall n | n in tables :: n in tableOrder && n in schema && Matches(tables[n], n, schema[n], RegisteredOn(regs, n))
    }

    constructor Init(views: seq<View>)
      ensures Valid() && tables == map[] && tableOrder == [] && this.views == views
      ensures schema == map[] && regs == []
    {
      tables := map[];
      tableOrder := [];
      this.views := views;
      schema := map[];
      regs := [];
    }

    /**
     * `tables.put(t.getName(), t)`: a table replaces any table of the same
     * name. The new table is referenced by nothing, so no view may have been
     * registered under its name yet.
     */
    method PutTable(t: Table, ghost def: TableDef)
      requires Valid() && t.name.Some? && Matches(t, t.name.value, def, [])
      requires RegisteredOn(regs, t.name.value) == []
      modifies this`tables, this`tableOrder, this`schema
      ensures Valid() && tables == old(tables)[t.name.value := t]
      ensures schema == old(schema)[t.name.value := def]
      ensures t.name.value in old(tables) ==> tableOrder == old(tableOrder)
      ensures t.name.value !in old(tables) ==> tableOrder == old(tableOrder) + [t.name.value]
    {
      var n := t.name.value;
      if n !in tables {
        tableOrder := tableOrder + [n];
      }
      tables := tables[n := t];
      schema := schema[n := def];
      forall m | m in tables
        ensures m in tableOrder && m in schema && Matches(tables[m], m, schema[m], RegisteredOn(regs, m))
      {
        if m != n {
          assert tables[m] == old(tables[m]) && Matches(old(tables[m]), m, old(schema[m]), RegisteredOn(regs, m));
        }
      }
    }

    /**
     * `appendTable`: the description loaded as a table and put; one naming
     * no table is ignored. The constructor appends every table before it
     * registers any view.
     */
    method AppendTable(d: Description) returns (err: Option<Exception>)
      requires Valid() && regs == []
      modifies this`tables, this`tableOrder, this`schema
      ensures Valid()
      ensures err == match DefOf(d) case Ok(_) => None case Err(e) => if e == NoSuchField then None else Some(e)
      ensures DefOf(d).Err? ==> tables == old(tables) && tableOrder == old(tableOrder) && schema == old(schema)
      ensures DefOf(d).Ok? ==> var def := DefOf(d).value;
        && def.scan.name.Some? && WellFormed(def.scan)
        && var n := def.scan.name.value;
        && n in tables && fresh(tables[n]) && tables == old(tables)[n := tables[n]]
        && schema == old(schema)[n := def]
        && tableOrder == if n in old(tables) then old(tableOrder) else old(tableOrder) + [n]
    {
      var t := Table.Load(d);
      if t.Err? {
        return if t.error == NoSuchField then None else Some(t.error);
      }
      PutTable(t.value, DefOf(d).value);
      assert tables[t.value.name.value] == t.value;
      return None;
    }

    /**
     * The state after putting the tables `defs` into an empty map: keyed and
     * ordered as `tables.put` leaves them, no view registered yet.
     */
    ghost predicate HoldsLoaded(defs: seq<TableDef>)
      reads this, tables.Values
    {
      && Valid() && Named(defs) && regs == []
      && schema == SchemaOf(defs) && tables.Keys == schema.Keys
      && tableOrder == NameOrder(defs)
    }

    /** One iteration of the constructor's first loop. */
    method AppendStep(d: Description, ghost defs: seq<TableDef>) returns (err: Option<Exception>)
      requires HoldsLoaded(defs)
      modifies this`tables, this`tableOrder, this`schema
      ensures err == match DefOf(d) case Ok(_) => None case Err(e) => if e == NoSuchField then None else Some(e)
      ensures err.None? ==> HoldsLoaded(match DefOf(d) case Ok(t) => defs + [t] case Err(_) => defs)
      ensures DefOf(d).Err? ==> tables == old(tables)
      ensures DefOf(d).Ok? ==> var n := DefOf(d).value.scan.name.value;
        n in tables && fresh(tables[n]) && tables == old(tables)[n := tables[n]]
    {
      err := AppendTable(d);
      if err.Some? {
        return;
      }
      if DefOf(d).Ok? {
        var t := DefOf(d).value;
        var n := t.scan.name.value;
        NamedSnoc(defs, t);
        LoadStep(defs, d);
        KeysUpdate(old(tables), old(schema), n, tables[n], t);
      }
    }

    /** One iteration of the constructor's first loop, stated on the prefix of descriptions loaded so far. */
    method AppendNext(all: seq<Description>, i: nat) returns (err: Option<Exception>)
      requires i < |all| && Loaded(all[..i]).Ok? && HoldsLoaded(Loaded(all[..i]).value)
      modifies this`tables, this`tableOrder, this`schema
      ensures err.Some? <==> Loaded(all[..i + 1]).Err?
      ensures err.Some? ==> Loaded(all[..i + 1]) == Err(err.value)
      ensures err.None? ==> HoldsLoaded(Loaded(all[..i + 1]).value)
      ensures forall n | n in tables :: (n in old(tables) && tables[n] == old(tables)[n]) || fresh(tables[n])
    {
      ghost var defs := Loaded(all[..i]).value;
      LoadedSnoc(all, i);
      err := AppendStep(all[i], defs);
    }

    /** The constructor's first loop: `appendTable` of every description in turn, from an empty map. */
    method AppendTables(all: seq<Description>) returns (err: Option<Exception>)
      requires Valid() && tables == map[] && tableOrder == [] && schema == map[] && regs == []
      modifies this`tables, this`tableOrder, this`schema
      ensures err.Some? <==> Loaded(all).Err?
      ensures err.Some? ==> err.value == IllegalArgument
      ensures err.None? ==> HoldsLoaded(Loaded(all).value)
      ensures err.None? ==> forall n | n in tables :: fresh(tables[n])
    {
      for i := 0 to |all|
        invariant Loaded(all[..i]).Ok?
        invariant HoldsLoaded(Loaded(all[..i]).value)
        invariant forall n | n in tables :: fresh(tables[n])
      {
        err := AppendNext(all, i);
        if err.Some? {
          LoadedErrSticks(all, i + 1);
          LoadedFailures(all);
          return;
        }
      }
      assert all[..|all|] == all;
      err := None;
    }

    /** `propagateDependencies`: false stands for the `NullPointerException` of a missing view. */
    method PropagateDependencies(v: View, ghost rank: map<string, nat>) returns (ok: bool)
      requires Valid() && Ranked(tables.Keys, views, rank) && v in views
      modifies tables.Values, this`regs
      ensures ok <==> Walk(tables.Keys, views, rank, v).Ok?
      ensures ok ==> Valid() && regs == old(regs) + Walk(tables.Keys, views, rank, v).value
      decreases rank[v.name], |Dependencies(v)| + 1
    {
      var deps := Dependencies(v);
      ghost var regs0 := regs;
      assert regs == regs0 + [];
      for i := 0 to |deps|
        invariant forall d | d in deps[..i] :: d in Dependencies(v)
        invariant WalkDeps(tables.Keys, views, rank, v, deps[..i]).Ok?
        invariant Valid() && regs == regs0 + WalkDeps(tables.Keys, views, rank, v, deps[..i]).value
      {
        WalkDepsSnoc(tables.Keys, views, rank, v, deps, i);
        ghost var prev := WalkDeps(tables.Keys, views, rank, v, deps[..i]).value;
        ok := PropagateOne(v, deps[i], rank, prev, regs0);
        if !ok {
          WalkDepsErrSticks(tables.Keys, views, rank, v, deps, i + 1);
          return false;
        }
      }
      assert deps[..|deps|] == deps;
      ok := true;
    }

    /** The constructor's second loop: `propagateDependencies` of every view in turn. */
    method PropagateAll(ghost rank: map<string, nat>) returns (ok: bool)
      requires Valid() && Ranked(tables.Keys, views, rank)
      modifies tables.Values, this`regs
      ensures ok <==> WalkAll(tables.Keys, views, rank, views).Ok?
      ensures ok ==> Valid() && regs == old(regs) + WalkAll(tables.Keys, views, rank, views).value
    {
      ghost var regs0 := regs;
      assert regs == regs0 + [];
      for i := 0 to |views|
        invariant Valid()
        invariant WalkAll(tables.Keys, views, rank, views[..i]).Ok?
        invariant regs == regs0 + WalkAll(tables.Keys, views, rank, views[..i]).value
      {
        WalkAllSnoc(tables.Keys, views, rank, i);
        ghost var prev := WalkAll(tables.Keys, views, rank, views[..i]).value;
        ok := PropagateDependencies(views[i], rank);
        if !ok {
          WalkAllErrSticks(tables.Keys, views, rank, i + 1);
          return false;
        }
        AppendAssoc(regs0, prev, Walk(tables.Keys, views, rank, views[i]).value);
      }
      assert views[..|views|] == views;
      ok := true;
    }

    /** One dependency of `propagateDependencies`. */
    method PropagateOne(v: View, d: string, ghost rank: map<string, nat>, ghost prev: seq<(string, View)>,
                        ghost regs0: seq<(string, View)>) returns (ok: bool)
      requires Valid() && regs == regs0 + prev
      requires Ranked(tables.Keys, views, rank) && v in views && d in Dependencies(v)
      modifies tables.Values, this`regs
      ensures ok <==> WalkStep(tables.Keys, views, rank, v, d, prev).Ok?
      ensures ok ==> Valid() && regs == regs0 + WalkStep(tables.Keys, views, rank, v, d, prev).value
      decreases rank[v.name], 0
    {
      if d in tables {
        Reference(d, v);
        AppendAssoc(regs0, prev, [(d, v)]);
        return true;
      }
      var u := GetView(d);
      if u.None? {
        return false;
      }
      ok := PropagateDependencies(u.value, rank);
      if ok {
        AppendAssoc(regs0, prev, Walk(tables.Keys, views, rank, u.value).value);
      }
    }

    /** `tables.get(d).addReferencedBy(v)`. */
    method Reference(d: string, v: View)
      requires Valid() && d in tables
      modifies tables[d], this`regs
      ensures Valid() && regs == old(regs) + [(d, v)]
    {
      var t := tables[d];
      t.AddReferencedBy(v);
      regs := regs + [(d, v)];
      assert regs[..|regs| - 1] == old(regs);
      forall n | n in tables
        ensures Matches(tables[n], n, schema[n], RegisteredOn(regs, n))
      {
        if n != d {
          assert old(tables[n].name) != old(t.name);
        }
      }
    }

    /** `getTable`: the table of that name, or null. */
    function GetTable(name: string): (r: Option<Table>)
      reads this
      ensures r.Some? <==> name in tables
      ensures r.Some? ==> r.value == tables[name]
    {
      if name in tables then Some(tables[name]) else None
    }

    /** `getView`: the first view of that name, or null. */
    method GetView(name: string) returns (r: Option<View>)
      ensures r == FindView(views, name)
    {
      for i := 0 to |views|
        invariant FindView(views, name) == FindView(views[i..], name)
      {
        assert views[i..][1..] == views[i + 1..];
        if views[i].name == name {
          return Some(views[i]);
        }
      }
      return None;
    }

    /** `createDatabase`: the statements it executes, tables first; a malformed view stops it. */
    method CreateDatabase() returns (r: Result<seq<string>>)
      requires Valid()
      ensures r.Ok? <==> ViewStatements(views).Ok?
      ensures r.Ok? ==> r.value == TableStatements(schema, tableOrder) + ViewStatements(views).value
    {
      var stmts := CreateTables();
      var vstmts: seq<string> := [];
      for i := 0 to |views|
        invariant ViewStatements(views[..i]) == Ok(vstmts)
      {
        assert views[..i + 1][..i] == views[..i];
        var s := CreateStatement(views[i]);
        if s.Err? {
          ViewStatementsErrSticks(views, i + 1);
          return Err(s.error);
        }
        vstmts := vstmts + [s.value];
      }
      assert views[..|views|] == views;
      return Ok(stmts + vstmts);
    }

    /** `t.create(db)` for the table under name `n`: its CREATE TABLE statement. */
    method CreateTable(n: string) returns (sql: string)
      requires Valid() && n in tables
      ensures sql == CreateSql(n, InOrder(schema[n].scan))
    {
      var t := tables[n];
      assert Matches(t, n, schema[n], RegisteredOn(regs, n));
      sql := t.Create();
      assert t.OrderedColumns() == InOrder(schema[n].scan);
    }

    /** The table half of `createDatabase`. */
    method CreateTables() returns (stmts: seq<string>)
      requires Valid()
      ensures stmts == TableStatements(schema, tableOrder)
    {
      ghost var expected := TableStatements(schema, tableOrder);
      stmts := [];
      for i := 0 to |tableOrder|
        invariant stmts == expected[..i]
      {
        var sql := CreateTable(tableOrder[i]);
        TakeSnoc(expected, i);
        stmts := stmts + [sql];
      }
      assert expected[..|tableOrder|] == expected;
    }

    /** `dropAll`: the statements it executes. */
    method DropAll() returns (stmts: seq<string>)
      ensures stmts == DropStatements(tableOrder, views)
    {
      var order := tableOrder;
      var vs := views;
      stmts := [];
      for i := 0 to |order|
        invariant |stmts| == i && forall k | 0 <= k < i :: stmts[k] == "DROP TABLE IF EXISTS " + order[k]
      {
        stmts := stmts + ["DROP TABLE IF EXISTS " + order[i]];
      }
      for i := 0 to |vs|
        invariant |stmts| == |order| + i
        invariant forall k | 0 <= k < |order| :: stmts[k] == "DROP TABLE IF EXISTS " + order[k]
        invariant forall k | 0 <= k < i :: stmts[|order| + k] == "DROP VIEW IF EXISTS " + vs[k].name
      {
        stmts := stmts + ["DROP VIEW IF EXISTS " + vs[i].name];
      }
    }

    /** `t.appendDeclaredValues(values)` for the table under name `n`. */
    method DeclareTable(n: string, values: map<string, string>) returns (r: map<string, string>)
      requires Valid() && n in tables
      ensures schema[n].scan.name == Some(n) && WellFormed(schema[n].scan)
      ensures r == DeclaredValues(values, schema[n].declaredName, n, InOrder(schema[n].scan))
    {
      var t := tables[n];
      assert Matches(t, n, schema[n], RegisteredOn(regs, n));
      r := t.AppendDeclaredValues(values);
      assert t.OrderedColumns() == InOrder(schema[n].scan);
    }

    /** `getDeclaredValues`: every table's declared values in one map. */
    method GetDeclaredValues() returns (values: map<string, string>)
      requires Valid()
      ensures values == AllDeclared(InTableOrder(schema, tableOrder))
    {
      ghost var items := InTableOrder(schema, tableOrder);
      assert Named(items);
      values := map[];
      for i := 0 to |tableOrder|
        invariant values == AllDeclared(items[..i])
      {
        values := DeclareTable(tableOrder[i], values);
        AllDeclaredSnoc(items, i);
      }
      assert items[..|tableOrder|] == items;
    }

    /**
     * The constructor (and `newInstance`): the journal, then each table
     * class, then every view registered on the tables it reads. A repeated
     * designation fails with `IllegalArgumentException` (`newInstance`
     * returns null); a dependency naming neither a table nor a view fails
     * with a `NullPointerException`.
     */
    static method New(descs: seq<Description>, views: seq<View>, ghost rank: map<string, nat>) returns (r: Result<Database>)
      requires Ranked(LoadedNames(AllDescriptions(descs)), views, rank)
      ensures Loaded(AllDescriptions(descs)).Err? ==> r == Err(IllegalArgument)
      ensures r.Ok? ==> fresh(r.value) && r.value.Valid() && r.value.views == views
      ensures r.Ok? ==> Loaded(AllDescriptions(descs)).Ok? && Named(Loaded(AllDescriptions(descs)).value)
      ensures r.Ok? ==> r.value.schema == SchemaOf(Loaded(AllDescriptions(descs)).value)
      ensures r.Ok? ==> r.value.tables.Keys == LoadedNames(AllDescriptions(descs))
      ensures r.Ok? ==> r.value.tableOrder == NameOrder(Loaded(AllDescriptions(descs)).value)
      ensures r.Ok? ==> var names := LoadedNames(AllDescriptions(descs));
        WalkAll(names, views, rank, views).Ok?
        && forall n | n in r.value.tables :: r.value.tables[n].referencedBy == RegisteredOn(WalkAll(names, views, rank, views).value, n)
      ensures r.Err? && Loaded(AllDescriptions(descs)).Ok? ==>
        WalkAll(LoadedNames(AllDescriptions(descs)), views, rank, views).Err? && r == Err(NullPointer)
    {
      var all := AllDescriptions(descs);
      var db := new Database.Init(views);
      var err := db.AppendTables(all);
      if err.Some? {
        return Err(err.value);
      }
      var ok := db.PropagateAll(rank);
      if !ok {
        return Err(NullPointer);
      }
      assert db.regs == WalkAll(db.tables.Keys, views, rank, views).value;
      return Ok(db);
    }
  }

  /** The names of the loaded tables (none when loading fails). */
  function LoadedNames(descs: seq<Description>): set<string> {
    var l := Loaded(descs);
    if l.Ok? && Named(l.value) then SchemaOf(l.value).Keys else {}
  }

  lemma NamedSnoc(defs: seq<TableDef>, t: TableDef)
    requires Named(defs) && t.scan.name.Some? && WellFormed(t.scan)
    ensures Named(defs + [t])
  {
  }

  /** Two maps with the same keys keep the same keys when both are updated at one key. */
  lemma KeysUpdate<K, V, W>(a: map<K, V>, b: map<K, W>, k: K, x: V, y: W)
    requires a.Keys == b.Keys
    ensures a[k := x].Keys == b[k := y].Keys
  {
  }

  /** What one more description adds to the schema. */
  lemma LoadStep(defs: seq<TableDef>, d: Description)
    requires Named(defs) && DefOf(d).Ok?
    requires Named(defs + [DefOf(d).value])
    ensures var t := DefOf(d).value;
      SchemaOf(defs + [t]) == SchemaOf(defs)[t.scan.name.value := t]
    ensures var t := DefOf(d).value;
      NameOrder(defs + [t]) == if t.scan.name.value in SchemaOf(defs) then NameOrder(defs) else NameOrder(defs) + [t.scan.name.value]
  {
    assert (defs + [DefOf(d).value])[..|defs|] == defs;
  }

  /** One more description, after a prefix that loaded. */
  lemma LoadedSnoc(descs: seq<Description>, i: nat)
    requires i < |descs| && Loaded(descs[..i]).Ok?
    ensures Loaded(descs[..i + 1]) == match DefOf(descs[i])
      case Ok(t) => Ok(Loaded(descs[..i]).value + [t])
      case Err(e) => if e == NoSuchField then Loaded(descs[..i]) else Err(e)
  {
    assert descs[..i + 1][..i] == descs[..i];
  }

  lemma {:induction false} LoadedErrSticks(descs: seq<Description>, i: nat)
    requires i <= |descs| && Loaded(descs[..i]).Err?
    ensures Loaded(descs) == Loaded(descs[..i])
    decreases |descs| - i
  {
    if i < |descs| {
      assert descs[..i + 1][..i] == descs[..i];
      LoadedErrSticks(descs, i + 1);
    } else {
      assert descs[..i] == descs;
    }
  }

  lemma {:induction false} WalkDepsErrSticks(tableNames: set<string>, views: seq<View>, rank: map<string, nat>, v: View,
                                             deps: seq<string>, i: nat)
    requires Ranked(tableNames, views, rank) && v in views
    requires forall d | d in deps :: d in Dependencies(v)
    requires i <= |deps|
    requires WalkDeps(tableNames, views, rank, v, deps[..i]).Err?
    ensures WalkDeps(tableNames, views, rank, v, deps).Err?
    decreases |deps| - i
  {
    if i < |deps| {
      assert deps[..i + 1][..i] == deps[..i];
      WalkDepsErrSticks(tableNames, views, rank, v, deps, i + 1);
    } else {
      assert deps[..i] == deps;
    }
  }

  /** The walk over one more dependency: the step for that dependency after the walk so far. */
  lemma WalkDepsSnoc(tableNames: set<string>, views: seq<View>, rank: map<string, nat>, v: View,
                     deps: seq<string>, i: nat)
    requires Ranked(tableNames, views, rank) && v in views
    requires i < |deps| && forall d | d in deps :: d in Dependencies(v)
    ensures forall d | d in deps[..i] :: d in Dependencies(v)
    ensures forall d | d in deps[..i + 1] :: d in Dependencies(v)
    ensures WalkDeps(tableNames, views, rank, v, deps[..i + 1]) ==
      var prev := WalkDeps(tableNames, views, rank, v, deps[..i]);
      if prev.Err? then prev else WalkStep(tableNames, views, rank, v, deps[i], prev.value)
  {
    assert deps[..i + 1][..i] == deps[..i];
  }

  /** The constructor's loop over one more view. */
  lemma WalkAllSnoc(tableNames: set<string>, views: seq<View>, rank: map<string, nat>, i: nat)
    requires Ranked(tableNames, views, rank) && i < |views|
    ensures WalkAll(tableNames, views, rank, views[..i + 1]) ==
      var prev := WalkAll(tableNames, views, rank, views[..i]);
      if prev.Err? then prev
      else
        var sub := Walk(tableNames, views, rank, views[i]);
        if sub.Err? then sub else Ok(prev.value + sub.value)
  {
    assert views[..i + 1][..i] == views[..i];
  }

  lemma {:induction false} WalkAllErrSticks(tableNames: set<string>, views: seq<View>, rank: map<string, nat>, i: nat)
    requires Ranked(tableNames, views, rank)
    requires i <= |views|
    requires WalkAll(tableNames, views, rank, views[..i]).Err?
    ensures WalkAll(tableNames, views, rank, views).Err?
    decreases |views| - i
  {
    if i < |views| {
      assert views[..i + 1][..i] == views[..i];
      WalkAllErrSticks(tableNames, views, rank, i + 1);
    } else {
      assert views[..i] == views;
    }
  }

  lemma {:induction false} ViewStatementsErrSticks(views: seq<View>, i: nat)
    requires i <= |views| && ViewStatements(views[..i]).Err?
    ensures ViewStatements(views).Err?
    decreases |views| - i
  {
    if i < |views| {
      assert views[..i + 1][..i] == views[..i];
      ViewStatementsErrSticks(views, i + 1);
    } else {
      assert views[..i] == views;
    }
  }
}
