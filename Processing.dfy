/**
 * The reconciliation engine (`DataProcessor`). Remote records arrive through
 * `onDataEntry` and are collected per table into duplicate-free sorted
 * buckets; `performOperations` then applies the buckets in ascending depth.
 * The main table is reconciled against the local rows by a sorted merge-join
 * (update on equal ids, insert-or-update for remote-only ids, conditional
 * delete for local-only rows); other tables only receive inserts.
 *
 * The SQLite store is an oracle: the answers of its queries are parameters
 * (the local rows of the main table, the journal, the outcome of an insert)
 * and every write the engine issues is appended to `log`.
 */
module Processing {
  import opened Common
  import opened DataEntries
  import Changes
  import Provider

  // ---------------------------------------------------------------------
  // Writes and notifications issued against the store

  datatype Event =
    | InsertIgnore(table: string, values: Row)
    | Update(table: string, values: Row, where: string, args: seq<string>)
    | Delete(table: string, where: string, args: seq<string>)
    | Notified(action: int, table: string, serverId: int)
    | Finished

  /** What `insertWithOnConflict` gives back: a row id (negative when ignored) or a constraint exception. */
  datatype InsertOutcome = Returned(rowId: int) | ConstraintError

  /** `DatabaseUpdateListener`: each filter field may be null (`None`). */
  datatype UpdateListener = UpdateListener(action: Option<int>, serverId: Option<int>, table: Option<string>)

  /** `listenerIsInterestedIn`: an unset filter field matches anything. */
  predicate IsInterested(l: UpdateListener, action: int, table: string, serverId: int) {
    && (l.action.None? || l.action.value == action)
    && (l.serverId.None? || l.serverId.value == serverId)
    && (l.table.None? || table == l.table.value)
  }

  lemma WildcardListener(action: int, table: string, serverId: int)
    ensures IsInterested(UpdateListener(None, None, None), action, table, serverId)
  {
  }

  lemma ExactListener(a: int, t: string, id: int, action: int, table: string, serverId: int)
    ensures IsInterested(UpdateListener(Some(a), Some(id), Some(t)), action, table, serverId)
            <==> action == a && table == t && serverId == id
  {
  }

  /** `getSignature`: "table:id". */
  function Signature(table: string, id: int): string {
    table + ":" + IntToString(id)
  }

  /** For table names without ':', a signature determines its table and id. */
  lemma SignatureInjective(t1: string, a: int, t2: string, b: int)
    requires ':' !in t1 && ':' !in t2
    requires Signature(t1, a) == Signature(t2, b)
    ensures t1 == t2 && a == b
  {
    var s := Signature(t1, a);
    assert s[|t1|] == ':';
    assert s[|t2|] == ':';
    assert forall i | 0 <= i < |t2| :: s[i] == t2[i] && t2[i] != ':';
    assert forall i | 0 <= i < |t1| :: s[i] == t1[i] && t1[i] != ':';
    assert |t1| == |t2|;
    assert t1 == s[..|t1|] == t2;
    assert IntToString(a) == s[|t1| + 1..] == IntToString(b);
    IntToStringInjective(a, b);
  }

  /** The events of `insertOrUpdate`: insert-ignore, then an update keyed by the identifying column when the insert returned a negative id. */
  function InsertOrUpdateEffects(table: string, values: Row, column: string, id: int, outcome: InsertOutcome): seq<Event> {
    [InsertIgnore(table, values)]
    + if outcome.Returned? && outcome.rowId < 0 then [Update(table, values, column + " = " + IntToString(id), [])] else []
  }

  // ---------------------------------------------------------------------
  // The merge-join of the main table

  /** A row of the local cursor: `_id`, the server id column and the creation date. */
  datatype LocalRow = LocalRow(rowId: Long, serverId: Long, created: int)

  datatype Step =
    | Match(row: LocalRow, entry: DataEntry)
    | RemoteOnly(entry: DataEntry)
    | LocalOnly(row: LocalRow)

  /** `Long.MAX_VALUE` marks an exhausted side, so no real id may equal it. */
  predicate BelowSentinel(local: seq<LocalRow>, remote: seq<DataEntry>) {
    && (forall r | r in local :: r.serverId < LONG_MAX)
    && (forall e | e in remote :: e.serverId < LONG_MAX)
  }

  /**
   * The steps of the merge loop: both sides are read through
   * `getCurrentServerId` / `NO_DATA`, which yield `Long.MAX_VALUE` once a side
   * is exhausted.
   */
  function Classify(local: seq<LocalRow>, remote: seq<DataEntry>): seq<Step>
    requires BelowSentinel(local, remote)
    decreases |local| + |remote|
  {
    if |local| == 0 && |remote| == 0 then []
    else
      var current := if |local| == 0 then LONG_MAX else local[0].serverId;
      var incoming := if |remote| == 0 then LONG_MAX else remote[0].serverId;
      assert |remote| > 0 ==> remote[0] in remote;
      if incoming == current then
        [Match(local[0], remote[0])] + Classify(local[1..], remote[1..])
      else if incoming < current then
        [RemoteOnly(remote[0])] + Classify(local, remote[1..])
      else
        [LocalOnly(local[0])] + Classify(local[1..], remote)
  }

  function LocalsOf(steps: seq<Step>): seq<LocalRow> {
    if |steps| == 0 then []
    else (if steps[0].RemoteOnly? then [] else [steps[0].row]) + LocalsOf(steps[1..])
  }

  function RemotesOf(steps: seq<Step>): seq<DataEntry> {
    if |steps| == 0 then []
    else (if steps[0].LocalOnly? then [] else [steps[0].entry]) + RemotesOf(steps[1..])
  }

  lemma {:induction false} LocalsOfAppend(a: seq<Step>, b: seq<Step>)
    ensures LocalsOf(a + b) == LocalsOf(a) + LocalsOf(b)
  {
    if |a| > 0 {
      assert (a + b)[1..] == a[1..] + b;
      LocalsOfAppend(a[1..], b);
    } else {
      assert a + b == b;
    }
  }

  lemma {:induction false} RemotesOfAppend(a: seq<Step>, b: seq<Step>)
    ensures RemotesOf(a + b) == RemotesOf(a) + RemotesOf(b)
  {
    if |a| > 0 {
      assert (a + b)[1..] == a[1..] + b;
      RemotesOfAppend(a[1..], b);
    } else {
      assert a + b == b;
    }
  }

  /**
   * Exactly-once classification: every local row and every remote entry is
   * taken by exactly one step, in order, so the loop makes at most
   * |local| + |remote| iterations.
   */
  lemma {:induction false} ClassifyConsumesAll(local: seq<LocalRow>, remote: seq<DataEntry>)
    requires BelowSentinel(local, remote)
    ensures LocalsOf(Classify(local, remote)) == local
    ensures RemotesOf(Classify(local, remote)) == remote
    ensures |Classify(local, remote)| <= |local| + |remote|
  {
    if |local| == 0 && |remote| == 0 {
    } else {
      var current := if |local| == 0 then LONG_MAX else local[0].serverId;
      var incoming := if |remote| == 0 then LONG_MAX else remote[0].serverId;
      assert |remote| > 0 ==> remote[0] in remote;
      if incoming == current {
        ClassifyConsumesAll(local[1..], remote[1..]);
      } else if incoming < current {
        ClassifyConsumesAll(local, remote[1..]);
      } else {
        ClassifyConsumesAll(local[1..], remote);
      }
      var steps := Classify(local, remote);
      assert steps[1..] == Classify(if incoming < current then local else local[1..],
                                    if incoming > current then remote else remote[1..]);
    }
  }

  function LocalIds(local: seq<LocalRow>): set<int> {
    set r | r in local :: r.serverId
  }

  /** Local rows come in ascending server-id order without repetitions. */
  predicate LocalAscending(local: seq<LocalRow>) {
    forall i, j | 0 <= i < j < |local| :: local[i].serverId < local[j].serverId
  }

  predicate RemoteAscending(remote: seq<DataEntry>) {
    forall i, j | 0 <= i < j < |remote| :: remote[i].serverId < remote[j].serverId
  }

  /** What a step says about its ids relative to the two sides. */
  predicate Classified(s: Step, local: seq<LocalRow>, remote: seq<DataEntry>) {
    match s
    case Match(r, e) => r in local && e in remote && r.serverId == e.serverId
    case RemoteOnly(e) => e in remote && e.serverId !in LocalIds(local)
    case LocalOnly(r) => r in local && r.serverId !in ServerIds(remote)
  }

  lemma LocalHeadLeast(local: seq<LocalRow>)
    requires LocalAscending(local) && |local| > 0
    ensures forall r | r in local[1..] :: local[0].serverId < r.serverId
    ensures forall r | r in local :: local[0].serverId <= r.serverId
  {
    forall r | r in local[1..] ensures local[0].serverId < r.serverId {
      var k :| 0 <= k < |local[1..]| && local[1..][k] == r;
      assert local[k + 1] == r;
    }
    forall r | r in local ensures local[0].serverId <= r.serverId {
      var k :| 0 <= k < |local| && local[k] == r;
    }
  }

  lemma RemoteHeadLeast(remote: seq<DataEntry>)
    requires RemoteAscending(remote) && |remote| > 0
    ensures forall e | e in remote[1..] :: remote[0].serverId < e.serverId
    ensures forall e | e in remote :: remote[0].serverId <= e.serverId
  {
    forall e | e in remote[1..] ensures remote[0].serverId < e.serverId {
      var k :| 0 <= k < |remote[1..]| && remote[1..][k] == e;
      assert remote[k + 1] == e;
    }
    forall e | e in remote ensures remote[0].serverId <= e.serverId {
      var k :| 0 <= k < |remote| && remote[k] == e;
    }
  }

  /**
   * On ascending inputs the merge classifies exactly: a match pairs equal
   * ids, a remote-only entry has no local row with its id, a local-only row
   * has no remote entry with its id.
   */
  lemma {:induction false} ClassifyPartition(local: seq<LocalRow>, remote: seq<DataEntry>)
    requires BelowSentinel(local, remote)
    requires LocalAscending(local) && RemoteAscending(remote)
    ensures forall s | s in Classify(local, remote) :: Classified(s, local, remote)
  {
    if |local| == 0 && |remote| == 0 {
    } else {
      var current := if |local| == 0 then LONG_MAX else local[0].serverId;
      var incoming := if |remote| == 0 then LONG_MAX else remote[0].serverId;
      assert |remote| > 0 ==> remote[0] in remote;
      assert |local| > 0 ==> local[0] in local;
      if |local| > 0 { LocalHeadLeast(local); }
      if |remote| > 0 { RemoteHeadLeast(remote); }
      if incoming == current {
        var l', r' := local[1..], remote[1..];
        ClassifyPartition(l', r');
        ConsClassified(local, remote, l', r', Match(local[0], remote[0]), Classify(l', r'));
      } else if incoming < current {
        var r' := remote[1..];
        ClassifyPartition(local, r');
        assert remote[0].serverId !in LocalIds(local);
        ConsClassified(local, remote, local, r', RemoteOnly(remote[0]), Classify(local, r'));
      } else {
        var l' := local[1..];
        ClassifyPartition(l', remote);
        assert local[0].serverId !in ServerIds(remote);
        ConsClassified(local, remote, l', remote, LocalOnly(local[0]), Classify(l', remote));
      }
    }
  }

  /** The head step and the steps of the remaining sides are all classified against the whole sides. */
  lemma ConsClassified(local: seq<LocalRow>, remote: seq<DataEntry>, l': seq<LocalRow>, r': seq<DataEntry>,
                       head: Step, rest: seq<Step>)
    requires LocalAscending(local) && RemoteAscending(remote)
    requires (l' == local || (|local| > 0 && l' == local[1..]))
    requires (r' == remote || (|remote| > 0 && r' == remote[1..]))
    requires l' == local ==> |remote| > 0 && r' == remote[1..] && (|local| > 0 ==> remote[0].serverId < local[0].serverId)
    requires r' == remote ==> |local| > 0 && l' == local[1..] && (|remote| > 0 ==> local[0].serverId < remote[0].serverId)
    requires l' != local && r' != remote ==> local[0].serverId == remote[0].serverId
    requires Classified(head, local, remote)
    requires forall s | s in rest :: Classified(s, l', r')
    ensures forall s | s in [head] + rest :: Classified(s, local, remote)
  {
    forall s | s in [head] + rest ensures Classified(s, local, remote) {
      if s != head {
        assert s in rest;
        SuffixClassified(s, local, remote, l', r');
      }
    }
  }

  /**
   * A step classified against the sides left after the head step is
   * classified against the whole sides: the dropped heads are smaller than
   * everything that remains on their side and at most the other side's head.
   */
  lemma SuffixClassified(s: Step, local: seq<LocalRow>, remote: seq<DataEntry>, l': seq<LocalRow>, r': seq<DataEntry>)
    requires LocalAscending(local) && RemoteAscending(remote)
    requires (l' == local || (|local| > 0 && l' == local[1..]))
    requires (r' == remote || (|remote| > 0 && r' == remote[1..]))
    requires l' == local ==> |remote| > 0 && r' == remote[1..] && (|local| > 0 ==> remote[0].serverId < local[0].serverId)
    requires r' == remote ==> |local| > 0 && l' == local[1..] && (|remote| > 0 ==> local[0].serverId < remote[0].serverId)
    requires l' != local && r' != remote ==> local[0].serverId == remote[0].serverId
    requires Classified(s, l', r')
    ensures Classified(s, local, remote)
  {
    if |local| > 0 { LocalHeadLeast(local); }
    if |remote| > 0 { RemoteHeadLeast(remote); }
    match s
    case Match(r, e) =>
      assert r in local && e in remote;
    case RemoteOnly(e) =>
      assert e in remote;
      if l' != local {
        assert e in r';
        assert e.serverId != local[0].serverId;
        assert LocalIds(local) == LocalIds(l') + {local[0].serverId} by {
          assert local == [local[0]] + l';
        }
      }
    case LocalOnly(r) =>
      assert r in local;
      if r' != remote {
        assert r in l';
        assert r.serverId != remote[0].serverId;
        assert ServerIds(remote) == ServerIds(r') + {remote[0].serverId} by {
          assert remote == [remote[0]] + r';
        }
      }
  }

  /**
   * Completeness of the match: on ascending inputs a remote entry is matched
   * iff a local row carries its id, and a local row is matched iff a remote
   * entry carries its id.
   */
  lemma MatchedIffShared(local: seq<LocalRow>, remote: seq<DataEntry>)
    requires BelowSentinel(local, remote)
    requires LocalAscending(local) && RemoteAscending(remote)
    ensures forall e | e in remote ::
      (exists r :: Match(r, e) in Classify(local, remote)) <==> e.serverId in LocalIds(local)
    ensures forall r | r in local ::
      (exists e :: Match(r, e) in Classify(local, remote)) <==> r.serverId in ServerIds(remote)
  {
    var steps := Classify(local, remote);
    ClassifyConsumesAll(local, remote);
    ClassifyPartition(local, remote);
    forall e | e in remote
      ensures (exists r :: Match(r, e) in steps) <==> e.serverId in LocalIds(local)
    {
      var k := InRemotesOf(steps, e);
      if e.serverId in LocalIds(local) {
        assert Classified(steps[k], local, remote);
        assert Match(steps[k].row, e) in steps;
      }
    }
    forall r | r in local
      ensures (exists e :: Match(r, e) in steps) <==> r.serverId in ServerIds(remote)
    {
      var k := InLocalsOf(steps, r);
      if r.serverId in ServerIds(remote) {
        assert Classified(steps[k], local, remote);
        assert Match(r, steps[k].entry) in steps;
      }
    }
  }

  lemma {:induction false} InRemotesOf(steps: seq<Step>, e: DataEntry) returns (k: nat)
    requires e in RemotesOf(steps)
    ensures k < |steps| && !steps[k].LocalOnly? && steps[k].entry == e
  {
    if !steps[0].LocalOnly? && steps[0].entry == e {
      k := 0;
    } else {
      var k' := InRemotesOf(steps[1..], e);
      k := k' + 1;
    }
  }

  lemma {:induction false} InLocalsOf(steps: seq<Step>, r: LocalRow) returns (k: nat)
    requires r in LocalsOf(steps)
    ensures k < |steps| && !steps[k].RemoteOnly? && steps[k].row == r
  {
    if !steps[0].RemoteOnly? && steps[0].row == r {
      k := 0;
    } else {
      var k' := InLocalsOf(steps[1..], r);
      k := k' + 1;
    }
  }

  // ---------------------------------------------------------------------
  // The effects of a pass

  /** The configuration a processor is created with. */
  datatype Settings = Settings(
    mainTable: string,
    changeIdOf: string -> string,       // `provider.getChangeIdColumn`
    creationDateColumn: Option<string>, // `provider.getCreationDateColumn` of the selection's table
    listener: Option<UpdateListener>)

  /** What one pass reads from the store: the pending REMOVE signatures, the start time, and the insert oracle. */
  datatype PassContext = PassContext(pending: set<string>, startTime: int, insert: (string, Row) -> InsertOutcome)

  function NotifyEffects(s: Settings, action: int, table: string, serverId: int): seq<Event> {
    if s.listener.Some? && IsInterested(s.listener.value, action, table, serverId) then [Notified(action, table, serverId)] else []
  }

  /** A local-only row may be deleted: no creation-date column, or created strictly before the pass started. */
  predicate Deletable(s: Settings, p: PassContext, row: LocalRow) {
    IsEmpty(s.creationDateColumn) || row.created < p.startTime
  }

  /** An incoming entry: inserted-or-updated unless a journal REMOVE blocks it. */
  function EntryEffects(s: Settings, p: PassContext, table: string, e: DataEntry): seq<Event> {
    if Signature(table, e.serverId) in p.pending then []
    else InsertOrUpdateEffects(table, e.values, s.changeIdOf(table), e.serverId, p.insert(table, e.values))
  }

  function StepEffects(s: Settings, p: PassContext, table: string, step: Step): seq<Event> {
    match step
    case Match(row, e) => [Update(table, e.values, "_id = ?", [IntToString(row.rowId)])]
    case RemoteOnly(e) => EntryEffects(s, p, table, e)
    case LocalOnly(row) =>
      if Deletable(s, p, row) then
        NotifyEffects(s, Changes.ACTION_REMOVE, table, row.serverId) + [Delete(table, "_id = ?", [IntToString(row.rowId)])]
      else []
  }

  /** The events of each element, concatenated in order. */
  function Flatten<T>(f: T -> seq<Event>, xs: seq<T>): seq<Event> {
    if |xs| == 0 then [] else Flatten(f, xs[..|xs| - 1]) + f(xs[|xs| - 1])
  }

  lemma {:induction false} FlattenAppend<T>(f: T -> seq<Event>, a: seq<T>, b: seq<T>)
    ensures Flatten(f, a + b) == Flatten(f, a) + Flatten(f, b)
    decreases |b|
  {
    if |b| == 0 {
      assert a + b == a;
    } else {
      assert (a + b)[..|a + b| - 1] == a + b[..|b| - 1];
      FlattenAppend(f, a, b[..|b| - 1]);
    }
  }

  lemma {:induction false} FlattenSnoc<T>(f: T -> seq<Event>, xs: seq<T>, x: T)
    ensures Flatten(f, xs + [x]) == Flatten(f, xs) + f(x)
  {
    assert (xs + [x])[..|xs|] == xs;
  }

  /** Bookkeeping of one merge iteration: the step moves from the pending steps to the done ones. */
  lemma MergeAdvance(f: Step -> seq<Event>, log0: seq<Event>, before: seq<Event>, after: seq<Event>,
                     steps: seq<Step>, done: seq<Step>, step: Step, next: seq<Step>)
    requires steps == done + ([step] + next)
    requires before == log0 + Flatten(f, done)
    requires after == before + f(step)
    ensures steps == (done + [step]) + next
    ensures after == log0 + Flatten(f, done + [step])
    ensures |RemotesOf(done + [step])| == |RemotesOf(done)| + if step.LocalOnly? then 0 else 1
  {
    FlattenSnoc(f, done, step);
    RemotesOfAppend(done, [step]);
    assert [step][1..] == [];
  }

  /** Bookkeeping of one bucket of the pass. */
  lemma PassAdvance(g: string -> seq<Event>, sorted: seq<string>, k: nat, log0: seq<Event>,
                    before: seq<Event>, after: seq<Event>, full: seq<Event>)
    requires k < |sorted| && full == Flatten(g, sorted)
    requires before == log0 + Flatten(g, sorted[..k])
    requires before <= after && after[|before|..] <= g(sorted[k])
    ensures log0 <= after && after[|log0|..] <= full
    ensures after == before + g(sorted[k]) ==> after == log0 + Flatten(g, sorted[..k + 1])
  {
    FlattenPrefix(g, sorted, k);
    PrefixGrow(log0, Flatten(g, sorted[..k]), g(sorted[k]), before, after, full);
  }

  /** The events of the first k + 1 elements start the events of all of them. */
  lemma {:induction false} FlattenPrefix<T>(f: T -> seq<Event>, xs: seq<T>, k: nat)
    requires k < |xs|
    ensures Flatten(f, xs[..k + 1]) == Flatten(f, xs[..k]) + f(xs[k])
    ensures Flatten(f, xs[..k]) + f(xs[k]) <= Flatten(f, xs)
  {
    assert xs[..k + 1] == xs[..k] + [xs[k]];
    FlattenSnoc(f, xs[..k], xs[k]);
    FlattenAppend(f, xs[..k + 1], xs[k + 1..]);
    assert xs[..k + 1] + xs[k + 1..] == xs;
  }

  /** A log holding the events of the first k elements holds a prefix of all their events, and all of them when k is the end. */
  lemma EventsPrefix<T>(f: T -> seq<Event>, xs: seq<T>, k: nat, log0: seq<Event>, log: seq<Event>)
    requires k <= |xs| && log == log0 + Flatten(f, xs[..k])
    ensures log0 <= log && log[|log0|..] <= Flatten(f, xs)
    ensures k == |xs| ==> log == log0 + Flatten(f, xs)
  {
    FlattenTake(f, xs, k);
    DropPrefix(log0, Flatten(f, xs[..k]));
    if k == |xs| {
      assert xs[..k] == xs;
    }
  }

  /** Bookkeeping of one element: its events extend the log. */
  lemma EventsStep<T>(f: T -> seq<Event>, xs: seq<T>, k: nat, log0: seq<Event>, before: seq<Event>, after: seq<Event>)
    requires k < |xs| && before == log0 + Flatten(f, xs[..k]) && after == before + f(xs[k])
    ensures after == log0 + Flatten(f, xs[..k + 1])
  {
    FlattenPrefix(f, xs, k);
    AppendAssoc(log0, Flatten(f, xs[..k]), f(xs[k]));
  }

  /** The events of a prefix of the elements are a prefix of the events. */
  lemma {:induction false} FlattenTake<T>(f: T -> seq<Event>, xs: seq<T>, k: nat)
    requires k <= |xs|
    ensures Flatten(f, xs[..k]) <= Flatten(f, xs)
  {
    FlattenAppend(f, xs[..k], xs[k..]);
    assert xs[..k] + xs[k..] == xs;
  }

  /**
   * The pass after k buckets: what was written is a prefix of the whole
   * pass, and unless a cancel was seen it is exactly the first k buckets'
   * events, with the main bucket's entries counted once it is among them.
   */
  ghost predicate PassProgress(g: string -> seq<Event>, sorted: seq<string>, k: nat, log0: seq<Event>, log: seq<Event>,
                               ops0: int, ops: int, main: string, mainSize: nat, stopped: bool)
    requires k <= |sorted|
  {
    && log0 <= log && log[|log0|..] <= Flatten(g, sorted)
    && (!stopped ==> log == log0 + Flatten(g, sorted[..k]) && ops == ops0 + (if main in sorted[..k] then mainSize else 0))
  }

  /** One bucket of the pass keeps the progress. */
  lemma PassProgressStep(g: string -> seq<Event>, sorted: seq<string>, k: nat, log0: seq<Event>,
                         before: seq<Event>, after: seq<Event>, ops0: int, opsBefore: int, opsAfter: int,
                         main: string, mainSize: nat, stopped: bool)
    requires k < |sorted| && Distinct(sorted)
    requires PassProgress(g, sorted, k, log0, before, ops0, opsBefore, main, mainSize, false)
    requires before <= after && after[|before|..] <= g(sorted[k])
    requires !stopped ==> after == before + g(sorted[k]) && opsAfter == opsBefore + (if sorted[k] == main then mainSize else 0)
    ensures PassProgress(g, sorted, k + 1, log0, after, ops0, opsAfter, main, mainSize, stopped)
  {
    PassAdvance(g, sorted, k, log0, before, after, Flatten(g, sorted));
    MainCount(sorted, k, main);
  }

  /** The progress at the end of the loop: all buckets, or a cancel seen. */
  lemma PassDone(g: string -> seq<Event>, sorted: seq<string>, k: nat, log0: seq<Event>, log: seq<Event>,
                 ops0: int, ops: int, main: string, mainSize: nat, stopped: bool)
    requires k <= |sorted| && (k == |sorted| || stopped)
    requires PassProgress(g, sorted, k, log0, log, ops0, ops, main, mainSize, stopped)
    ensures log0 <= log && log[|log0|..] <= Flatten(g, sorted)
    ensures !stopped ==> log == log0 + Flatten(g, sorted) && ops == ops0 + (if main in sorted then mainSize else 0)
  {
    if !stopped {
      assert sorted[..k] == sorted;
    }
  }

  /** Whether the main table is among the first k + 1 buckets, for a distinct order. */
  lemma MainCount(sorted: seq<string>, k: nat, main: string)
    requires k < |sorted| && Distinct(sorted)
    ensures main in sorted[..k + 1] <==> main in sorted[..k] || sorted[k] == main
    ensures sorted[k] == main ==> main !in sorted[..k]
  {
    assert sorted[..k + 1] == sorted[..k] + [sorted[k]];
    if sorted[k] == main {
      forall i | 0 <= i < k ensures sorted[..k][i] != main {
        assert sorted[i] != sorted[k];
      }
    }
  }

  /** A log that grew by a prefix of the next chunk is still a prefix of the whole. */
  lemma PrefixGrow(log0: seq<Event>, a: seq<Event>, b: seq<Event>, before: seq<Event>, after: seq<Event>, full: seq<Event>)
    requires before == log0 + a && a + b <= full
    requires before <= after && after[|before|..] <= b
    ensures log0 <= after && after[|log0|..] <= full
  {
    var part := after[|before|..];
    assert after == before + part;
    assert after[|log0|..] == a + part;
    PrefixExtend(a, part, b, full);
  }

  lemma {:induction false} FlattenMember<T>(f: T -> seq<Event>, xs: seq<T>, x: Event) returns (k: nat)
    requires x in Flatten(f, xs)
    ensures k < |xs| && x in f(xs[k])
  {
    if x in f(xs[|xs| - 1]) {
      k := |xs| - 1;
    } else {
      k := FlattenMember(f, xs[..|xs| - 1], x);
    }
  }

  function StepFn(s: Settings, p: PassContext, table: string): Step -> seq<Event> {
    step => StepEffects(s, p, table, step)
  }

  function EntryFn(s: Settings, p: PassContext, table: string): DataEntry -> seq<Event> {
    e => EntryEffects(s, p, table, e)
  }

  /** The events of one bucket: the merge-join for the main table, inserts only for the others. */
  function BucketEffects(s: Settings, p: PassContext, local: seq<LocalRow>, table: string, bucket: seq<DataEntry>): seq<Event>
    requires table == s.mainTable ==> BelowSentinel(local, bucket)
  {
    if table == s.mainTable then Flatten(StepFn(s, p, table), Classify(local, bucket))
    else Flatten(EntryFn(s, p, table), bucket)
  }

  predicate Applicable(s: Settings, local: seq<LocalRow>, buckets: map<string, seq<DataEntry>>) {
    s.mainTable in buckets ==> BelowSentinel(local, buckets[s.mainTable])
  }

  function BucketFn(s: Settings, p: PassContext, local: seq<LocalRow>, buckets: map<string, seq<DataEntry>>): string -> seq<Event>
    requires Applicable(s, local, buckets)
  {
    t => if t in buckets then BucketEffects(s, p, local, t, buckets[t]) else []
  }

  /** Every event of a complete pass over the buckets in the given order. */
  function PassEffects(s: Settings, p: PassContext, local: seq<LocalRow>, keys: seq<string>, buckets: map<string, seq<DataEntry>>): seq<Event>
    requires Applicable(s, local, buckets)
  {
    Flatten(BucketFn(s, p, local, buckets), keys)
  }

  // ---------------------------------------------------------------------
  // Ordering the buckets by depth (`Collections.sort`, a stable sort)

  /** The depth recorded for a table; 0 stands for the missing entry that a single bucket never reads. */
  function Depth(d: map<string, int>, t: string): int {
    if t in d then d[t] else 0
  }

  /** One iteration of the merge loop at positions `i` and `j`. */
  lemma ClassifyUnfold(local: seq<LocalRow>, remote: seq<DataEntry>, i: nat, j: nat)
    requires BelowSentinel(local, remote) && i <= |local| && j <= |remote| && (i < |local| || j < |remote|)
    ensures BelowSentinel(local[i..], remote[j..])
    ensures var current := if i < |local| then local[i].serverId else LONG_MAX;
      var incoming := if j < |remote| then remote[j].serverId else LONG_MAX;
      && (incoming == current ==>
            (i < |local| && j < |remote| &&
             Classify(local[i..], remote[j..]) == [Match(local[i], remote[j])] + Classify(local[i + 1..], remote[j + 1..])))
      && (incoming < current ==>
            (j < |remote| &&
             Classify(local[i..], remote[j..]) == [RemoteOnly(remote[j])] + Classify(local[i..], remote[j + 1..])))
      && (incoming > current ==>
            (i < |local| &&
             Classify(local[i..], remote[j..]) == [LocalOnly(local[i])] + Classify(local[i + 1..], remote[j..])))
  {
    assert j < |remote| ==> remote[j] in remote;
    assert i < |local| ==> local[i] in local;
    var l, r := local[i..], remote[j..];
    assert |l| > 0 ==> l[0] == local[i] && l[1..] == local[i + 1..];
    assert |r| > 0 ==> r[0] == remote[j] && r[1..] == remote[j + 1..];
  }

  /** Places `k` after every key of depth at most its own. */
  function InsertByDepth(k: string, sorted: seq<string>, d: map<string, int>): seq<string> {
    if |sorted| == 0 then [k]
    else if Depth(d, k) < Depth(d, sorted[0]) then [k] + sorted
    else [sorted[0]] + InsertByDepth(k, sorted[1..], d)
  }

  function SortByDepth(keys: seq<string>, d: map<string, int>): seq<string> {
    if |keys| == 0 then [] else InsertByDepth(keys[|keys| - 1], SortByDepth(keys[..|keys| - 1], d), d)
  }

  predicate DepthSorted(xs: seq<string>, d: map<string, int>) {
    forall i, j | 0 <= i < j < |xs| :: Depth(d, xs[i]) <= Depth(d, xs[j])
  }

  /** The keys of depth `v`, in order. */
  function WithDepth(xs: seq<string>, d: map<string, int>, v: int): seq<string> {
    if |xs| == 0 then [] else (if Depth(d, xs[0]) == v then [xs[0]] else []) + WithDepth(xs[1..], d, v)
  }

  lemma {:induction false} WithDepthAbove(xs: seq<string>, d: map<string, int>, v: int)
    requires forall x | x in xs :: Depth(d, x) > v
    ensures WithDepth(xs, d, v) == []
  {
    if |xs| > 0 {
      assert xs[0] in xs;
      WithDepthAbove(xs[1..], d, v);
    }
  }

  lemma {:induction false} WithDepthSnoc(xs: seq<string>, x: string, d: map<string, int>, v: int)
    ensures WithDepth(xs + [x], d, v) == WithDepth(xs, d, v) + (if Depth(d, x) == v then [x] else [])
  {
    if |xs| == 0 {
      assert xs + [x] == [x];
    } else {
      assert (xs + [x])[1..] == xs[1..] + [x];
      WithDepthSnoc(xs[1..], x, d, v);
    }
  }

  lemma {:induction false} InsertByDepthElements(k: string, sorted: seq<string>, d: map<string, int>)
    ensures multiset(InsertByDepth(k, sorted, d)) == multiset(sorted) + multiset{k}
  {
    if |sorted| > 0 && Depth(d, k) >= Depth(d, sorted[0]) {
      InsertByDepthElements(k, sorted[1..], d);
      assert sorted == [sorted[0]] + sorted[1..];
    }
  }

  /** A key no deeper than every key of a sorted sequence can go in front of it. */
  lemma ConsSorted(a: string, rest: seq<string>, d: map<string, int>)
    requires DepthSorted(rest, d) && forall i | 0 <= i < |rest| :: Depth(d, a) <= Depth(d, rest[i])
    ensures DepthSorted([a] + rest, d)
  {
    var r := [a] + rest;
    forall i, j | 0 <= i < j < |r| ensures Depth(d, r[i]) <= Depth(d, r[j]) {
      assert r[j] == rest[j - 1];
      if i > 0 { assert r[i] == rest[i - 1]; }
    }
  }

  lemma TailSorted(xs: seq<string>, d: map<string, int>)
    requires |xs| > 0 && DepthSorted(xs, d)
    ensures DepthSorted(xs[1..], d)
    ensures forall i | 0 <= i < |xs[1..]| :: Depth(d, xs[0]) <= Depth(d, xs[1..][i])
  {
    forall i | 0 <= i < |xs[1..]| ensures Depth(d, xs[0]) <= Depth(d, xs[1..][i]) {
      assert xs[1..][i] == xs[i + 1];
    }
  }

  /** Inserting keeps a lower bound on the depths. */
  lemma {:induction false} InsertByDepthLower(k: string, sorted: seq<string>, d: map<string, int>, b: int)
    requires b <= Depth(d, k) && forall i | 0 <= i < |sorted| :: b <= Depth(d, sorted[i])
    ensures forall i | 0 <= i < |InsertByDepth(k, sorted, d)| :: b <= Depth(d, InsertByDepth(k, sorted, d)[i])
  {
    var r := InsertByDepth(k, sorted, d);
    if |sorted| > 0 && Depth(d, k) >= Depth(d, sorted[0]) {
      var rest := InsertByDepth(k, sorted[1..], d);
      forall i | 0 <= i < |sorted[1..]| ensures b <= Depth(d, sorted[1..][i]) {
        assert sorted[1..][i] == sorted[i + 1];
      }
      InsertByDepthLower(k, sorted[1..], d, b);
      assert r == [sorted[0]] + rest;
      forall i | 0 <= i < |r| ensures b <= Depth(d, r[i]) {
        if i > 0 { assert r[i] == rest[i - 1]; }
      }
    }
  }

  lemma {:induction false} InsertByDepthSorted(k: string, sorted: seq<string>, d: map<string, int>)
    requires DepthSorted(sorted, d)
    ensures DepthSorted(InsertByDepth(k, sorted, d), d)
  {
    if |sorted| > 0 {
      TailSorted(sorted, d);
      if Depth(d, k) < Depth(d, sorted[0]) {
        forall i | 0 <= i < |sorted| ensures Depth(d, k) <= Depth(d, sorted[i]) {
          if i > 0 { assert sorted[1..][i - 1] == sorted[i]; }
        }
        ConsSorted(k, sorted, d);
      } else {
        InsertByDepthSorted(k, sorted[1..], d);
        InsertByDepthLower(k, sorted[1..], d, Depth(d, sorted[0]));
        ConsSorted(sorted[0], InsertByDepth(k, sorted[1..], d), d);
      }
    }
  }

  lemma WithDepthCons(x: string, xs: seq<string>, d: map<string, int>, v: int)
    ensures WithDepth([x] + xs, d, v) == (if Depth(d, x) == v then [x] else []) + WithDepth(xs, d, v)
  {
    assert ([x] + xs)[1..] == xs;
  }

  lemma {:induction false} InsertByDepthStable(k: string, sorted: seq<string>, d: map<string, int>, v: int)
    requires DepthSorted(sorted, d)
    ensures WithDepth(InsertByDepth(k, sorted, d), d, v) == WithDepth(sorted, d, v) + (if Depth(d, k) == v then [k] else [])
  {
    var mine := if Depth(d, k) == v then [k] else [];
    if |sorted| == 0 {
      WithDepthCons(k, [], d, v);
    } else {
      TailSorted(sorted, d);
      var x := sorted[0];
      assert WithDepth(sorted, d, v) == (if Depth(d, x) == v then [x] else []) + WithDepth(sorted[1..], d, v);
      if Depth(d, k) < Depth(d, x) {
        assert InsertByDepth(k, sorted, d) == [k] + sorted;
        WithDepthCons(k, sorted, d, v);
        if Depth(d, k) == v {
          forall y | y in sorted ensures Depth(d, y) > v {
            var j :| 0 <= j < |sorted| && sorted[j] == y;
            if j > 0 { assert sorted[1..][j - 1] == y; }
          }
          WithDepthAbove(sorted, d, v);
        }
      } else {
        var rest := InsertByDepth(k, sorted[1..], d);
        InsertByDepthStable(k, sorted[1..], d, v);
        assert InsertByDepth(k, sorted, d) == [x] + rest;
        WithDepthCons(x, rest, d, v);
        AppendAssoc(if Depth(d, x) == v then [x] else [], WithDepth(sorted[1..], d, v), mine);
      }
    }
  }

  /**
   * `Collections.sort` with the depth comparator: the result is a
   * permutation of the keys, non-decreasing in depth, and keys of equal
   * depth keep their original relative order (stability).
   */
  lemma {:induction false} SortByDepthProps(keys: seq<string>, d: map<string, int>)
    ensures multiset(SortByDepth(keys, d)) == multiset(keys)
    ensures DepthSorted(SortByDepth(keys, d), d)
    ensures forall v :: WithDepth(SortByDepth(keys, d), d, v) == WithDepth(keys, d, v)
  {
    if |keys| > 0 {
      var init, last := keys[..|keys| - 1], keys[|keys| - 1];
      var sortedInit := SortByDepth(init, d);
      SortByDepthProps(init, d);
      InsertByDepthElements(last, sortedInit, d);
      InsertByDepthSorted(last, sortedInit, d);
      assert keys == init + [last];
      forall v ensures WithDepth(SortByDepth(keys, d), d, v) == WithDepth(keys, d, v) {
        InsertByDepthStable(last, sortedInit, d, v);
        WithDepthSnoc(init, last, d, v);
      }
    }
  }

  // ---------------------------------------------------------------------
  // Pending deletes

  /** A row of the journal, as far as the pending-deletes query reads it. */
  datatype JournalRow = JournalRow(action: int, table: string, objId: Long)

  /** The signatures of the journal's REMOVE rows. */
  function PendingSignatures(journal: seq<JournalRow>): set<string> {
    if |journal| == 0 then {}
    else
      var last := journal[|journal| - 1];
      PendingSignatures(journal[..|journal| - 1])
      + if last.action == Changes.ACTION_REMOVE then {Signature(last.table, last.objId)} else {}
  }

  /** Every pending signature comes from a REMOVE row. */
  lemma {:induction false} PendingSignaturesSound(journal: seq<JournalRow>, sig: string) returns (i: nat)
    requires sig in PendingSignatures(journal)
    ensures i < |journal| && journal[i].action == Changes.ACTION_REMOVE && sig == Signature(journal[i].table, journal[i].objId)
  {
    var init := journal[..|journal| - 1];
    if sig in PendingSignatures(init) {
      i := PendingSignaturesSound(init, sig);
      assert journal[i] == init[i];
    } else {
      i := |journal| - 1;
    }
  }

  /** Every REMOVE row contributes its signature. */
  lemma {:induction false} PendingSignaturesComplete(journal: seq<JournalRow>, i: nat)
    requires i < |journal| && journal[i].action == Changes.ACTION_REMOVE
    ensures Signature(journal[i].table, journal[i].objId) in PendingSignatures(journal)
  {
    var init := journal[..|journal| - 1];
    if i < |init| {
      PendingSignaturesComplete(init, i);
      assert init[i] == journal[i];
    }
  }

  lemma PendingSignaturesMembers(journal: seq<JournalRow>, sig: string)
    ensures sig in PendingSignatures(journal) <==>
      exists i | 0 <= i < |journal| :: journal[i].action == Changes.ACTION_REMOVE && sig == Signature(journal[i].table, journal[i].objId)
  {
    if sig in PendingSignatures(journal) {
      var i := PendingSignaturesSound(journal, sig);
    }
    if exists i | 0 <= i < |journal| :: journal[i].action == Changes.ACTION_REMOVE && sig == Signature(journal[i].table, journal[i].objId) {
      var i :| 0 <= i < |journal| && journal[i].action == Changes.ACTION_REMOVE && sig == Signature(journal[i].table, journal[i].objId);
      PendingSignaturesComplete(journal, i);
    }
  }

  /** Bucket entries are parentless and carry their server id in the change-id column, as `getAsLong` reads it. */
  predicate Keyed(column: string, b: seq<DataEntry>) {
    forall e | e in b :: e.parentId == 0 && GetAsLong(e.values, column) == Some(e.serverId)
  }

  /** The cancel flag as a concurrent `cancel()` makes it visible: from poll `cancelAt` on. */
  predicate Observed(cancelAt: Option<nat>, k: nat) {
    cancelAt.Some? && cancelAt.value <= k
  }

  predicate Distinct(xs: seq<string>) {
    forall i, j | 0 <= i < j < |xs| :: xs[i] != xs[j]
  }

  lemma DistinctByMultiset(a: seq<string>, b: seq<string>)
    requires multiset(a) == multiset(b) && Distinct(b)
    ensures Distinct(a)
  {
    forall i, j | 0 <= i < j < |a| ensures a[i] != a[j] {
      if a[i] == a[j] {
        MultipleOccurrences(a, i, j);
        AtMostOnce(b, a[i]);
        assert false;
      }
    }
  }

  lemma MultipleOccurrences(a: seq<string>, i: nat, j: nat)
    requires i < j < |a| && a[i] == a[j]
    ensures multiset(a)[a[i]] >= 2
  {
    assert a == a[..j] + a[j..];
    assert a[i] in a[..j];
    assert a[j] in a[j..];
  }

  lemma {:induction false} AtMostOnce(b: seq<string>, x: string)
    requires Distinct(b)
    ensures multiset(b)[x] <= 1
  {
    if |b| > 0 {
      assert b == [b[0]] + b[1..];
      AtMostOnce(b[1..], x);
      if b[0] == x {
        assert x !in b[1..];
      }
    }
  }

  /**
   * The processor's bookkeeping: the tables in first-bucket order, each
   * once; a depth only for tables with a bucket; the affected tables among
   * the tables with a bucket; every bucket ascending and keyed by its change
   * id.
   */
  ghost predicate Grouped(order: seq<string>, buckets: map<string, seq<DataEntry>>, depth: map<string, int>,
                          affected: set<string>, changeIdOf: string -> string) {
    && Distinct(order)
    && (forall t :: t in order <==> t in buckets)
    && depth.Keys <= buckets.Keys
    && affected <= buckets.Keys
    && (forall t | t in buckets :: Ascending(buckets[t]) && Keyed(changeIdOf(t), buckets[t]))
  }

  /**
   * Giving a table a new well-formed bucket keeps the bookkeeping, a new
   * table going last and taking its depth, whether or not the table becomes
   * affected.
   */
  lemma GroupedPut(order: seq<string>, buckets: map<string, seq<DataEntry>>, depth: map<string, int>,
                   affected: set<string>, changeIdOf: string -> string, table: string, d: int, b: seq<DataEntry>,
                   affected': set<string>)
    requires Grouped(order, buckets, depth, affected, changeIdOf)
    requires Ascending(b) && Keyed(changeIdOf(table), b)
    requires affected <= affected' <= affected + {table}
    ensures Grouped(if table in buckets then order else order + [table], buckets[table := b],
                    if table in buckets then depth else depth[table := d], affected', changeIdOf)
  {
    if table !in buckets {
      assert table !in order;
    }
  }

  lemma AddKeyed(column: string, b: seq<DataEntry>, e: DataEntry)
    requires Ascending(b) && Keyed(column, b)
    requires e.parentId == 0 && GetAsLong(e.values, column) == Some(e.serverId)
    ensures Keyed(column, Add(b, e))
  {
  }

  lemma BucketsUpdate(buckets: map<string, seq<DataEntry>>, table: string, b: seq<DataEntry>, changeIdOf: string -> string)
    requires forall t | t in buckets :: Ascending(buckets[t]) && Keyed(changeIdOf(t), buckets[t])
    requires Ascending(b) && Keyed(changeIdOf(table), b)
    ensures var m := buckets[table := b];
      forall t | t in m :: Ascending(m[t]) && Keyed(changeIdOf(t), m[t])
  {
  }

  lemma PrefixExtend(x: seq<Event>, a: seq<Event>, b: seq<Event>, c: seq<Event>)
    requires a <= b && x + b <= c
    ensures x + a <= c
  {
    assert (x + a) == (x + b)[..|x + a|];
  }

  // ---------------------------------------------------------------------
  // What a pass writes

  /** The events of the element at k, with what comes before and after it. */
  lemma {:induction false} FlattenAt<T>(f: T -> seq<Event>, xs: seq<T>, k: nat)
    requires k < |xs|
    ensures Flatten(f, xs) == Flatten(f, xs[..k]) + f(xs[k]) + Flatten(f, xs[k + 1..])
  {
    FlattenPrefix(f, xs, k);
    FlattenAppend(f, xs[..k + 1], xs[k + 1..]);
    assert xs[..k + 1] + xs[k + 1..] == xs;
  }

  lemma {:induction false} StepInRemotes(steps: seq<Step>, k: nat)
    requires k < |steps| && !steps[k].LocalOnly?
    ensures steps[k].entry in RemotesOf(steps)
  {
    if k > 0 {
      StepInRemotes(steps[1..], k - 1);
    }
  }

  lemma {:induction false} StepInLocals(steps: seq<Step>, k: nat)
    requires k < |steps| && !steps[k].RemoteOnly?
    ensures steps[k].row in LocalsOf(steps)
  {
    if k > 0 {
      StepInLocals(steps[1..], k - 1);
    }
  }

  /** A bucket of parentless entries that is ascending by `compareTo` is strictly ascending by server id. */
  lemma KeyedAscending(column: string, b: seq<DataEntry>)
    requires Ascending(b) && Keyed(column, b)
    ensures RemoteAscending(b)
    ensures forall e1, e2 | e1 in b && e2 in b && e1.serverId == e2.serverId :: e1 == e2
  {
    forall i, j | 0 <= i < j < |b| ensures b[i].serverId < b[j].serverId {
      assert b[i] in b && b[j] in b;
    }
    forall e1, e2 | e1 in b && e2 in b && e1.serverId == e2.serverId ensures e1 == e2 {
      var i :| 0 <= i < |b| && b[i] == e1;
      var j :| 0 <= j < |b| && b[j] == e2;
      assert !(i < j) && !(j < i);
    }
  }

  /** An event that writes remote values: the insert of `insertOrUpdate`, or its update after a conflict. */
  predicate WritesRemote(x: Event, table: string, values: Row) {
    x == InsertIgnore(table, values) || (x.Update? && x.table == table && x.values == values && x.args == [])
  }

  /** Each event of a pass belongs to the bucket of one of the keys. */
  lemma PassMember(s: Settings, p: PassContext, local: seq<LocalRow>, keys: seq<string>,
                   buckets: map<string, seq<DataEntry>>, x: Event) returns (k: nat)
    requires Applicable(s, local, buckets)
    requires x in PassEffects(s, p, local, keys, buckets)
    ensures k < |keys| && keys[k] in buckets
    ensures keys[k] == s.mainTable ==> BelowSentinel(local, buckets[keys[k]])
    ensures x in BucketEffects(s, p, local, keys[k], buckets[keys[k]])
  {
    var g := BucketFn(s, p, local, buckets);
    k := FlattenMember(g, keys, x);
  }

  /** Each event of a non-main bucket belongs to the effects of one of its entries. */
  lemma EntryMember(s: Settings, p: PassContext, table: string, bucket: seq<DataEntry>, x: Event) returns (e: DataEntry)
    requires x in Flatten(EntryFn(s, p, table), bucket)
    ensures e in bucket && x in EntryEffects(s, p, table, e)
  {
    var j := FlattenMember(EntryFn(s, p, table), bucket, x);
    e := bucket[j];
  }

  /**
   * Every remote write of a pass comes from an entry of that table's bucket
   * whose signature is not pending in the journal.
   */
  lemma PassWriteOrigin(s: Settings, p: PassContext, local: seq<LocalRow>, keys: seq<string>,
                        buckets: map<string, seq<DataEntry>>, x: Event, t: string, v: Row) returns (e: DataEntry)
    requires Applicable(s, local, buckets)
    requires x in PassEffects(s, p, local, keys, buckets) && WritesRemote(x, t, v)
    ensures t in keys && t in buckets && e in buckets[t]
    ensures e.values == v && Signature(t, e.serverId) !in p.pending
  {
    var k := PassMember(s, p, local, keys, buckets, x);
    var table := keys[k];
    var bucket := buckets[table];
    if table == s.mainTable {
      e := MainWriteOrigin(s, p, local, table, bucket, x, t, v);
    } else {
      e := EntryMember(s, p, table, bucket, x);
    }
  }

  lemma MainWriteOrigin(s: Settings, p: PassContext, local: seq<LocalRow>, table: string, bucket: seq<DataEntry>,
                        x: Event, t: string, v: Row) returns (e: DataEntry)
    requires BelowSentinel(local, bucket)
    requires x in Flatten(StepFn(s, p, table), Classify(local, bucket)) && WritesRemote(x, t, v)
    ensures t == table && e in bucket && e.values == v && Signature(t, e.serverId) !in p.pending
  {
    var steps := Classify(local, bucket);
    var j := FlattenMember(StepFn(s, p, table), steps, x);
    StepWriteOrigin(s, p, table, steps[j], x, t, v);
    ClassifyConsumesAll(local, bucket);
    StepInRemotes(steps, j);
    e := steps[j].entry;
  }

  /** Only an incoming entry without a match writes a remote row. */
  lemma StepWriteOrigin(s: Settings, p: PassContext, table: string, step: Step, x: Event, t: string, v: Row)
    requires x in StepEffects(s, p, table, step) && WritesRemote(x, t, v)
    ensures step.RemoteOnly? && t == table && step.entry.values == v && Signature(t, step.entry.serverId) !in p.pending
  {
  }

  /**
   * No resurrection: a pass never writes an incoming row back while the
   * journal holds a REMOVE of that row's id in that table.
   */
  lemma JournalBlocksResurrection(s: Settings, journal: seq<JournalRow>, startTime: int,
                                  insert: (string, Row) -> InsertOutcome, local: seq<LocalRow>, keys: seq<string>,
                                  buckets: map<string, seq<DataEntry>>, x: Event, t: string, v: Row)
    requires Applicable(s, local, buckets)
    requires forall b | b in buckets :: Keyed(s.changeIdOf(b), buckets[b])
    requires x in PassEffects(s, PassContext(PendingSignatures(journal), startTime, insert), local, keys, buckets)
    requires WritesRemote(x, t, v)
    ensures GetAsLong(v, s.changeIdOf(t)).Some?
    ensures forall r | r in journal && r.action == Changes.ACTION_REMOVE && r.table == t ::
      GetAsLong(v, s.changeIdOf(t)).value != r.objId
  {
    var p := PassContext(PendingSignatures(journal), startTime, insert);
    var e := PassWriteOrigin(s, p, local, keys, buckets, x, t, v);
    forall r | r in journal && r.action == Changes.ACTION_REMOVE && r.table == t
      ensures GetAsLong(v, s.changeIdOf(t)).value != r.objId
    {
      var i :| 0 <= i < |journal| && journal[i] == r;
      PendingSignaturesMembers(journal, Signature(r.table, r.objId));
    }
  }

  /**
   * Deletes are sound: every delete of a pass is of the main table, by row
   * id, of a local row that may be deleted and that no incoming entry carries.
   */
  lemma PassDeleteOrigin(s: Settings, p: PassContext, local: seq<LocalRow>, keys: seq<string>,
                         buckets: map<string, seq<DataEntry>>, t: string, w: string, a: seq<string>) returns (r: LocalRow)
    requires Applicable(s, local, buckets)
    requires LocalAscending(local)
    requires forall b | b in buckets :: Ascending(buckets[b]) && Keyed(s.changeIdOf(b), buckets[b])
    requires Delete(t, w, a) in PassEffects(s, p, local, keys, buckets)
    ensures t == s.mainTable && t in keys && t in buckets
    ensures w == "_id = ?" && a == [IntToString(r.rowId)]
    ensures r in local && Deletable(s, p, r) && r.serverId !in ServerIds(buckets[t])
  {
    var x := Delete(t, w, a);
    var k := PassMember(s, p, local, keys, buckets, x);
    var table := keys[k];
    var bucket := buckets[table];
    if table == s.mainTable {
      r := MainDeleteOrigin(s, p, local, bucket, x);
    } else {
      var e := EntryMember(s, p, table, bucket, x);
      assert false;
    }
  }

  lemma MainDeleteOrigin(s: Settings, p: PassContext, local: seq<LocalRow>, bucket: seq<DataEntry>, x: Event)
    returns (r: LocalRow)
    requires BelowSentinel(local, bucket) && LocalAscending(local)
    requires Ascending(bucket) && Keyed(s.changeIdOf(s.mainTable), bucket)
    requires x.Delete? && x in Flatten(StepFn(s, p, s.mainTable), Classify(local, bucket))
    ensures x.table == s.mainTable && x.where == "_id = ?" && x.args == [IntToString(r.rowId)]
    ensures r in local && Deletable(s, p, r) && r.serverId !in ServerIds(bucket)
  {
    var steps := Classify(local, bucket);
    var j := FlattenMember(StepFn(s, p, s.mainTable), steps, x);
    assert x in StepEffects(s, p, s.mainTable, steps[j]);
    KeyedAscending(s.changeIdOf(s.mainTable), bucket);
    ClassifyPartition(local, bucket);
    assert Classified(steps[j], local, bucket);
    r := steps[j].row;
  }

  /**
   * Deletes are complete: a local row of the main table that may be deleted
   * and that no incoming entry carries is deleted, right after the listener
   * hears of the removal.
   */
  lemma PassDeletesStale(s: Settings, p: PassContext, local: seq<LocalRow>, keys: seq<string>,
                         buckets: map<string, seq<DataEntry>>, r: LocalRow)
    requires Applicable(s, local, buckets)
    requires LocalAscending(local)
    requires s.mainTable in keys && s.mainTable in buckets
    requires Ascending(buckets[s.mainTable]) && Keyed(s.changeIdOf(s.mainTable), buckets[s.mainTable])
    requires r in local && Deletable(s, p, r) && r.serverId !in ServerIds(buckets[s.mainTable])
    ensures exists pre, post :: (PassEffects(s, p, local, keys, buckets) ==
      pre + (NotifyEffects(s, Changes.ACTION_REMOVE, s.mainTable, r.serverId)
      + [Delete(s.mainTable, "_id = ?", [IntToString(r.rowId)])]) + post)
  {
    var main := s.mainTable;
    var g := BucketFn(s, p, local, buckets);
    var k :| 0 <= k < |keys| && keys[k] == main;
    FlattenAt(g, keys, k);
    var c, d := MainDeletesStale(s, p, local, buckets[main], r);
    var pre, post := Nested(PassEffects(s, p, local, keys, buckets), Flatten(g, keys[..k]), g(main), Flatten(g, keys[k + 1..]),
                            c, NotifyEffects(s, Changes.ACTION_REMOVE, main, r.serverId)
                            + [Delete(main, "_id = ?", [IntToString(r.rowId)])], d);
  }

  lemma MainDeletesStale(s: Settings, p: PassContext, local: seq<LocalRow>, bucket: seq<DataEntry>, r: LocalRow)
    returns (c: seq<Event>, d: seq<Event>)
    requires BelowSentinel(local, bucket) && LocalAscending(local)
    requires Ascending(bucket) && Keyed(s.changeIdOf(s.mainTable), bucket)
    requires r in local && Deletable(s, p, r) && r.serverId !in ServerIds(bucket)
    ensures Flatten(StepFn(s, p, s.mainTable), Classify(local, bucket)) ==
      c + (NotifyEffects(s, Changes.ACTION_REMOVE, s.mainTable, r.serverId)
      + [Delete(s.mainTable, "_id = ?", [IntToString(r.rowId)])]) + d
  {
    var f := StepFn(s, p, s.mainTable);
    var steps := Classify(local, bucket);
    ClassifyConsumesAll(local, bucket);
    KeyedAscending(s.changeIdOf(s.mainTable), bucket);
    ClassifyPartition(local, bucket);
    var j := InLocalsOf(steps, r);
    assert Classified(steps[j], local, bucket);
    assert steps[j] == LocalOnly(r);
    FlattenAt(f, steps, j);
    c, d := Flatten(f, steps[..j]), Flatten(f, steps[j + 1..]);
  }

  /** A chunk inside a chunk of a sequence. */
  lemma Nested(whole: seq<Event>, a: seq<Event>, mid: seq<Event>, b: seq<Event>,
               c: seq<Event>, x: seq<Event>, d: seq<Event>) returns (pre: seq<Event>, post: seq<Event>)
    requires whole == a + mid + b && mid == c + x + d
    ensures whole == pre + x + post
  {
    pre, post := a + c, d + b;
  }

  /**
   * Every local row of the main table that an incoming entry carries is
   * updated by row id with that entry's values.
   */
  lemma PassUpdatesMatched(s: Settings, p: PassContext, local: seq<LocalRow>, keys: seq<string>,
                           buckets: map<string, seq<DataEntry>>, r: LocalRow, e: DataEntry)
    requires Applicable(s, local, buckets)
    requires LocalAscending(local)
    requires s.mainTable in keys && s.mainTable in buckets
    requires Ascending(buckets[s.mainTable]) && Keyed(s.changeIdOf(s.mainTable), buckets[s.mainTable])
    requires r in local && e in buckets[s.mainTable] && r.serverId == e.serverId
    ensures Update(s.mainTable, e.values, "_id = ?", [IntToString(r.rowId)]) in PassEffects(s, p, local, keys, buckets)
  {
    var main := s.mainTable;
    var bucket := buckets[main];
    var g := BucketFn(s, p, local, buckets);
    var f := StepFn(s, p, main);
    var k :| 0 <= k < |keys| && keys[k] == main;
    var steps := Classify(local, bucket);
    KeyedAscending(s.changeIdOf(main), bucket);
    MatchedIffShared(local, bucket);
    ClassifyPartition(local, bucket);
    assert r.serverId in ServerIds(bucket);
    var e' :| Match(r, e') in steps;
    assert Classified(Match(r, e'), local, bucket);
    assert e' == e;
    var j :| 0 <= j < |steps| && steps[j] == Match(r, e);
    FlattenAt(g, keys, k);
    FlattenAt(f, steps, j);
    assert f(steps[j]) == [Update(main, e.values, "_id = ?", [IntToString(r.rowId)])];
  }

  /** The effects of an entry that the journal does not block start with its insert-ignore. */
  lemma EntryInserts(s: Settings, p: PassContext, table: string, e: DataEntry)
    requires Signature(table, e.serverId) !in p.pending
    ensures InsertIgnore(table, e.values) in EntryEffects(s, p, table, e)
  {
    assert EntryEffects(s, p, table, e)[0] == InsertIgnore(table, e.values);
  }

  /**
   * Inserts are complete outside the main table: every incoming entry of
   * another table whose signature is not pending is inserted (and updated
   * when the insert conflicts).
   */
  lemma PassInsertsOther(s: Settings, p: PassContext, local: seq<LocalRow>, keys: seq<string>,
                         buckets: map<string, seq<DataEntry>>, t: string, e: DataEntry)
    requires Applicable(s, local, buckets)
    requires t in keys && t in buckets && t != s.mainTable
    requires e in buckets[t] && Signature(t, e.serverId) !in p.pending
    ensures InsertIgnore(t, e.values) in PassEffects(s, p, local, keys, buckets)
  {
    var g := BucketFn(s, p, local, buckets);
    var f := EntryFn(s, p, t);
    var bucket := buckets[t];
    var k :| 0 <= k < |keys| && keys[k] == t;
    var j :| 0 <= j < |bucket| && bucket[j] == e;
    FlattenAt(g, keys, k);
    assert g(t) == Flatten(f, bucket);
    FlattenAt(f, bucket, j);
    EntryInserts(s, p, t, e);
    assert f(bucket[j]) == EntryEffects(s, p, t, e);
  }

  /**
   * Inserts are complete in the main table: every incoming entry that no
   * local row carries and whose signature is not pending is inserted.
   */
  lemma PassInsertsUnmatched(s: Settings, p: PassContext, local: seq<LocalRow>, keys: seq<string>,
                             buckets: map<string, seq<DataEntry>>, e: DataEntry)
    requires Applicable(s, local, buckets)
    requires LocalAscending(local)
    requires s.mainTable in keys && s.mainTable in buckets
    requires Ascending(buckets[s.mainTable]) && Keyed(s.changeIdOf(s.mainTable), buckets[s.mainTable])
    requires e in buckets[s.mainTable] && e.serverId !in LocalIds(local)
    requires Signature(s.mainTable, e.serverId) !in p.pending
    ensures InsertIgnore(s.mainTable, e.values) in PassEffects(s, p, local, keys, buckets)
  {
    var main := s.mainTable;
    var bucket := buckets[main];
    var g := BucketFn(s, p, local, buckets);
    var f := StepFn(s, p, main);
    var steps := Classify(local, bucket);
    KeyedAscending(s.changeIdOf(main), bucket);
    ClassifyConsumesAll(local, bucket);
    ClassifyPartition(local, bucket);
    var j := InRemotesOf(steps, e);
    assert steps[j] in steps;
    assert Classified(steps[j], local, bucket);
    assert steps[j] == RemoteOnly(e);
    var k :| 0 <= k < |keys| && keys[k] == main;
    FlattenAt(g, keys, k);
    FlattenAt(f, steps, j);
    EntryInserts(s, p, main, e);
    assert f(steps[j]) == EntryEffects(s, p, main, e);
  }

  // ---------------------------------------------------------------------
  // The processor

  class DataProcessor {
    const settings: Settings
    const expectedCount: int
    /** The provider that is notified after the sync, and the account it is notified for (`mUser`). */
    const provider: Provider.DataProvider
    const user: string

    /** Tables in the order of their first bucket (`LinkedHashMap` order). */
    var order: seq<string>
    /** `mOperations`: the bucket of each table, ascending by `compareTo`. */
    var buckets: map<string, seq<DataEntry>>
    /** `mDepthMap`: the depth given by the first `onDataEntry` of each table. */
    var depth: map<string, int>
    var affected: set<string>
    var count: nat
    var downloadsDone: nat
    var operationsDone: nat
    var cancelled: bool
    /** Every write and notification issued so far. */
    var log: seq<Event>

    ghost predicate Valid()
      reads this`order, this`buckets, this`depth, this`affected
    {
      Grouped(order, buckets, depth, affected, settings.changeIdOf)
    }

    constructor (provider: Provider.DataProvider, user: string, mainTable: string, changeIdOf: string -> string,
                 creationDateColumn: Option<string>, expectedCount: int, listener: Option<UpdateListener>)
      ensures Valid()
      ensures settings == Settings(mainTable, changeIdOf, creationDateColumn, listener)
      ensures this.provider == provider && this.user == user
      ensures this.expectedCount == expectedCount
      ensures order == [] && buckets == map[] && depth == map[] && affected == {}
      ensures count == 0 && downloadsDone == 0 && operationsDone == 0
      ensures !cancelled && log == []
    {
      settings := Settings(mainTable, changeIdOf, creationDateColumn, listener);
      this.provider := provider;
      this.user := user;
      this.expectedCount := expectedCount;
      order, buckets, depth, affected := [], map[], map[], {};
      count, downloadsDone, operationsDone := 0, 0, 0;
      cancelled := false;
      log := [];
    }

    /** `isCancelled()` as read at poll number `k`. */
    predicate IsCancelledAt(cancelAt: Option<nat>, k: nat)
      reads this`cancelled
    {
      cancelled || Observed(cancelAt, k)
    }

    method Cancel()
      modifies this`cancelled
      ensures cancelled
    {
      cancelled := true;
    }

    /**
     * `onDataEntry`: the first entry of a table creates its bucket and fixes
     * its depth. The entry's server id is the change-id column as
     * `getAsLong` reads it; when that is null, unboxing it throws a
     * `NullPointerException` and nothing else changes. Otherwise the entry
     * is added unless an entry with the same key is already there, and the
     * count and the affected tables are updated.
     */
    method OnDataEntry(table: string, d: int, data: Row) returns (err: Option<Exception>)
      requires Valid()
      modifies this`order, this`buckets, this`depth, this`affected, this`count, this`downloadsDone
      ensures Valid()
      ensures order == if table in old(buckets) then old(order) else old(order) + [table]
      ensures depth == if table in old(buckets) then old(depth) else old(depth)[table := d]
      ensures GetAsLong(data, settings.changeIdOf(table)).None? ==>
        && err == Some(NullPointer)
        && buckets == old(buckets)[table := if table in old(buckets) then old(buckets)[table] else []]
        && affected == old(affected) && count == old(count) && downloadsDone == old(downloadsDone)
      ensures GetAsLong(data, settings.changeIdOf(table)).Some? ==>
        && err.None?
        && buckets == old(buckets)[table := Add(if table in old(buckets) then old(buckets)[table] else [],
                                                NewEntry(GetAsLong(data, settings.changeIdOf(table)).value, data))]
        && affected == old(affected) + {table} && count == old(count) + 1
        && downloadsDone == old(downloadsDone) + if table == settings.mainTable && expectedCount > 0 then 1 else 0
    {
      var inserts := if table in buckets then buckets[table] else [];
      var column := settings.changeIdOf(table);
      var id := GetAsLong(data, column);
      ghost var b := inserts;
      if id.Some? {
        var e := NewEntry(id.value, data);
        AddKeyed(column, inserts, e);
        b := Add(inserts, e);
      }
      ghost var a := if id.Some? then affected + {table} else affected;
      GroupedPut(order, buckets, depth, affected, settings.changeIdOf, table, d, b, a);
      if table !in buckets {
        order := order + [table];
        depth := depth[table := d];
      }
      if id.None? {
        buckets := buckets[table := inserts];
        return Some(NullPointer);
      }
      buckets := buckets[table := Add(inserts, NewEntry(id.value, data))];
      count := count + 1;
      affected := affected + {table};
      if table == settings.mainTable && expectedCount > 0 {
        downloadsDone := downloadsDone + 1;
      }
      return None;
    }

    /** `onEmptyTable`: an unseen table gets an empty bucket (and no depth). */
    method OnEmptyTable(table: string)
      requires Valid()
      modifies this`order, this`buckets, this`affected
      ensures Valid()
      ensures table in old(buckets) ==> buckets == old(buckets) && order == old(order) && affected == old(affected)
      ensures table !in old(buckets) ==>
        buckets == old(buckets)[table := []] && order == old(order) + [table] && affected == old(affected) + {table}
    {
      if table !in buckets {
        buckets := buckets[table := []];
        order := order + [table];
        affected := affected + {table};
      }
    }

    /**
     * `notifyChanges`: every affected table once, in the order the set is
     * visited, each notified on the provider for this processor's account;
     * the first exception ends the loop.
     */
    method NotifyChanges() returns (tables: seq<string>, err: Option<Exception>)
      requires provider.Valid()
      modifies provider`dependencies, provider`notifications, provider`log
      ensures provider.Valid()
      ensures Distinct(tables)
      ensures forall t :: t in tables <==> t in affected
      ensures var e := Provider.NotifyTablesEffect(provider.config, provider.aggregate, user, tables);
        && provider.log == old(provider.log) + e.events
        && provider.notifications == old(provider.notifications) + e.queued
        && err == e.error
    {
      tables := [];
      var rest := affected;
      while rest != {}
        invariant rest <= affected
        invariant forall t :: t in tables <==> t in affected && t !in rest
        invariant Distinct(tables)
        decreases |rest|
      {
        var t :| t in rest;
        tables := tables + [t];
        rest := rest - {t};
      }
      err := provider.NotifyTables(user, tables);
    }

    /** The pending-deletes query: the signatures of the journal's REMOVE rows. */
    method CollectPendingDeletes(journal: seq<JournalRow>) returns (pending: set<string>)
      ensures pending == PendingSignatures(journal)
    {
      pending := {};
      var k := 0;
      while k < |journal|
        invariant 0 <= k <= |journal|
        invariant pending == PendingSignatures(journal[..k])
      {
        assert journal[..k + 1][..k] == journal[..k];
        if journal[k].action == Changes.ACTION_REMOVE {
          pending := pending + {Signature(journal[k].table, journal[k].objId)};
        }
        k := k + 1;
      }
      assert journal[..k] == journal;
    }

    method NotifyUpdateListeners(action: int, table: string, serverId: int)
      modifies this`log
      ensures log == old(log) + NotifyEffects(settings, action, table, serverId)
    {
      if settings.listener.Some? && IsInterested(settings.listener.value, action, table, serverId) {
        log := log + [Notified(action, table, serverId)];
      }
    }

    method InsertOrUpdate(table: string, values: Row, column: string, id: int, insert: (string, Row) -> InsertOutcome)
      modifies this`log
      ensures log == old(log) + InsertOrUpdateEffects(table, values, column, id, insert(table, values))
    {
      var result := insert(table, values);
      log := log + [InsertIgnore(table, values)];
      if result.Returned? && result.rowId < 0 {
        log := log + [Update(table, values, column + " = " + IntToString(id), [])];
      }
    }

    /** One iteration of the merge loop: compare the current ids and update, insert-or-update, or maybe delete. */
    method MergeStep(p: PassContext, local: seq<LocalRow>, table: string, bucket: seq<DataEntry>, i: nat, j: nat)
      returns (i': nat, j': nat, step: Step)
      requires table == settings.mainTable && BelowSentinel(local, bucket)
      requires Keyed(settings.changeIdOf(table), bucket)
      requires i <= |local| && j <= |bucket| && (i < |local| || j < |bucket|)
      modifies this`log, this`operationsDone
      ensures i <= i' <= |local| && j <= j' <= |bucket| && i + j < i' + j'
      ensures Classify(local[i..], bucket[j..]) == [step] + Classify(local[i'..], bucket[j'..])
      ensures log == old(log) + StepFn(settings, p, table)(step)
      ensures operationsDone == old(operationsDone) + if step.LocalOnly? then 0 else 1
    {
      var current := if i < |local| then local[i].serverId else LONG_MAX;
      var entry := if j < |bucket| then bucket[j] else NewEntry(LONG_MAX, map[]);
      ClassifyUnfold(local, bucket, i, j);
      if entry.serverId == current {
        step := Match(local[i], bucket[j]);
        i', j' := i + 1, j + 1;
      } else if entry.serverId < current {
        step := RemoteOnly(bucket[j]);
        assert bucket[j] in bucket;
        i', j' := i, j + 1;
      } else {
        step := LocalOnly(local[i]);
        i', j' := i + 1, j;
      }
      ApplyStep(p, table, step);
    }

    /** The branch of the merge loop that the comparison chose. */
    method ApplyStep(p: PassContext, table: string, step: Step)
      requires !step.LocalOnly? ==> var column := settings.changeIdOf(table);
        GetAsLong(step.entry.values, column) == Some(step.entry.serverId)
      modifies this`log, this`operationsDone
      ensures log == old(log) + StepFn(settings, p, table)(step)
      ensures operationsDone == old(operationsDone) + if step.LocalOnly? then 0 else 1
    {
      match step
      case Match(row, entry) =>
        log := log + [Update(table, entry.values, "_id = ?", [IntToString(row.rowId)])];
        operationsDone := operationsDone + 1;
      case RemoteOnly(entry) =>
        var column := settings.changeIdOf(table);
        if Signature(table, GetAsLong(entry.values, column).value) !in p.pending {
          InsertOrUpdate(table, entry.values, column, entry.serverId, p.insert);
        }
        operationsDone := operationsDone + 1;
      case LocalOnly(row) =>
        if IsEmpty(settings.creationDateColumn) || row.created < p.startTime {
          NotifyUpdateListeners(Changes.ACTION_REMOVE, table, row.serverId);
          log := log + [Delete(table, "_id = ?", [IntToString(row.rowId)])];
        }
    }

    /** The merge-join of the main table's local rows with its bucket. */
    method MergeMain(p: PassContext, local: seq<LocalRow>, table: string, bucket: seq<DataEntry>,
                     cancelAt: Option<nat>, polls0: nat) returns (polls: nat)
      requires table == settings.mainTable && BelowSentinel(local, bucket)
      requires Keyed(settings.changeIdOf(table), bucket)
      modifies this`log, this`operationsDone
      ensures polls >= polls0
      ensures old(log) <= log && log[|old(log)|..] <= BucketEffects(settings, p, local, table, bucket)
      ensures log == old(log) + BucketEffects(settings, p, local, table, bucket) || IsCancelledAt(cancelAt, polls)
      ensures operationsDone == old(operationsDone) + |bucket| || IsCancelledAt(cancelAt, polls)
    {
      var steps := Classify(local, bucket);
      ghost var f := StepFn(settings, p, table);
      ghost var done: seq<Step> := [];
      var i, j := 0, 0;
      polls := polls0;
      ClassifyConsumesAll(local, bucket);
      while i < |local| || j < |bucket|
        invariant 0 <= i <= |local| && 0 <= j <= |bucket|
        invariant polls >= polls0
        invariant BelowSentinel(local[i..], bucket[j..])
        invariant steps == done + Classify(local[i..], bucket[j..])
        invariant log == old(log) + Flatten(f, done)
        invariant operationsDone == old(operationsDone) + |RemotesOf(done)|
        decreases |local| - i + |bucket| - j
      {
        ghost var rest := Classify(local[i..], bucket[j..]);
        FlattenAppend(f, done, rest);
        if IsCancelledAt(cancelAt, polls) {
          polls := polls + 1;
          return;
        }
        polls := polls + 1;
        ghost var logBefore := log;
        var step: Step;
        i, j, step := MergeStep(p, local, table, bucket, i, j);
        MergeAdvance(f, old(log), logBefore, log, steps, done, step, Classify(local[i..], bucket[j..]));
        done := done + [step];
      }
      assert local[i..] == [] && bucket[j..] == [];
      assert done == steps;
    }

    /** One entry of a non-main bucket: insert-or-update it unless a journal REMOVE blocks it. */
    method InsertStep(p: PassContext, table: string, bucket: seq<DataEntry>, k: nat)
      requires k < |bucket| && Keyed(settings.changeIdOf(table), bucket)
      modifies this`log
      ensures log == old(log) + EntryFn(settings, p, table)(bucket[k])
    {
      var entry := bucket[k];
      var column := settings.changeIdOf(table);
      assert entry in bucket;
      if Signature(table, GetAsLong(entry.values, column).value) !in p.pending {
        InsertOrUpdate(table, entry.values, column, entry.serverId, p.insert);
      }
    }

    /** A bucket of a table other than the main one: each entry is inserted-or-updated unless a journal REMOVE blocks it; nothing is deleted. */
    method ApplyInserts(p: PassContext, table: string, bucket: seq<DataEntry>, cancelAt: Option<nat>, polls0: nat)
      returns (polls: nat)
      requires table != settings.mainTable
      requires Keyed(settings.changeIdOf(table), bucket)
      modifies this`log
      ensures polls >= polls0
      ensures old(log) <= log && log[|old(log)|..] <= BucketEffects(settings, p, [], table, bucket)
      ensures log == old(log) + BucketEffects(settings, p, [], table, bucket) || IsCancelledAt(cancelAt, polls)
    {
      ghost var f := EntryFn(settings, p, table);
      ghost var log0 := log;
      polls := polls0;
      var k := 0;
      while k < |bucket|
        invariant 0 <= k <= |bucket| && polls >= polls0
        invariant log == log0 + Flatten(f, bucket[..k])
      {
        if IsCancelledAt(cancelAt, polls) {
          polls := polls + 1;
          EventsPrefix(f, bucket, k, log0, log);
          return;
        }
        polls := polls + 1;
        ghost var before := log;
        InsertStep(p, table, bucket, k);
        EventsStep(f, bucket, k, log0, before, log);
        k := k + 1;
      }
      EventsPrefix(f, bucket, k, log0, log);
    }

    /** The pass `performOperations` would make uninterrupted, for the given store answers. */
    ghost function FullPass(p: PassContext, local: seq<LocalRow>): seq<Event>
      reads this`order, this`buckets, this`depth
      requires Applicable(settings, local, buckets)
    {
      PassEffects(settings, p, local, SortByDepth(order, depth), buckets)
    }

    /** Size of the main table's bucket, 0 when it has none. */
    ghost function MainSize(): nat
      reads this`buckets
    {
      if settings.mainTable in buckets then |buckets[settings.mainTable]| else 0
    }

    /** One bucket of the pass: the merge-join for the main table, the insert loop for the others. */
    method ApplyBucket(p: PassContext, local: seq<LocalRow>, table: string, cancelAt: Option<nat>, polls0: nat)
      returns (polls: nat)
      requires Valid() && Applicable(settings, local, buckets) && table in buckets
      modifies this`log, this`operationsDone
      ensures polls >= polls0
      ensures old(log) <= log && log[|old(log)|..] <= BucketFn(settings, p, local, buckets)(table)
      ensures log == old(log) + BucketFn(settings, p, local, buckets)(table) || IsCancelledAt(cancelAt, polls)
      ensures operationsDone == old(operationsDone) + (if table == settings.mainTable then |buckets[table]| else 0)
        || IsCancelledAt(cancelAt, polls)
    {
      if table == settings.mainTable {
        polls := MergeMain(p, local, table, buckets[table], cancelAt, polls0);
      } else {
        polls := ApplyInserts(p, table, buckets[table], cancelAt, polls0);
      }
    }

    /** One iteration of the loop over the sorted buckets, after its poll found no cancel. */
    method NextBucket(p: PassContext, local: seq<LocalRow>, sorted: seq<string>, k: nat, cancelAt: Option<nat>, polls0: nat,
                      ghost log0: seq<Event>, ghost ops0: int) returns (polls: nat)
      requires Valid() && Applicable(settings, local, buckets)
      requires Distinct(sorted) && k < |sorted| && sorted[k] in buckets
      requires PassProgress(BucketFn(settings, p, local, buckets), sorted, k, log0, log, ops0, operationsDone,
                            settings.mainTable, MainSize(), false)
      modifies this`log, this`operationsDone
      ensures polls >= polls0
      ensures PassProgress(BucketFn(settings, p, local, buckets), sorted, k + 1, log0, log, ops0, operationsDone,
                           settings.mainTable, MainSize(), IsCancelledAt(cancelAt, polls))
    {
      var table := sorted[k];
      polls := ApplyBucket(p, local, table, cancelAt, polls0);
      assert table == settings.mainTable ==> MainSize() == |buckets[table]|;
      PassProgressStep(BucketFn(settings, p, local, buckets), sorted, k, log0, old(log), log, ops0, old(operationsDone),
                       operationsDone, settings.mainTable, MainSize(), IsCancelledAt(cancelAt, polls));
    }

    /** The loop over the sorted buckets, polling for a cancel before each one. */
    method ApplyAll(p: PassContext, local: seq<LocalRow>, sorted: seq<string>, cancelAt: Option<nat>, polls0: nat)
      returns (polls: nat)
      requires Valid() && Applicable(settings, local, buckets)
      requires Distinct(sorted) && forall t | t in sorted :: t in buckets
      modifies this`log, this`operationsDone
      ensures old(log) <= log && log[|old(log)|..] <= PassEffects(settings, p, local, sorted, buckets)
      ensures log == old(log) + PassEffects(settings, p, local, sorted, buckets) || IsCancelledAt(cancelAt, polls)
      ensures operationsDone == old(operationsDone) + (if settings.mainTable in sorted then MainSize() else 0)
        || IsCancelledAt(cancelAt, polls)
    {
      ghost var g := BucketFn(settings, p, local, buckets);
      ghost var ops0 := operationsDone;
      assert PassEffects(settings, p, local, sorted, buckets) == Flatten(g, sorted);
      polls := polls0;
      var k := 0;
      while k < |sorted|
        invariant 0 <= k <= |sorted|
        invariant Valid() && Applicable(settings, local, buckets) && g == BucketFn(settings, p, local, buckets)
        invariant PassProgress(g, sorted, k, old(log), log, ops0, operationsDone, settings.mainTable, MainSize(),
                               IsCancelledAt(cancelAt, polls))
      {
        if IsCancelledAt(cancelAt, polls) {
          polls := polls + 1;
          break;
        }
        polls := polls + 1;
        assert sorted[k] in buckets;
        polls := NextBucket(p, local, sorted, k, cancelAt, polls, old(log), ops0);
        k := k + 1;
      }
      PassDone(g, sorted, k, old(log), log, ops0, operationsDone, settings.mainTable, MainSize(), IsCancelledAt(cancelAt, polls));
    }

    /** The pass itself, once the first poll has found no cancel. */
    method RunPass(startTime: int, journal: seq<JournalRow>, local: seq<LocalRow>,
                   insert: (string, Row) -> InsertOutcome, cancelAt: Option<nat>)
      requires Valid()
      requires |order| >= 2 ==> forall t | t in order :: t in depth
      requires Applicable(settings, local, buckets)
      modifies this`log, this`operationsDone
      ensures var p := PassContext(PendingSignatures(journal), startTime, insert);
        && old(log) <= log && log[|old(log)|..] <= FullPass(p, local)
        && (!cancelled && cancelAt.None? ==> log == old(log) + FullPass(p, local))
      ensures !cancelled && cancelAt.None? ==> operationsDone == old(operationsDone) + MainSize()
    {
      var pending := CollectPendingDeletes(journal);
      var ctx := PassContext(pending, startTime, insert);
      var sorted := SortByDepth(order, depth);
      SortByDepthProps(order, depth);
      DistinctByMultiset(sorted, order);
      assert forall t | t in sorted :: t in multiset(order);
      var polls := ApplyAll(ctx, local, sorted, cancelAt, 1);
      assert settings.mainTable in buckets ==> settings.mainTable in multiset(sorted);
    }

    /**
     * `performOperations`: unless already cancelled, read the pending
     * deletes, order the buckets by depth and apply them; `onFinished` is
     * signalled exactly once at the end either way. A concurrent cancel
     * is observed at the polls before the pass, before each bucket, on each
     * merge iteration and before each non-main entry, so what was written is
     * a prefix of the uninterrupted pass, and all of it when nothing cancels.
     */
    method PerformOperations(startTime: int, journal: seq<JournalRow>, local: seq<LocalRow>,
                             insert: (string, Row) -> InsertOutcome, cancelAt: Option<nat>)
      requires Valid()
      requires !IsCancelledAt(cancelAt, 0) && |order| >= 2 ==> forall t | t in order :: t in depth
      requires Applicable(settings, local, buckets)
      modifies this`log, this`operationsDone
      ensures var p := PassContext(PendingSignatures(journal), startTime, insert);
        && old(log) <= log && |log| > |old(log)| && log[|log| - 1] == Finished
        && log[|old(log)|..|log| - 1] <= FullPass(p, local)
        && (!cancelled && cancelAt.None? ==> log == old(log) + FullPass(p, local) + [Finished])
        && (IsCancelledAt(cancelAt, 0) ==> log == old(log) + [Finished])
      ensures !cancelled && cancelAt.None? ==> operationsDone == old(operationsDone) + MainSize()
    {
      var stop := IsCancelledAt(cancelAt, 0);
      if !stop {
        RunPass(startTime, journal, local, insert, cancelAt);
      }
      ghost var mid := log;
      log := log + [Finished];
      AppendFinished(old(log), mid);
    }
  }

  /** Appending `onFinished` keeps what came before it. */
  lemma AppendFinished(log0: seq<Event>, mid: seq<Event>)
    requires log0 <= mid
    ensures var l := mid + [Finished];
      && log0 <= l && |l| > |log0| && l[|l| - 1] == Finished && l[|log0|..|l| - 1] == mid[|log0|..]
  {
  }
}
