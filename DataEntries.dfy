/**
 * A parsed remote record (`DataEntry`): the server-side values ready for the
 * database and two ids, the parent's server id and the entity's own server
 * id. Entries are ordered lexicographically by (parentId, serverId); a table's
 * bucket of incoming entries is a duplicate-free set kept in that order.
 */
module DataEntries {
  import opened Common

  /** A value stored in a `ContentValues` map. */
  datatype Value = LongVal(n: Long) | StrVal(s: string) | NullVal

  /** A `ContentValues` map: column name to value. */
  type Row = map<string, Value>

  /**
   * `ContentValues.getAsLong` on one value: a long as it is, a string that
   * `Long.valueOf` accepts as the long it denotes, anything else null.
   */
  function AsLong(v: Value): (r: Option<Long>)
    ensures v.LongVal? ==> r == Some(v.n)
    ensures v.StrVal? ==> (r.Some? <==> ParseLong(v.s).Some?) && (r.Some? ==> r.value == ParseLong(v.s).value)
    ensures v.NullVal? ==> r.None?
  {
    match v
    case LongVal(n) => Some(n)
    case StrVal(s) =>
      ParseDecimalBounds(s, LONG_MIN, LONG_MAX);
      if ParseLong(s).Some? then Some(ParseLong(s).value) else None
    case NullVal => None
  }

  /** `ContentValues.getAsLong`: null as well when the key is absent. */
  function GetAsLong(row: Row, key: string): (r: Option<Long>)
    ensures key !in row ==> r.None?
    ensures key in row ==> r == AsLong(row[key])
  {
    if key in row then AsLong(row[key]) else None
  }

  /** A long stored under a key, and the decimal rendering of one, both read back as that long. */
  lemma GetAsLongRoundTrip(row: Row, key: string, n: Long)
    ensures GetAsLong(row[key := LongVal(n)], key) == Some(n)
    ensures GetAsLong(row[key := StrVal(IntToString(n))], key) == Some(n)
  {
    ParseRendered(n, LONG_MIN, LONG_MAX);
  }

  datatype DataEntry = DataEntry(parentId: Long, serverId: Long, values: Row)

  /** The two-argument constructor: an entry without a parent, parent id 0. */
  function NewEntry(serverId: Long, values: Row): (e: DataEntry)
    ensures e.parentId == 0 && e.serverId == serverId && e.values == values
  {
    DataEntry(0, serverId, values)
  }

  /** Three-way comparison of two longs. */
  function Compare(a: int, b: int): (r: int)
    ensures r == -1 || r == 0 || r == 1
    ensures r == 1 <==> a > b
    ensures r == -1 <==> a < b
  {
    if a > b then 1 else if a < b then -1 else 0
  }

  /** `compareTo`: by parent id, then by server id. */
  function CompareTo(x: DataEntry, y: DataEntry): (r: int)
    ensures r == -1 || r == 0 || r == 1
  {
    var p := Compare(x.parentId, y.parentId);
    if p == 0 then Compare(x.serverId, y.serverId) else p
  }

  /** The key the ordering looks at. */
  function Key(e: DataEntry): (int, int) {
    (e.parentId, e.serverId)
  }

  /** Strict lexicographic order on keys, the reference ordering. */
  predicate KeyLess(x: DataEntry, y: DataEntry) {
    x.parentId < y.parentId || (x.parentId == y.parentId && x.serverId < y.serverId)
  }

  lemma CompareToLexicographic(x: DataEntry, y: DataEntry)
    ensures CompareTo(x, y) == -1 <==> KeyLess(x, y)
    ensures CompareTo(x, y) == 1 <==> KeyLess(y, x)
    ensures CompareTo(x, y) == 0 <==> Key(x) == Key(y)
  {
  }

  /** The ordering is a total order on keys. */
  lemma CompareToTotalOrder(x: DataEntry, y: DataEntry, z: DataEntry)
    ensures CompareTo(x, x) == 0
    ensures CompareTo(x, y) == -CompareTo(y, x)
    ensures CompareTo(x, y) <= 0 && CompareTo(y, z) <= 0 ==> CompareTo(x, z) <= 0
    ensures CompareTo(x, y) < 0 && CompareTo(y, z) < 0 ==> CompareTo(x, z) < 0
  {
  }

  /** Entries built by the two-argument constructor are ordered by server id alone. */
  lemma NewEntryOrder(a: Long, va: Row, b: Long, vb: Row)
    ensures CompareTo(NewEntry(a, va), NewEntry(b, vb)) == Compare(a, b)
  {
  }

  // ---------------------------------------------------------------------
  // Buckets: `TreeSet<DataEntry>`

  /** Strictly ascending by `compareTo`: sorted and free of equal keys. */
  predicate Ascending(b: seq<DataEntry>) {
    forall i, j | 0 <= i < j < |b| :: KeyLess(b[i], b[j])
  }

  /** The keys present in a bucket. */
  function Keys(b: seq<DataEntry>): set<(int, int)> {
    set x | x in b :: Key(x)
  }

  lemma CompareToNegative(x: DataEntry, y: DataEntry)
    ensures CompareTo(x, y) < 0 <==> KeyLess(x, y)
    ensures CompareTo(x, y) == 0 <==> Key(x) == Key(y)
  {
  }

  /** Every key of an ascending bucket is at least its first one. */
  lemma FirstIsLeast(b: seq<DataEntry>, x: DataEntry)
    requires Ascending(b) && x in b && x != b[0]
    ensures KeyLess(b[0], x)
  {
    var k :| 0 <= k < |b| && b[k] == x;
  }

  lemma KeysCons(x: DataEntry, b: seq<DataEntry>)
    ensures Keys([x] + b) == {Key(x)} + Keys(b)
  {
    assert forall y | y in [x] + b :: y == x || y in b;
  }

  /**
   * `TreeSet.add`: an entry whose key is already present is dropped (the
   * earlier entry stays); otherwise it is placed at its position in order.
   */
  function Add(b: seq<DataEntry>, e: DataEntry): (r: seq<DataEntry>)
    requires Ascending(b)
    ensures Ascending(r)
    ensures Keys(r) == Keys(b) + {Key(e)}
    ensures Key(e) in Keys(b) ==> r == b
    ensures Key(e) !in Keys(b) ==> |r| == |b| + 1 && forall x :: x in r <==> x in b || x == e
  {
    if |b| == 0 then [e]
    else if CompareTo(e, b[0]) < 0 then
      CompareToNegative(e, b[0]);
      AddFront(b, e);
      [e] + b
    else if CompareTo(e, b[0]) == 0 then
      CompareToNegative(e, b[0]);
      assert Key(b[0]) in Keys(b);
      b
    else
      CompareToNegative(b[0], e);
      var rest := Add(b[1..], e);
      AddBehind(b, e, rest);
      [b[0]] + rest
  }

  lemma AddFront(b: seq<DataEntry>, e: DataEntry)
    requires Ascending(b) && |b| > 0 && KeyLess(e, b[0])
    ensures Ascending([e] + b)
    ensures Key(e) !in Keys(b)
    ensures Keys([e] + b) == Keys(b) + {Key(e)}
  {
    forall x | x in b ensures KeyLess(e, x) {
      if x != b[0] { FirstIsLeast(b, x); }
    }
    KeysCons(e, b);
  }

  lemma AddBehind(b: seq<DataEntry>, e: DataEntry, rest: seq<DataEntry>)
    requires Ascending(b) && |b| > 0 && KeyLess(b[0], e)
    requires Ascending(rest)
    requires forall x :: x in rest ==> x in b[1..] || x == e
    requires Keys(rest) == Keys(b[1..]) + {Key(e)}
    ensures Ascending([b[0]] + rest)
    ensures Keys([b[0]] + rest) == Keys(b) + {Key(e)}
    ensures Key(e) in Keys(b) <==> Key(e) in Keys(b[1..])
  {
    assert b == [b[0]] + b[1..];
    KeysCons(b[0], b[1..]);
    KeysCons(b[0], rest);
    forall x | x in rest ensures KeyLess(b[0], x) {
      if x != e { FirstIsLeast(b, x); }
    }
  }

  /** Server ids present in a bucket. */
  function ServerIds(b: seq<DataEntry>): set<int> {
    set x | x in b :: x.serverId
  }

  /**
   * For a bucket of parentless entries, adding a parentless entry adds its
   * server id; a second entry with the same server id leaves the bucket as
   * it was.
   */
  lemma AddParentless(b: seq<DataEntry>, e: DataEntry)
    requires Ascending(b)
    requires forall x | x in b :: x.parentId == 0
    requires e.parentId == 0
    ensures ServerIds(Add(b, e)) == ServerIds(b) + {e.serverId}
    ensures e.serverId in ServerIds(b) ==> Add(b, e) == b
    ensures forall x | x in Add(b, e) :: x.parentId == 0
  {
    var r := Add(b, e);
    if e.serverId in ServerIds(b) {
      var x :| x in b && x.serverId == e.serverId;
      assert Key(x) == Key(e);
    } else {
      assert Key(e) !in Keys(b);
    }
  }
}
