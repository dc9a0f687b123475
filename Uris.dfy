/**
 * Content addresses (`android.net.Uri` as the library uses it): an authority,
 * a list of path segments and a list of query parameters in the order they
 * were appended.
 */
module Uris {
  import opened Common

  datatype Address = Address(authority: string, segments: seq<string>, query: seq<(string, string)>)

  // The query parameter keys the provider understands, and its boolean values.
  const QUERY_KEY_RECORD_CHANGES: string := "rch"
  const QUERY_FALSE: string := "0"
  const QUERY_TRUE: string := "1"
  const QUERY_KEY_CHANGE_VALUE: string := "chv"
  const QUERY_KEY_ACTION: string := "act"
  const QUERY_KEY_NOTIFY: string := "not"
  const QUERY_KEY_GROUP_BY: string := "gby"
  const QUERY_KEY_ADDITIONAL_DATA: string := "dep"
  const QUERY_KEY_INSERT_OR_UPDATE: string := "iou"

  /** `getUri(user, table)`: content://authority/user/table, without parameters. */
  function ForTable(authority: string, user: string, table: string): (u: Address)
    ensures u.segments == [user, table] && u.query == [] && u.authority == authority
  {
    Address(authority, [user, table], [])
  }

  /** The first value given for `key` in a parameter list. */
  function FirstValue(query: seq<(string, string)>, key: string): (r: Option<string>)
    ensures r.Some? <==> exists k | 0 <= k < |query| :: query[k].0 == key
    ensures r.Some? ==> exists k | 0 <= k < |query| :: query[k] == (key, r.value)
  {
    if |query| == 0 then None
    else if query[0].0 == key then
      assert query[0] == (key, query[0].1);
      Some(query[0].1)
    else
      var r := FirstValue(query[1..], key);
      assert forall k | 0 <= k < |query| - 1 :: query[1..][k] == query[k + 1];
      r
  }

  /** `getQueryParameter`: the first value given for `key`, or null. */
  function QueryParameter(u: Address, key: string): Option<string> {
    FirstValue(u.query, key)
  }

  /** `buildUpon().appendQueryParameter(key, value).build()`. */
  function AppendQueryParameter(u: Address, key: string, value: string): (r: Address)
    ensures r.authority == u.authority && r.segments == u.segments
  {
    u.(query := u.query + [(key, value)])
  }

  /** `ContentUris.withAppendedId`: the id as one more path segment. */
  function WithAppendedId(u: Address, id: int): (r: Address)
    ensures r.segments == u.segments + [IntToString(id)] && r.query == u.query
  {
    u.(segments := u.segments + [IntToString(id)])
  }

  lemma {:induction false} FirstValueAppend(query: seq<(string, string)>, key: string, k2: string, value: string)
    ensures FirstValue(query + [(k2, value)], key) ==
      if FirstValue(query, key).Some? then FirstValue(query, key)
      else if k2 == key then Some(value) else None
  {
    if |query| > 0 {
      assert (query + [(k2, value)])[1..] == query[1..] + [(k2, value)];
      FirstValueAppend(query[1..], key, k2, value);
    }
  }

  /**
   * An appended parameter is what a later lookup of its key finds, unless
   * the key was already present (the first value wins); lookups of other
   * keys are unaffected.
   */
  lemma AppendedParameterFound(u: Address, key: string, value: string, other: string)
    requires other != key
    ensures QueryParameter(AppendQueryParameter(u, key, value), key) ==
      if QueryParameter(u, key).Some? then QueryParameter(u, key) else Some(value)
    ensures QueryParameter(AppendQueryParameter(u, key, value), other) == QueryParameter(u, other)
  {
    FirstValueAppend(u.query, key, key, value);
    FirstValueAppend(u.query, other, key, value);
  }
}
