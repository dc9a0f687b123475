/** Where a column's contents live (`Storage`). */
module Storage {
  /** Only in the local cache. */
  const LOCAL: int := 0
  /** Also sent to the server. */
  const REMOTE: int := 1
  /** Local, but read when rendering what is sent to the server. */
  const INFO: int := 2
}
