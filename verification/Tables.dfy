/** Looking a row up in a table whose ids are handed out in order. */
module Tables {
  import opened Wrappers

  /** The least id in `[lo, hi)` whose row is wanted. */
  function FirstRow<T>(rows: map<nat, T>, wanted: T -> bool, lo: nat, hi: nat): (found: Option<nat>)
    ensures found.Some? ==> lo <= found.value < hi && found.value in rows && wanted(rows[found.value])
    ensures found.Some? ==> forall id | lo <= id < found.value && id in rows :: !wanted(rows[id])
    ensures found.None? ==> forall id | lo <= id < hi && id in rows :: !wanted(rows[id])
    decreases hi - lo
  {
    if hi <= lo then None
    else if lo in rows && wanted(rows[lo]) then Some(lo)
    else FirstRow(rows, wanted, lo + 1, hi)
  }
}
