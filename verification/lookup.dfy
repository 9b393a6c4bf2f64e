/** Search of a sequence in order: a table held as its rows in insertion order, as
    `query(...).filter(...).first()` scans it, or the characters of a string. */
module Lookup {

  /** Position of the first element satisfying `p`, or the length of the sequence when none does. */
  function FirstIndex<T>(rows: seq<T>, p: T -> bool): (i: nat)
    ensures i <= |rows|
    ensures forall j :: 0 <= j < i ==> !p(rows[j])
    ensures i < |rows| ==> p(rows[i])
  {
    if rows == [] || p(rows[0]) then 0 else 1 + FirstIndex(rows[1..], p)
  }
}
