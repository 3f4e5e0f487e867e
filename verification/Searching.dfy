/** How the stores find a row: the first one that matches. */
module Searching {

  /** Array.prototype.findIndex. */
  function FirstIndex<T>(rows: seq<T>, matches: T -> bool): (index: int)
    ensures IsFirst(rows, matches, index)
  {
    if rows == [] then -1
    else
      var last := |rows| - 1;
      var before := FirstIndex(rows[..last], matches);
      if before >= 0 then before else if matches(rows[last]) then last else -1
  }

  ghost predicate IsFirst<T>(rows: seq<T>, matches: T -> bool, index: int) {
    && -1 <= index < |rows|
    && (index >= 0 ==> matches(rows[index]))
    && (forall j :: 0 <= j < (if index < 0 then |rows| else index) ==> !matches(rows[j]))
  }

  method FindIndex<T>(rows: seq<T>, matches: T -> bool) returns (index: int)
    ensures index == FirstIndex(rows, matches)
  {
    for i := 0 to |rows|
      invariant forall j :: 0 <= j < i ==> !matches(rows[j])
    {
      if matches(rows[i]) {
        return i;
      }
    }
    return -1;
  }
}
