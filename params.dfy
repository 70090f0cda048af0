/**
 * The port driver's parameter table, reduced to what the decode path uses:
 * createParam hands out indices in creation order, setIntegerParam stores a
 * value under a created index and refuses any other index.
 */
module Params {
  datatype Status = Success | BadIndex

  /** The table after setIntegerParam(index, value) when `count` parameters exist. */
  function SetParam(values: map<int, int>, count: nat, index: int, value: int): (r: map<int, int>)
    ensures 0 <= index < count ==> index in r && r[index] == value
    ensures !(0 <= index < count) ==> r == values
    ensures forall i :: i != index ==> (i in r <==> i in values)
    ensures forall i :: i != index && i in r ==> r[i] == values[i]
  {
    if 0 <= index < count then values[index := value] else values
  }

  /** The status setIntegerParam reports for `index`. */
  function SetStatus(count: nat, index: int): Status
  {
    if 0 <= index < count then Success else BadIndex
  }

  class ParamTable {
    var count: nat                // parameters created so far
    var values: map<int, int>     // the integer values set so far

    constructor ()
      ensures count == 0 && values == map[]
    {
      count := 0;
      values := map[];
    }

    /** createParam: the next index, in creation order. */
    method CreateParam() returns (index: nat)
      modifies this`count
      ensures index == old(count) && count == old(count) + 1
    {
      index := count;
      count := count + 1;
    }

    /** setIntegerParam. */
    method SetIntegerParam(index: int, value: int) returns (status: Status)
      modifies this`values
      ensures values == SetParam(old(values), count, index, value)
      ensures status == SetStatus(count, index)
    {
      if 0 <= index < count {
        values := values[index := value];
        status := Success;
      } else {
        status := BadIndex;
      }
    }
  }
}
