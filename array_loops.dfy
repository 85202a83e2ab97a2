/** `appendToEachArrayValue(array, appendString)` (ES6_basic/10-loops.js):
    a new array holding `appendString + value` for each value, built by a
    for-of loop; the argument array is left as it was. */
module ArrayLoops {

  method AppendToEachArrayValue(values: seq<string>, appendString: string) returns (newArray: seq<string>)
    ensures |newArray| == |values|
    ensures forall i :: 0 <= i < |values| ==> newArray[i] == appendString + values[i]
  {
    newArray := [];
    for i := 0 to |values|
      invariant |newArray| == i
      invariant forall j :: 0 <= j < i ==> newArray[j] == appendString + values[j]
    {
      newArray := newArray + [appendString + values[i]];
    }
  }
}
