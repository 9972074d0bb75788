/**
 * `every` and `some` of ch5-exercise4.js: a loop over an array that stops at
 * the first element deciding the answer. The test is a total function; the
 * ghost out-parameter `tested` counts the elements handed to it, so that the
 * contracts can say where the loop stopped.
 */
module Predicates {
  /**
   * `every(array, test)`: true exactly when every element passes. On a `false`
   * answer the last element tested is the first failing one, and no element
   * after it was tested.
   */
  method Every<T>(arr: seq<T>, test: T -> bool) returns (r: bool, ghost tested: nat)
    ensures r <==> forall i :: 0 <= i < |arr| ==> test(arr[i])
    ensures tested <= |arr|
    ensures r ==> tested == |arr|
    ensures !r ==> 1 <= tested && !test(arr[tested - 1]) && forall i :: 0 <= i < tested - 1 ==> test(arr[i])
  {
    var i := 0;
    while i < |arr|
      invariant 0 <= i <= |arr|
      invariant forall j :: 0 <= j < i ==> test(arr[j])
    {
      if !test(arr[i]) {
        return false, i + 1;
      }
      i := i + 1;
    }
    return true, |arr|;
  }

  /**
   * `some(array, test)`: true exactly when at least one element passes. On a
   * `true` answer the last element tested is the first passing one, and no
   * element after it was tested.
   */
  method Some<T>(arr: seq<T>, test: T -> bool) returns (r: bool, ghost tested: nat)
    ensures r <==> exists i :: 0 <= i < |arr| && test(arr[i])
    ensures tested <= |arr|
    ensures !r ==> tested == |arr|
    ensures r ==> 1 <= tested && test(arr[tested - 1]) && forall i :: 0 <= i < tested - 1 ==> !test(arr[i])
  {
    var i := 0;
    while i < |arr|
      invariant 0 <= i <= |arr|
      invariant forall j :: 0 <= j < i ==> !test(arr[j])
    {
      if test(arr[i]) {
        return true, i + 1;
      }
      i := i + 1;
    }
    return false, |arr|;
  }

  /** A JavaScript number as far as `isNaN` can tell: NaN, or an ordinary value. */
  datatype Number = NaN | Value(n: int)

  /** `isNaN`. */
  function IsNaN(x: Number): bool
  {
    x.NaN?
  }

  /** The four calls at the end of ch5-exercise4.js, with the answers its comments give. */
  method PredicateExamples() returns (allNaN: bool, notAllNaN: bool, someNaN: bool, noNaN: bool)
    ensures allNaN && !notAllNaN && someNaN && !noNaN
  {
    ghost var tested: nat;
    allNaN, tested := Every([NaN, NaN, NaN], IsNaN);
    var withFour := [NaN, NaN, Value(4)];
    notAllNaN, tested := Every(withFour, IsNaN);
    assert !IsNaN(withFour[2]);
    var withNaN := [NaN, Value(3), Value(4)];
    someNaN, tested := Some(withNaN, IsNaN);
    assert IsNaN(withNaN[0]);
    var withoutNaN := [Value(2), Value(3), Value(4)];
    noNaN, tested := Some(withoutNaN, IsNaN);
    assert forall i :: 0 <= i < |withoutNaN| ==> !IsNaN(withoutNaN[i]);
  }
}
