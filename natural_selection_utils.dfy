/** The integer predicates, the sortedness scan and the range helper of
  * NaturalSelectionUtils. Colour, luminance and timing helpers work on floating point
  * and the clock and are not part of this model.
  */
module NaturalSelectionUtils {

  /** A value as the predicates see it: a finite number (an exact real here), NaN, an
    * infinity, or a value whose `typeof` is not 'number'.
    */
  datatype JsValue = Number(x: real) | NaN | PositiveInfinity | NegativeInfinity | NotANumber

  /** `Utils.isInteger`: `value % 1 === 0`, which no NaN or infinity satisfies. */
  predicate IsInteger(v: JsValue)
  {
    v.Number? && v.x == v.x.Floor as real
  }

  predicate IsPositiveInteger(v: JsValue)
  {
    v.Number? && IsInteger(v) && v.x > 0.0
  }

  predicate IsNonNegativeInteger(v: JsValue)
  {
    v.Number? && IsInteger(v) && v.x >= 0.0
  }

  /** The positive integers are exactly the numbers n with n a whole number at least 1;
    * nothing else (a fraction, NaN, an infinity, a non-number) is one.
    */
  lemma PositiveIntegerIff(v: JsValue, n: int)
    ensures IsPositiveInteger(v) <==> v.Number? && v.x.Floor >= 1 && v.x == v.x.Floor as real
    ensures IsPositiveInteger(Number(n as real)) <==> n >= 1
  {
  }

  /** Every positive integer is a non-negative integer, and 0 is the only non-negative
    * integer that is not positive.
    */
  lemma PositiveIsNonNegative(v: JsValue)
    ensures IsPositiveInteger(v) ==> IsNonNegativeInteger(v)
    ensures IsNonNegativeInteger(v) && !IsPositiveInteger(v) <==> v == Number(0.0)
  {
  }

  /** Every adjacent pair is in non-decreasing order. */
  ghost predicate AdjacentSorted(a: seq<real>)
  {
    forall i :: 1 <= i < |a| ==> a[i - 1] <= a[i]
  }

  /** `isSorted`: scans adjacent pairs until one is out of order. */
  method IsSorted(a: seq<real>) returns (sorted: bool)
    ensures sorted <==> AdjacentSorted(a)
  {
    sorted := true;
    var i := 1;
    while i < |a| && sorted
      invariant 1 <= i
      invariant sorted ==> forall k :: 1 <= k < i && k < |a| ==> a[k - 1] <= a[k]
      invariant !sorted ==> 1 < i <= |a| && a[i - 1] < a[i - 2]
    {
      sorted := a[i] >= a[i - 1];
      i := i + 1;
    }
  }

  /** Sorted in the adjacent sense is sorted in the usual sense: every earlier element
    * is at most every later one.
    */
  lemma {:induction false} AdjacentSortedIsSorted(a: seq<real>, i: nat, j: nat)
    requires AdjacentSorted(a)
    requires i <= j < |a|
    ensures a[i] <= a[j]
    decreases j - i
  {
    if i < j {
      AdjacentSortedIsSorted(a, i + 1, j);
    }
  }

  /** A closed interval of reals; the range type demands `min <= max`. */
  datatype Range = Range(min: real, max: real)

  /** `nextInRange`: a degenerate range yields its single value; otherwise the value is
    * the random source's next double in [min, max), supplied as `randomDouble`.
    */
  function NextInRange(range: Range, randomDouble: real): (r: real)
    requires range.min <= range.max
    requires range.min < range.max ==> range.min <= randomDouble < range.max
    ensures range.min <= r <= range.max
    ensures range.min == range.max ==> r == range.max
  {
    if range.min == range.max then range.max else randomDouble
  }
}
