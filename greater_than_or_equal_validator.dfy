/**
 * `GreaterThanOrEqualValidator`: the comparison check behind `GreaterThanOrEqualTo(...)`. A
 * property value passes when a comparison value exists and the value does not compare below it.
 * The property type's `CompareTo` is a parameter; `Int32CompareTo` is the one `int` uses.
 */
module GreaterThanOrEqual {
  import opened Wrappers

  /** The kinds of comparison a comparison validator reports (the library's `Comparison` enum). */
  datatype Comparison = Equal | NotEqual | LessThan | GreaterThan | GreaterThanOrEqual | LessThanOrEqual

  /** `Name`: the validator's name, also its default error code. */
  const Name: string := "GreaterThanOrEqualValidator"

  /** `Comparison`: the kind of comparison this validator performs. */
  const ValidatorComparison: Comparison := GreaterThanOrEqual

  /** What a comparison of each kind accepts, given the sign of `value.CompareTo(valueToCompare)`. */
  predicate Holds(kind: Comparison, order: int)
  {
    match kind
    case Equal => order == 0
    case NotEqual => order != 0
    case LessThan => order < 0
    case GreaterThan => order > 0
    case GreaterThanOrEqual => order >= 0
    case LessThanOrEqual => order <= 0
  }

  /** `IsValid(value, valueToCompare)`: a missing comparison value never passes. */
  predicate IsValid<T>(value: T, valueToCompare: Option<T>, compareTo: (T, T) -> int)
  {
    if valueToCompare.None? then false
    else compareTo(value, valueToCompare.value) >= 0
  }

  /** `Int32.CompareTo`: minus one, zero or one. */
  function Int32CompareTo(a: int, b: int): (order: int)
    ensures order < 0 <==> a < b
    ensures order == 0 <==> a == b
    ensures order > 0 <==> a > b
  {
    if a < b then -1 else if a == b then 0 else 1
  }

  /**
   * A `CompareTo` that orders its type totally: reflexive, antisymmetric in sign and
   * transitive, as `IComparable<T>` asks of its implementations.
   */
  ghost predicate IsTotalOrder<T(!new)>(compareTo: (T, T) -> int)
  {
    && (forall a: T :: compareTo(a, a) == 0)
    && (forall a: T, b: T :: compareTo(a, b) < 0 <==> compareTo(b, a) > 0)
    && (forall a: T, b: T, c: T :: compareTo(a, b) <= 0 && compareTo(b, c) <= 0 ==> compareTo(a, c) <= 0)
  }

  /**
   * The validator's identity: its name, and the kind of comparison it reports, which accepts
   * exactly the non-negative orders `IsValid` accepts.
   */
  lemma NameAndComparison()
    ensures Name == "GreaterThanOrEqualValidator"
    ensures ValidatorComparison == GreaterThanOrEqual
    ensures forall order :: Holds(ValidatorComparison, order) <==> order >= 0
  {
  }

  /** The validator's outcome is the `GreaterThanOrEqual` comparison on the order of the two values. */
  lemma IsValidAgreesWithComparison<T>(value: T, valueToCompare: Option<T>, compareTo: (T, T) -> int)
    ensures IsValid(value, valueToCompare, compareTo)
      <==> valueToCompare.Some? && Holds(ValidatorComparison, compareTo(value, valueToCompare.value))
    ensures valueToCompare.None? ==> !IsValid(value, valueToCompare, compareTo)
  {
  }

  /** Under a total order, a value equal to the comparison value passes and one below it fails. */
  lemma EqualPassesLessFails<T(!new)>(value: T, valueToCompare: T, compareTo: (T, T) -> int)
    requires IsTotalOrder(compareTo)
    ensures value == valueToCompare ==> IsValid(value, Some(valueToCompare), compareTo)
    ensures compareTo(valueToCompare, value) > 0 ==> !IsValid(value, Some(valueToCompare), compareTo)
  {
  }

  /** Under a total order, passing is transitive: `a >= b` and `b >= c` give `a >= c`. */
  lemma {:induction false} IsValidTransitive<T(!new)>(a: T, b: T, c: T, compareTo: (T, T) -> int)
    requires IsTotalOrder(compareTo)
    requires IsValid(a, Some(b), compareTo) && IsValid(b, Some(c), compareTo)
    ensures IsValid(a, Some(c), compareTo)
  {
    assert compareTo(b, a) <= 0;
    assert compareTo(c, b) <= 0;
    assert compareTo(c, a) <= 0;
  }

  /** `Int32.CompareTo` is a total order. */
  lemma Int32CompareToIsTotalOrder()
    ensures IsTotalOrder(Int32CompareTo)
  {
  }

  /** For `int`, the validator accepts exactly the values at or above the comparison value. */
  lemma IntIsValid(value: int, valueToCompare: Option<int>)
    ensures IsValid(value, valueToCompare, Int32CompareTo) <==> valueToCompare.Some? && value >= valueToCompare.value
  {
  }

  /** For `int`, raising the value never turns a pass into a failure. */
  lemma IntIsValidMonotone(value: int, larger: int, valueToCompare: Option<int>)
    requires value <= larger
    requires IsValid(value, valueToCompare, Int32CompareTo)
    ensures IsValid(larger, valueToCompare, Int32CompareTo)
  {
  }
}
