/**
 * The example `Accumulator`: a running 32-bit total that only accepts
 * non-negative additions.
 */
module Example {
  import opened Outcomes

  newtype Int32 = x: int | -0x8000_0000 <= x < 0x8000_0000

  const MaxInt32: int := 0x7FFF_FFFF

  /** C#'s unchecked `int` addition: the sum taken modulo 2^32 into the signed range. */
  function Wrap32(x: int): (r: Int32)
    ensures -0x8000_0000 <= x <= MaxInt32 ==> r as int == x
    ensures (x - r as int) % 0x1_0000_0000 == 0
  {
    ((x + 0x8000_0000) % 0x1_0000_0000 - 0x8000_0000) as Int32
  }

  /** What the validation library's requirement check throws when `value >= 0` is false. */
  const RequirementNotMet: Exception :=
    Exception([InvalidOperationName, SystemExceptionName, ExceptionName], "", None)

  /** The total after one `Add(value)`: unchanged when the value is rejected, the wrapped sum otherwise. */
  function AddStep(total: Int32, value: Int32): (r: Int32)
    ensures value < 0 ==> r == total
    ensures value >= 0 ==> (r as int - (total as int + value as int)) % 0x1_0000_0000 == 0
    ensures value >= 0 && total as int + value as int <= MaxInt32 ==> r as int == total as int + value as int
  {
    if value < 0 then total else Wrap32(total as int + value as int)
  }

  class Accumulator {
    var Total: Int32

    constructor ()
      ensures Total == 0
    {
      Total := 0;
    }

    /** `Add(value)`: the requirement check runs first, so a rejected value leaves the total alone. */
    method Add(value: Int32) returns (r: Outcome<()>)
      modifies this
      ensures r.Returned? <==> value >= 0
      ensures r.Threw? ==> r.error == RequirementNotMet && IsInstance(r.error, InvalidOperationName)
      ensures Total == AddStep(old(Total), value)
      ensures value < 0 ==> Total == old(Total)
    {
      if !(value >= 0) {
        return Threw(RequirementNotMet);
      }
      Total := Wrap32(Total as int + value as int);
      r := Returned(());
    }
  }

  /** The total after a series of `Add` calls, starting from `total`. */
  function Accumulated(total: Int32, values: seq<Int32>): Int32
    decreases |values|
  {
    if values == [] then total else Accumulated(AddStep(total, values[0]), values[1..])
  }

  /** The sum of the values `Add` accepts. */
  function AcceptedSum(values: seq<Int32>): int
    decreases |values|
  {
    if values == [] then 0 else (if values[0] < 0 then 0 else values[0] as int) + AcceptedSum(values[1..])
  }

  lemma {:induction false} AcceptedSumNonNegative(values: seq<Int32>)
    ensures AcceptedSum(values) >= 0
    decreases |values|
  {
    if values != [] {
      AcceptedSumNonNegative(values[1..]);
    }
  }

  /**
   * As long as the 32-bit total does not overflow, the total is the exact sum
   * of the accepted values, so it never decreases and stays non-negative.
   */
  lemma {:induction false} TotalIsExactWithoutOverflow(total: Int32, values: seq<Int32>)
    requires 0 <= total
    requires total as int + AcceptedSum(values) <= MaxInt32
    ensures Accumulated(total, values) as int == total as int + AcceptedSum(values)
    ensures total <= Accumulated(total, values)
    decreases |values|
  {
    AcceptedSumNonNegative(values);
    if values != [] {
      AcceptedSumNonNegative(values[1..]);
      TotalIsExactWithoutOverflow(AddStep(total, values[0]), values[1..]);
    }
  }

  /** At the top of the range one more accepted value wraps the total negative. */
  lemma OverflowWrapsNegative()
    ensures AddStep(MaxInt32 as Int32, 1) == -0x8000_0000
  {
  }
}
