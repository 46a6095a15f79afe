/**
 lk_time_t and its comparisons (include/sys/types.h): milliseconds modulo 2^32, compared through a
 signed difference.
 */
module Clock {

  const TWO32: nat := 0x1_0000_0000
  const HALF: nat := 0x8000_0000

  type Time32 = t: nat | t < TWO32

  /** As the length of a wait: no limit. */
  const INFINITE_TIME: Time32 := 0xffff_ffff

  /** The 32-bit reading of a clock that never wraps. */
  function Reading(t: nat): Time32 {
    t % TWO32
  }

  function Add32(a: Time32, b: Time32): Time32 {
    (a + b) % TWO32
  }

  function Sub32(a: Time32, b: Time32): Time32 {
    (a - b) % TWO32
  }

  /** The conversion to int32_t. */
  function Signed(t: Time32): int {
    if t < HALF then t else t - TWO32
  }

  predicate TimeGt(a: Time32, b: Time32) {
    Signed(Sub32(a, b)) > 0
  }

  predicate TimeLt(a: Time32, b: Time32) {
    Signed(Sub32(a, b)) < 0
  }

  /** Two instants closer than half the range of the clock. */
  predicate Close(a: nat, b: nat) {
    a - b < HALF && b - a < HALF
  }

  /** What the macros compute of two instants whose difference is d + k * 2^32. */
  lemma DifferenceOfReadings(a: nat, b: nat, d: int, k: int)
    requires a - b == d + k * TWO32 && 0 <= d < TWO32
    ensures Sub32(Reading(a), Reading(b)) == d
  {
    var i, j := a / TWO32, b / TWO32;
    assert Reading(a) - Reading(b) == d + (k - i + j) * TWO32;
    Modulus(Reading(a) - Reading(b), d, k - i + j);
  }

  lemma Modulus(x: int, d: int, k: int)
    requires x == d + k * TWO32 && 0 <= d < TWO32
    ensures x % TWO32 == d
  {
  }

  /** Within half the range the wrapping comparisons are those of the instants ... */
  lemma ComparisonsExact(a: nat, b: nat)
    requires Close(a, b)
    ensures TimeGt(Reading(a), Reading(b)) <==> a > b
    ensures TimeLt(Reading(a), Reading(b)) <==> a < b
    ensures a >= b ==> Sub32(Reading(a), Reading(b)) == a - b
  {
    if a >= b {
      DifferenceOfReadings(a, b, a - b, 0);
    } else {
      DifferenceOfReadings(a, b, a - b + TWO32, -1);
    }
  }

  /** ... and, of instants less than a whole turn apart, both are right exactly if the first is less than
      half a turn ahead and at most half a turn behind; otherwise they say the opposite. */
  lemma ComparisonsTurn(a: nat, b: nat)
    requires a - b < TWO32 && b - a < TWO32
    ensures (TimeGt(Reading(a), Reading(b)) <==> a > b) && (TimeLt(Reading(a), Reading(b)) <==> a < b) <==>
      a - b < HALF && b - a <= HALF
    ensures !(a - b < HALF && b - a <= HALF) ==>
      (TimeGt(Reading(a), Reading(b)) <==> a < b) && (TimeLt(Reading(a), Reading(b)) <==> a > b)
  {
    if a >= b {
      DifferenceOfReadings(a, b, a - b, 0);
    } else {
      DifferenceOfReadings(a, b, a - b + TWO32, -1);
    }
  }

  lemma AddReadings(a: nat, b: Time32)
    ensures Add32(Reading(a), b) == Reading(a + b)
  {
    var i := a / TWO32;
    assert a + b == Reading(a) + b + i * TWO32;
  }
}
