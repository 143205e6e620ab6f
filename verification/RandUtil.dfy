/** rand_util.cc: numbers in a range from 64-bit draws, without favouring any. */
module RandUtil {
  import opened Arithmetic

  const UINT64_MAX: nat := 0xFFFF_FFFF_FFFF_FFFF
  const TWO_TO_THE_64: nat := 0x1_0000_0000_0000_0000
  const TWO_TO_THE_32: nat := 0x1_0000_0000
  const INT_MIN: int := -0x8000_0000
  const INT_MAX: int := 0x7FFF_FFFF

  type Draw = v: nat | v <= UINT64_MAX

  /** The largest draw that RandGenerator uses. */
  function MaxAcceptable(range: nat): (m: nat)
    requires 1 <= range <= UINT64_MAX
    ensures m < UINT64_MAX && m + 1 == UINT64_MAX / range * range
  {
    QuotientBounds(range);
    UINT64_MAX / range * range - 1
  }

  lemma QuotientBounds(range: nat)
    requires 1 <= range <= UINT64_MAX
    ensures 1 <= UINT64_MAX / range
    ensures range <= UINT64_MAX / range * range <= UINT64_MAX < UINT64_MAX / range * range + range
  {
    var q, r := UINT64_MAX / range, UINT64_MAX % range;
    assert UINT64_MAX == q * range + r && r < range;
    if q == 0 {
      assert false;
    }
    assert q * range == range + (q - 1) * range;
    NonNegative(q - 1, range);
  }

  /** Draws until one is acceptable; draws are those the generator would give from here on. */
  method RandGenerator(range: nat, draws: seq<Draw>) returns (result: nat, used: nat)
    requires 1 <= range <= UINT64_MAX
    requires exists i :: 0 <= i < |draws| && draws[i] <= MaxAcceptable(range)
    ensures 0 < used <= |draws| && draws[used - 1] <= MaxAcceptable(range)
    ensures forall i :: 0 <= i < used - 1 ==> draws[i] > MaxAcceptable(range)
    ensures result == draws[used - 1] % range && result < range
  {
    var maxAcceptableValue := MaxAcceptable(range);
    var value := draws[0];
    used := 1;
    while value > maxAcceptableValue
      invariant 0 < used <= |draws| && value == draws[used - 1]
      invariant forall i :: 0 <= i < used - 1 ==> draws[i] > maxAcceptableValue
      decreases |draws| - used
    {
      if used == |draws| {
        var i :| 0 <= i < |draws| && draws[i] <= MaxAcceptable(range);
        assert false;
      }
      value := draws[used];
      used := used + 1;
    }
    result := value % range;
  }

  // ---------------------------------------------------------------- counting draws

  function Below(n: nat): (s: set<nat>)
  {
    if n == 0 then {} else Below(n - 1) + {n - 1}
  }

  lemma {:induction false} BelowIs(n: nat)
    ensures |Below(n)| == n
    ensures forall v :: v in Below(n) <==> 0 <= v < n
  {
    if n > 0 {
      BelowIs(n - 1);
    }
  }

  /** All draws that RandGenerator uses. */
  function Accepted(range: nat): (draws: set<nat>)
    requires 1 <= range <= UINT64_MAX
  {
    set v | v in Below(TWO_TO_THE_64) && v <= MaxAcceptable(range)
  }

  /** Those of them that give a result. */
  function Preimages(range: nat, result: nat): (draws: set<nat>)
    requires 1 <= range <= UINT64_MAX
  {
    set v | v in Accepted(range) && v % range == result
  }

  /** r, r + range, ..., one for each of n rounds. */
  function Rounds(range: nat, r: nat, n: nat): (s: set<nat>)
  {
    if n == 0 then {} else Rounds(range, r, n - 1) + {r + (n - 1) * range}
  }

  lemma {:induction false} RoundsSize(range: nat, r: nat, n: nat)
    requires r < range
    ensures |Rounds(range, r, n)| == n
    ensures forall v :: v in Rounds(range, r, n) ==> v < n * range
  {
    if n > 0 {
      RoundsSize(range, r, n - 1);
      assert n * range == (n - 1) * range + range;
    }
  }

  /** A number has a remainder just if it is that many rounds above it. */
  lemma {:induction false} RoundsAre(range: nat, r: nat, n: nat, v: nat)
    requires r < range
    ensures v in Rounds(range, r, n) <==> v < n * range && v % range == r
  {
    if n > 0 {
      RoundsAre(range, r, n - 1, v);
      assert n * range == (n - 1) * range + range;
      LastRound(range, r, n - 1, v);
    }
  }

  lemma LastRound(range: nat, r: nat, k: nat, v: nat)
    requires r < range
    ensures k * range <= v < k * range + range ==> (v % range == r <==> v == r + k * range)
    ensures (r + k * range) % range == r
  {
    RemainderAbove(range, r, k);
    if k * range <= v < k * range + range {
      RemainderAbove(range, v - k * range, k);
    }
  }

  lemma RemainderAbove(range: nat, r: nat, k: nat)
    requires r < range
    ensures (r + k * range) % range == r
  {
    NonNegative(k, range);
    QuotientUnique(r + k * range, range, k, r);
  }

  lemma AcceptedAre(range: nat)
    requires 1 <= range <= UINT64_MAX
    ensures Accepted(range) == Below(UINT64_MAX / range * range)
  {
    hide Below;
    BelowIs(TWO_TO_THE_64);
    BelowIs(UINT64_MAX / range * range);
  }

  lemma PreimagesAre(range: nat, result: nat)
    requires 1 <= range <= UINT64_MAX && result < range
    ensures Preimages(range, result) == Rounds(range, result, UINT64_MAX / range)
  {
    hide Below, Rounds, Accepted, MaxAcceptable;
    var q := UINT64_MAX / range;
    AcceptedAre(range);
    BelowIs(q * range);
    forall v: nat
      ensures v in Preimages(range, result) <==> v in Rounds(range, result, q)
    {
      RoundsAre(range, result, q, v);
    }
  }

  /**
   Every result has the same number of accepted draws, so each is as likely as any other; together
   they are all the accepted draws.
   */
  lemma Uniform(range: nat, result: nat)
    requires 1 <= range <= UINT64_MAX && result < range
    ensures |Preimages(range, result)| == UINT64_MAX / range
    ensures |Accepted(range)| == UINT64_MAX / range * range
  {
    hide Below, Rounds, Accepted, Preimages;
    AcceptedAre(range);
    BelowIs(UINT64_MAX / range * range);
    PreimagesAre(range, result);
    RoundsSize(range, result, UINT64_MAX / range);
  }

  /** More than half of the draws other than the maximum are accepted, and the maximum never is. */
  lemma MostAreAccepted(range: nat)
    requires 1 <= range <= UINT64_MAX
    ensures Accepted(range) <= Below(UINT64_MAX) && 2 * |Accepted(range)| > |Below(UINT64_MAX)|
  {
    hide Below, Preimages, MaxAcceptable;
    QuotientBounds(range);
    Uniform(range, 0);
    BelowIs(UINT64_MAX);
    BelowIs(TWO_TO_THE_64);
  }

  // ---------------------------------------------------------------- RandInt

  predicate IsInt(n: int) { INT_MIN <= n <= INT_MAX }

  /** Conversion to a 64-bit unsigned, and to a 32-bit signed number. */
  function ToUint64(n: int): (u: nat)
    ensures u <= UINT64_MAX
  {
    n % TWO_TO_THE_64
  }

  function ToInt(n: int): (i: int)
    ensures IsInt(i)
  {
    var m := n % TWO_TO_THE_32;
    if m > INT_MAX then m - TWO_TO_THE_32 else m
  }

  /** Both keep the number modulo the width, and are in the range of their type. */
  lemma ConversionsAreCongruent(n: int)
    ensures ToUint64(n) % 0x1_0000_0000_0000_0000 == n % 0x1_0000_0000_0000_0000
    ensures ToInt(n) % 0x1_0000_0000 == n % 0x1_0000_0000
    ensures 0 <= ToUint64(n) <= UINT64_MAX == 0xFFFF_FFFF_FFFF_FFFF && -0x8000_0000 <= ToInt(n) <= 0x7FFF_FFFF
    ensures IsInt(n) <==> -0x8000_0000 <= n <= 0x7FFF_FFFF
  {
    var m := n % TWO_TO_THE_32;
    assert m > INT_MAX ==> (m - TWO_TO_THE_32) % TWO_TO_THE_32 == m;
  }

  function RangeOf(min: int, max: int): (range: nat)
  {
    ToUint64(ToUint64(ToUint64(max) - ToUint64(min)) + 1)
  }

  /** min + static_cast<int>(r), with an addition that wraps. */
  function Result(min: int, r: nat): (result: int) { ToInt(min + ToInt(r)) }

  lemma RangeExact(min: int, max: int)
    requires IsInt(min) && IsInt(max) && min <= max
    ensures RangeOf(min, max) == max - min + 1
  {
    assert ToUint64(max) == if max < 0 then max + TWO_TO_THE_64 else max;
    assert ToUint64(min) == if min < 0 then min + TWO_TO_THE_64 else min;
  }

  lemma ResultExact(min: int, max: int, r: nat)
    requires IsInt(min) && IsInt(max) && min <= max && r <= max - min
    ensures Result(min, r) == min + r
  {
    assert ToInt(r) == if r > INT_MAX then r - TWO_TO_THE_32 else r;
    var sum := min + ToInt(r);
    assert ToInt(sum) == if sum < INT_MIN then sum + TWO_TO_THE_32 else sum;
  }

  method RandInt(min: int, max: int, draws: seq<Draw>) returns (result: int, used: nat)
    requires IsInt(min) && IsInt(max) && min <= max
    requires exists i :: 0 <= i < |draws| && draws[i] <= MaxAcceptable(max - min + 1)
    ensures min <= result <= max
    ensures 0 < used <= |draws| && result == min + draws[used - 1] % (max - min + 1)
  {
    RangeExact(min, max);
    var range := RangeOf(min, max);
    var r, n := RandGenerator(range, draws);
    ResultExact(min, max, r);
    result, used := Result(min, r), n;
  }

  /** The results of RandGenerator go one for one to the numbers from min to max. */
  lemma RandIntIsBijective(min: int, max: int, result: int)
    requires IsInt(min) && IsInt(max) && min <= result <= max
    ensures var range := RangeOf(min, max);
            && result - min < range && Result(min, result - min) == result
            && forall r: nat :: r < range && Result(min, r) == result ==> r == result - min
  {
    RangeExact(min, max);
    forall r: nat | r < RangeOf(min, max)
      ensures Result(min, r) == min + r
    {
      ResultExact(min, max, r);
    }
  }

  /** Just the results above INT_MAX make the addition in RandInt leave the range of int. */
  lemma AdditionWrapsExactly(min: int, max: int, r: nat)
    requires IsInt(min) && IsInt(max) && min <= max && r <= max - min
    ensures !IsInt(min + ToInt(r)) <==> r > INT_MAX
  {
    assert ToInt(r) == if r > INT_MAX then r - TWO_TO_THE_32 else r;
  }
}
