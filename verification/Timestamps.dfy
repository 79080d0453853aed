/** The earliest timestamp a block of a round may carry, in closed form. */
module Timestamps {
  import opened Wrappers

  datatype Timeouts = Timeouts(blockTime: nat, blockPrepareTime: nat, stageTimeout: nat, stageTimeoutIncrease: nat)

  /** How long a stage of a round waits. */
  function GetTimeout(t: Timeouts, round: nat): nat {
    t.stageTimeout + round * t.stageTimeoutIncrease
  }

  function SumOfTimeouts(t: Timeouts, rounds: nat): nat {
    if rounds == 0 then 0 else SumOfTimeouts(t, rounds - 1) + GetTimeout(t, rounds - 1)
  }

  const MAX_ROUND := 100_000

  function PreviousRounds(round: nat): nat {
    if round == 0 then 0 else round - 1
  }

  function Increases(stageTimeoutIncrease: nat, round: nat): nat {
    var previousRounds := PreviousRounds(round);
    (stageTimeoutIncrease * previousRounds * (previousRounds + 1)) / 2
  }

  function CalculateMinimalTimestamp(previous: nat, t: Timeouts, round: nat): Option<nat> {
    if round > MAX_ROUND then None
    else
      Some(previous + t.blockTime + round * t.stageTimeout + Increases(t.stageTimeoutIncrease, round))
  }

  /** The timestamp verifier: a block is not dated before the minimal timestamp of its round. */
  predicate IsTimely(timestamp: int, previous: nat, t: Timeouts, round: nat) {
    match CalculateMinimalTimestamp(previous, t, round)
    case None => false
    case Some(minimal) => timestamp >= minimal
  }

  /** The earliest timestamp that leaves time to prepare the block and that the verifiers of the round accept. */
  function GetNextBlockTimestamp(roundStartTime: nat, previous: nat, t: Timeouts, round: nat): (r: Option<nat>)
    ensures r.Some? <==> round <= 100_000
    ensures forall timestamp :: r.Some? && timestamp >= r.value <==>
      timestamp >= roundStartTime + t.blockPrepareTime && IsTimely(timestamp, previous, t, round)
  {
    match CalculateMinimalTimestamp(previous, t, round)
    case None => None
    case Some(minimal) =>
      Some(if roundStartTime + t.blockPrepareTime > minimal then roundStartTime + t.blockPrepareTime else minimal)
  }

  lemma Stretch(a: nat, p: int)
    ensures a * p * (p + 1) == a * (p - 1) * p + 2 * (a * p)
  {
    var x := a * p;
    assert x * (p + 1) == x * p + x;
    assert a * (p - 1) == x - a;
    assert a * (p - 1) * p == x * p - a * p;
  }

  /** A multiple of a product of consecutive numbers is even. */
  lemma {:induction false} HalvesExactly(a: nat, p: nat)
    ensures (a * p * (p + 1)) % 2 == 0
    ensures p > 0 ==> a * p * (p + 1) / 2 == a * (p - 1) * p / 2 + a * p
  {
    if p > 0 {
      HalvesExactly(a, p - 1);
      Stretch(a, p);
    } else {
      assert a * 0 * 1 == 0;
    }
  }

  lemma IncreasesStep(a: nat, round: nat)
    ensures round > 0 ==> Increases(a, round) == Increases(a, round - 1) + (round - 1) * a
    ensures round == 0 ==> Increases(a, round) == 0
  {
    assert a * 0 * 1 == 0;
    if round > 0 {
      HalvesExactly(a, round - 1);
    }
  }

  /** Nothing is lost in the division by two. */
  lemma IncreasesAreExact(a: nat, round: nat)
    ensures 2 * Increases(a, round) == a * PreviousRounds(round) * (PreviousRounds(round) + 1)
  {
    HalvesExactly(a, PreviousRounds(round));
  }

  lemma OneMore(k: nat, x: nat)
    ensures (k + 1) * x == k * x + x
  {
  }

  /** The minimal timestamp of a round is the previous timestamp, the block time and the timeouts of all rounds
      before. */
  lemma {:induction false} MinimalTimestampIs(previous: nat, t: Timeouts, round: nat)
    requires round <= MAX_ROUND
    ensures CalculateMinimalTimestamp(previous, t, round) == Some(previous + t.blockTime + SumOfTimeouts(t, round))
  {
    hide Increases;
    IncreasesStep(t.stageTimeoutIncrease, round);
    if round == 0 {
    } else {
      MinimalTimestampIs(previous, t, round - 1);
      OneMore(round - 1, t.stageTimeout);
    }
  }

  // Doubles

  const TWO_53: nat := 0x20_0000_0000_0000

  /** What is left of a number after halving it as often as it goes. */
  function OddPart(n: nat): (r: nat)
    ensures r <= n && (n > 0 ==> r > 0)
  {
    if n > 0 && n % 2 == 0 then OddPart(n / 2) else n
  }

  /** The integers that are doubles: 53 bits and a power of two. */
  predicate IsDouble(n: nat) {
    OddPart(n) < TWO_53
  }

  /** Every way of rounding to doubles: it gives a double and leaves doubles alone. */
  ghost predicate RoundsToDoubles(rounded: nat -> nat) {
    forall n :: IsDouble(rounded(n)) && (IsDouble(n) ==> rounded(n) == n)
  }

  /** The increases as they are computed, each product rounded. Halving a double and taking the floor loses nothing
      else. */
  function DoubleIncreases(rounded: nat -> nat, a: nat, round: nat): nat {
    rounded(rounded(a * PreviousRounds(round)) * (PreviousRounds(round) + 1)) / 2
  }

  lemma HalfOfProduct(x: nat, y: nat)
    requires x % 2 == 0
    ensures (x * y) % 2 == 0 && x * y / 2 == x / 2 * y
  {
    assert x == 2 * (x / 2);
    assert x * y == 2 * (x / 2 * y);
  }

  lemma OddTimesOdd(x: nat, y: nat)
    requires x % 2 == 1 && y % 2 == 1
    ensures (x * y) % 2 == 1
  {
    assert x == 2 * (x / 2) + 1;
    assert x * y == 2 * (x / 2 * y) + y;
  }

  lemma {:induction false} OddPartOfProduct(x: nat, y: nat)
    requires x > 0 && y > 0
    ensures x * y > 0 && OddPart(x * y) == OddPart(x) * OddPart(y)
  {
    assert x * y > 0;
    if x % 2 == 0 {
      HalfOfProduct(x, y);
      OddPartOfProduct(x / 2, y);
    } else if y % 2 == 0 {
      HalfOfProduct(y, x);
      assert x * y == y * x && x * (y / 2) == y / 2 * x;
      OddPartOfProduct(x, y / 2);
    } else {
      OddTimesOdd(x, y);
    }
  }

  lemma Monotone(x: nat, y: nat, u: nat, v: nat)
    requires x <= y && u <= v
    ensures x * u <= y * v
  {
    assert x * u <= y * u && y * u <= y * v;
  }

  lemma HalfBounds(n: nat, half: nat)
    requires n == 2 * half && half > 0
    ensures OddPart(n) <= half
  {
  }

  /** The largest odd part of a product of consecutive numbers up to the last round is that of 99998 and 99999. */
  const LARGEST := 49_999 * 99_999

  lemma OddPartsOfRounds(p: nat)
    requires p < MAX_ROUND
    ensures OddPart(p * (p + 1)) <= LARGEST
  {
    if p == 0 {
      assert p * (p + 1) == 0;
    } else if p == 99_999 {
      HalfBounds(99_999 * 100_000, 99_999 * 50_000);
      HalfBounds(99_999 * 50_000, 99_999 * 25_000);
      assert OddPart(99_999 * 100_000) == OddPart(99_999 * 50_000);
    } else {
      HalvesExactly(1, p);
      hide OddPart;
      Monotone(p, 99_998, p + 1, 99_999);
      assert 1 * p * (p + 1) == p * (p + 1) && p * (p + 1) > 0;
      HalfBounds(p * (p + 1), p * (p + 1) / 2);
    }
  }

  const INCREASE_LIMIT := 1_801_493

  lemma Associates(a: nat, p: nat)
    ensures a * p * (p + 1) == a * (p * (p + 1))
  {
  }

  lemma ProductsAreDoubles(a: nat, p: nat)
    requires OddPart(a) <= INCREASE_LIMIT && p < MAX_ROUND
    ensures IsDouble(a * p) && IsDouble(a * p * (p + 1))
  {
    Associates(a, p);
    if a == 0 || p == 0 {
      assert a * p == 0 && a * (p * (p + 1)) == 0;
    } else {
      hide OddPart;
      var q := p * (p + 1);
      assert q > 0;
      OddPartOfProduct(a, p);
      OddPartOfProduct(a, q);
      OddPartsOfRounds(p);
      Monotone(OddPart(a), INCREASE_LIMIT, OddPart(p), MAX_ROUND);
      Monotone(OddPart(a), INCREASE_LIMIT, OddPart(q), LARGEST);
    }
  }

  lemma OddPartOfTwice(n: nat)
    requires n % 2 == 1
    ensures OddPart(2 * n) == n
  {
  }

  lemma LastProduct(a: nat)
    ensures a * 99_998 * 99_999 == a * (2 * LARGEST)
  {
  }

  lemma LastIsInexact(a: nat)
    requires OddPart(a) > INCREASE_LIMIT
    ensures !IsDouble(a * (2 * LARGEST)) && a * (2 * LARGEST) > TWO_53
  {
    hide OddPart;
    var largest: nat := LARGEST;
    OddPartOfTwice(largest);
    OddPartOfProduct(a, 2 * largest);
    Monotone(INCREASE_LIMIT + 1, OddPart(a), largest, largest);
    assert (INCREASE_LIMIT + 1) * largest > TWO_53;
  }

  /** A double cannot stand for an even number that is none, not even after halving. */
  lemma NotHalfOf(x: nat, c: nat)
    requires x % 2 == 0 && x > TWO_53 && !IsDouble(x) && IsDouble(c)
    ensures c / 2 != x / 2
  {
  }

  /** However products are rounded, the increases of every round up to the last are exact if and only if the odd part of
      the increase from round to round is at most 1801493; so they are below that number, and for powers of two. */
  lemma IncreasesAreExactDoubles(rounded: nat -> nat, a: nat)
    requires RoundsToDoubles(rounded)
    ensures (forall round: nat :: round <= MAX_ROUND ==> DoubleIncreases(rounded, a, round) == Increases(a, round)) <==>
      OddPart(a) <= INCREASE_LIMIT
  {
    if OddPart(a) <= INCREASE_LIMIT {
      forall round: nat | round <= MAX_ROUND ensures DoubleIncreases(rounded, a, round) == Increases(a, round) {
        ProductsAreDoubles(a, PreviousRounds(round));
      }
    } else {
      LastProduct(a);
      LastIsInexact(a);
      HalvesExactly(a, 99_998);
      NotHalfOf(a * 99_998 * 99_999, rounded(rounded(a * 99_998) * 99_999));
      assert DoubleIncreases(rounded, a, 99_999) != Increases(a, 99_999);
    }
  }
}
