/** The vote thresholds of the consensus and why they work. */
module Quorum {
  import opened Arithmetic

  predicate IsMajority(size: int, roundValidators: int) {
    size * 3 > roundValidators * 2
  }

  predicate IsMinority(size: int, roundValidators: int) {
    size * 3 > roundValidators
  }

  // What the thresholds are

  /** A set is +2/3 if and only if fewer than a third are outside it: so all validators but a tolerable number of faulty
      ones are always enough, and never one fewer than that. */
  lemma MajorityIffTolerated(n: nat, outside: nat)
    requires outside <= n
    ensures IsMajority(n - outside, n) <==> 3 * outside < n
  {
  }

  /** More than a third is more than any number that is at most a third. */
  lemma MinorityIffMoreThanThird(n: nat, size: nat)
    ensures IsMinority(size, n) <==> forall third: nat :: 3 * third <= n ==> third < size
  {
    if !IsMinority(size, n) {
      assert 3 * size <= n;
    }
  }

  /** Every member is an index of one of the `n` round validators. */
  ghost predicate Below(a: set<nat>, n: nat) {
    forall i :: i in a ==> i < n
  }

  lemma {:induction false} BelowCount(a: set<nat>, n: nat)
    requires Below(a, n)
    ensures |a| <= n
  {
    if n == 0 {
      assert a == {};
    } else {
      BelowCount(a - {n - 1}, n - 1);
    }
  }

  /** Two +2/3 sets of the same `n` validators share a validator outside any set of fewer than a third. */
  lemma MajoritiesShareCorrect(n: nat, a: set<nat>, b: set<nat>, faulty: set<nat>) returns (i: nat)
    requires Below(a, n) && Below(b, n)
    requires IsMajority(|a|, n) && IsMajority(|b|, n)
    requires 3 * |faulty| < n
    ensures i in a && i in b && i !in faulty
  {
    BelowCount(a + b, n);
    assert |a + b| == |a| + |b| - |a * b|;
    if a * b <= faulty {
      SubsetCount(a * b, faulty);
      assert false;
    }
    i :| i in a * b && i !in faulty;
  }

  /** An f+1 set always holds a validator outside any set of fewer than a third. */
  lemma MinorityHoldsCorrect(n: nat, a: set<nat>, faulty: set<nat>) returns (i: nat)
    requires IsMinority(|a|, n)
    requires 3 * |faulty| < n
    ensures i in a && i !in faulty
  {
    if a <= faulty {
      SubsetCount(a, faulty);
      assert false;
    }
    i :| i in a && i !in faulty;
  }

  /** The validators from `start` to before `end`. */
  ghost function Range(start: nat, end: nat): (r: set<nat>)
    ensures forall i: nat :: i in r <==> start <= i < end
  {
    if start >= end then {} else Range(start, end - 1) + {end - 1}
  }

  lemma {:induction false} RangeCount(start: nat, end: nat)
    requires start <= end
    ensures |Range(start, end)| == end - start
  {
    if start == end {
      assert Range(start, end) == {};
    } else {
      RangeCount(start, end - 1);
      assert Range(start, end) == Range(start, end - 1) + {end - 1};
    }
  }

  /** Sets of `size` validators out of `n` that have only faulty ones in common, fewer than a third. */
  ghost predicate Splits(n: nat, size: nat, a: set<nat>, b: set<nat>, faulty: set<nat>) {
    && Below(a, n) && Below(b, n) && Below(faulty, n)
    && |a| == |b| == size && 3 * |faulty| < n && a * b <= faulty
  }

  ghost predicate CanSplit(n: nat, size: nat) {
    exists a, b, faulty :: Splits(n, size, a, b, faulty)
  }

  lemma SmallSetsSplit(n: nat, size: nat)
    requires 0 < n && size <= n && 3 * size < 2 * n
    ensures CanSplit(n, size)
  {
    hide Range;
    var a, b := Range(0, size), Range(n - size, n);
    RangeCount(0, size);
    RangeCount(n - size, n);
    var end := if n - size <= size then size else n - size;
    RangeCount(n - size, end);
    assert Splits(n, size, a, b, Range(n - size, end));
  }

  lemma LargeSetsMeet(n: nat, size: nat, a: set<nat>, b: set<nat>, faulty: set<nat>)
    requires Splits(n, size, a, b, faulty)
    ensures 3 * size < 2 * n
  {
    BelowCount(a + b, n);
    assert |a + b| == |a| + |b| - |a * b|;
    SubsetCount(a * b, faulty);
  }

  /** Two sets of one size can miss each other, but for faulty validators, if and only if they are less than two thirds:
      no smaller quorum would do. Sets of exactly two thirds still meet, although they are no majority. */
  lemma SplitsIffLess(n: nat, size: nat)
    requires 0 < n && size <= n
    ensures CanSplit(n, size) <==> 3 * size < 2 * n
  {
    hide Splits;
    if 3 * size < 2 * n {
      SmallSetsSplit(n, size);
    }
    if CanSplit(n, size) {
      var a, b, faulty :| Splits(n, size, a, b, faulty);
      LargeSetsMeet(n, size, a, b, faulty);
    }
  }

  lemma OutsideCount(n: nat, a: set<nat>, faulty: set<nat>)
    requires forall i: nat :: i < n && i !in faulty ==> i in a
    ensures |a| >= n - |faulty|
  {
    RangeCount(0, n);
    SubsetCount(Range(0, n), a + faulty);
  }

  /** All validators but fewer than a third of them are a majority. */
  lemma CorrectAreMajority(n: nat, a: set<nat>, faulty: set<nat>)
    requires 3 * |faulty| < n && forall i: nat :: i < n && i !in faulty ==> i in a
    ensures IsMajority(|a|, n)
  {
    OutsideCount(n, a, faulty);
  }

  /** A +2/3 set without its faulty members is still more than a third. */
  lemma CorrectShare(n: nat, a: set<nat>, faulty: set<nat>)
    requires IsMajority(|a|, n) && 3 * |faulty| < n
    ensures IsMinority(|a - faulty|, n)
  {
    SubsetCount(a * faulty, faulty);
    assert |a - faulty| == |a| - |a * faulty|;
  }

  /** Disjoint sets of the same `n` validators are never both a +2/3 majority. */
  lemma DisjointNotBothMajority(n: nat, a: set<nat>, b: set<nat>)
    requires Below(a, n) && Below(b, n) && a !! b
    ensures !(IsMajority(|a|, n) && IsMajority(|b|, n))
  {
    BelowCount(a + b, n);
    assert |a + b| == |a| + |b|;
  }
}
