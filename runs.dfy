/** The straight tests of PokerHandEvaluator.cs. Both scan a strictly
    increasing list of values from every start position, extending a run one
    value at a time and bridging a gap with wild cards only while the wild
    cards spent so far plus the gap stay within the supply. The straight-flush
    helper (HasStraightWithWilds) stops as soon as count plus wilds spent
    reaches 5; the plain straight test (HasStraight) extends each run as far as
    the wild cards allow and then asks for 6. */
module Runs {
  import opened Sequences

  /** The wild cards a run from position i to position e must spend: the
      values it spans minus the values present. */
  function Gaps(v: seq<int>, i: int, e: int): int
    requires 0 <= i <= e < |v|
  {
    (v[e] - v[i]) - (e - i)
  }

  /** The scan's verdict in closed form: from some start below `starts`, some
      end e is reachable within the wild supply (every gap on the way bridged),
      and the count the source computes there, 1 + span, plus the wild cards
      spent, reaches the threshold. */
  predicate RunExists(v: seq<int>, wilds: int, starts: int, threshold: int)
    requires Increasing(v)
  {
    exists i, e :: 0 <= i < starts && i <= e < |v| && Gaps(v, i, e) <= wilds &&
                   1 + (v[e] - v[i]) + Gaps(v, i, e) >= threshold
  }

  /** In a strictly increasing list, values spread at least as far as positions. */
  lemma {:induction false} SpreadAtLeastDistance(v: seq<int>, a: int, b: int)
    requires Increasing(v)
    requires 0 <= a <= b < |v|
    ensures v[b] - v[a] >= b - a
    decreases b - a
  {
    if a < b {
      SpreadAtLeastDistance(v, a, b - 1);
      assert v[b - 1] < v[b];
    }
  }

  /** Extending a run never lowers its span nor the wild cards it needs. */
  lemma RunMonotone(v: seq<int>, i: int, e1: int, e2: int)
    requires Increasing(v)
    requires 0 <= i <= e1 <= e2 < |v|
    ensures Gaps(v, i, e1) <= Gaps(v, i, e2)
    ensures v[e1] <= v[e2]
    ensures Gaps(v, i, i) == 0
  {
    SpreadAtLeastDistance(v, e1, e2);
  }

  /** HasStraightWithWilds' nested loops, for one list of sorted distinct values. */
  method SuitedRunScan(sortedValues: seq<int>, wildCount: nat) returns (found: bool)
    requires Increasing(sortedValues)
    ensures found == RunExists(sortedValues, wildCount, |sortedValues| - 4, 5)
  {
    var n := |sortedValues|;
    var i := 0;
    while i < n - 4
      invariant 0 <= i
      invariant forall i', e :: 0 <= i' < i && i' <= e < n && Gaps(sortedValues, i', e) <= wildCount ==>
                  1 + (sortedValues[e] - sortedValues[i']) + Gaps(sortedValues, i', e) < 5
    {
      var consecutiveCount := 1;
      var wildsUsed := 0;
      var j := i;
      var stop := false;
      while j < n - 1 && !stop
        invariant i <= j <= n - 1
        invariant consecutiveCount == 1 + sortedValues[j] - sortedValues[i]
        invariant wildsUsed == Gaps(sortedValues, i, j) && wildsUsed <= wildCount
        invariant stop ==> j + 1 < n && Gaps(sortedValues, i, j + 1) > wildCount
        decreases n - j, if stop then 0 else 1
        invariant forall e :: i <= e <= j ==> 1 + (sortedValues[e] - sortedValues[i]) + Gaps(sortedValues, i, e) < 5
      {
        if sortedValues[j + 1] == sortedValues[j] + 1 {
          consecutiveCount := consecutiveCount + 1;
          j := j + 1;
        } else {
          // the values are distinct, so the source's test sortedValues[j + 1] != sortedValues[j] holds here
          var gap := sortedValues[j + 1] - sortedValues[j] - 1;
          if wildsUsed + gap <= wildCount {
            wildsUsed := wildsUsed + gap;
            consecutiveCount := consecutiveCount + gap + 1;
            j := j + 1;
          } else {
            stop := true;
          }
        }
        if !stop && consecutiveCount + wildsUsed >= 5 {
          return true;
        }
      }
      // The source tests consecutiveCount + wildsUsed >= 5 once more here; every
      // count reached was already tested inside the loop, so that test fails.
      forall e | j < e < n && Gaps(sortedValues, i, e) <= wildCount
        ensures false
      {
        RunMonotone(sortedValues, i, j + 1, e);
      }
      i := i + 1;
    }
    return false;
  }

  /** HasStraight's local HasStraightWithWilds: every start, each run extended
      as far as the wild cards allow, then a threshold of 6. */
  method RunScan(values: seq<int>, availableWilds: nat) returns (found: bool)
    requires Increasing(values)
    ensures found == RunExists(values, availableWilds, |values|, 6)
  {
    var n := |values|;
    for i := 0 to n
      invariant forall i', e :: 0 <= i' < i && i' <= e < n && Gaps(values, i', e) <= availableWilds ==>
                  1 + (values[e] - values[i']) + Gaps(values, i', e) < 6
    {
      var consecutiveCount := 1;
      var wildsUsed := 0;
      var j := i;
      var stop := false;
      while j < n - 1 && !stop
        invariant i <= j <= n - 1
        invariant consecutiveCount == 1 + values[j] - values[i]
        invariant wildsUsed == Gaps(values, i, j) && wildsUsed <= availableWilds
        invariant stop ==> j + 1 < n && Gaps(values, i, j + 1) > availableWilds
        decreases n - j, if stop then 0 else 1
      {
        if values[j + 1] == values[j] + 1 {
          consecutiveCount := consecutiveCount + 1;
          j := j + 1;
        } else {
          var gap := values[j + 1] - values[j] - 1;
          if wildsUsed + gap <= availableWilds {
            wildsUsed := wildsUsed + gap;
            consecutiveCount := consecutiveCount + gap + 1;
            j := j + 1;
          } else {
            stop := true;
          }
        }
      }
      if consecutiveCount + wildsUsed >= 6 {
        return true;
      }
      forall e | i <= e < n && Gaps(values, i, e) <= availableWilds
        ensures 1 + (values[e] - values[i]) + Gaps(values, i, e) < 6
      {
        if e > j {
          RunMonotone(values, i, j + 1, e);
        } else {
          RunMonotone(values, i, e, j);
        }
      }
    }
    return false;
  }


  /** The ace-high retry condition: an ace (1) among the values and a
      largest value of at least 10. */
  predicate AceHighRetry(sortedValues: seq<int>) {
    1 in sortedValues && exists x :: x in sortedValues && x >= 10
  }

  /** The values with the ace also counted high (14), distinct and ascending. */
  function WithAceHigh(sortedValues: seq<int>): (r: seq<int>)
    ensures Increasing(r)
    ensures forall y :: y in r <==> y in sortedValues || y == 14
  {
    Ascending(sortedValues + [14])
  }

  /** What HasStraightWithWilds answers for a suit group's values, when it
      answers: its first scan, or else the scan of the ace-high retry. */
  predicate SuitedStraight(values: seq<int>, wildCount: nat) {
    var sortedValues := Ascending(values);
    var high := WithAceHigh(sortedValues);
    RunExists(sortedValues, wildCount, |sortedValues| - 4, 5) ||
    (AceHighRetry(sortedValues) && RunExists(high, wildCount, |high| - 4, 5))
  }

  /** HasStraightWithWilds returns: its first scan succeeds, or it does not
      retry, or the retry's scan succeeds. Otherwise the retry, whose values
      already hold 1 and 14, retries with the same values forever. */
  predicate SuitedScanEnds(values: seq<int>, wildCount: nat) {
    var sortedValues := Ascending(values);
    var high := WithAceHigh(sortedValues);
    RunExists(sortedValues, wildCount, |sortedValues| - 4, 5) ||
    !AceHighRetry(sortedValues) || RunExists(high, wildCount, |high| - 4, 5)
  }

  /** PokerHandEvaluator.HasStraightWithWilds on the values of a suit group's
      cards (only their values are read) and the number of wild cards. */
  method HasStraightWithWilds(suitedValues: seq<int>, wildCount: nat) returns (b: bool)
    requires SuitedScanEnds(suitedValues, wildCount)
    ensures b == SuitedStraight(suitedValues, wildCount)
    decreases if RunExists(Ascending(suitedValues), wildCount, |Ascending(suitedValues)| - 4, 5) then 0 else 1
  {
    var sortedValues := Ascending(suitedValues);
    b := SuitedRunScan(sortedValues, wildCount);
    if !b && AceHighRetry(sortedValues) {
      var high := WithAceHigh(sortedValues);
      IncreasingUnique(Ascending(high), high);
      b := HasStraightWithWilds(high, wildCount);
    }
  }

  /** Five consecutive values of one suit are a straight flush with any
      number of wild cards. */
  lemma ConsecutiveSuitedRun(v: seq<int>, i: int, wildCount: nat)
    requires Increasing(v)
    requires 0 <= i && i + 4 < |v| && v[i + 4] == v[i] + 4
    ensures RunExists(v, wildCount, |v| - 4, 5)
  {
    assert Gaps(v, i, i + 4) == 0;
  }

  /** Example: the ace-high retry can turn a run ending at the king into a
      straight: 10, J, Q, K of one suit and an ace of that suit, no wild
      cards. */
  lemma AceHighStraightFlush(values: seq<int>)
    requires values == [1, 10, 11, 12, 13]
    ensures SuitedStraight(values, 0)
    ensures !RunExists(Ascending(values), 0, 1, 5)
  {
    AceHighValues(values);
    var high := values + [14];
    assert Gaps(high, 1, 5) == 0;
    assert AceHighRetry(values) by {
      assert values[1] in values;
    }
    forall e | 0 <= e < |values|
      ensures Gaps(values, 0, e) > 0 || 1 + (values[e] - values[0]) < 5
    {
    }
  }

  /** The ordered values of that suit group, without and with the ace high. */
  lemma AceHighValues(values: seq<int>)
    requires values == [1, 10, 11, 12, 13]
    ensures Ascending(values) == values
    ensures WithAceHigh(values) == values + [14]
  {
    assert Increasing(values);
    IncreasingUnique(Ascending(values), values);
    var withAce := values + [14];
    assert Increasing(withAce);
    IncreasingUnique(WithAceHigh(values), withAce);
  }

  /** With no wild cards a run's worth is the number of consecutive values
      it covers. */
  lemma RunWithoutWilds(v: seq<int>, i: int, e: int)
    requires Increasing(v)
    requires 0 <= i <= e < |v| && Gaps(v, i, e) <= 0
    ensures 1 + (v[e] - v[i]) + Gaps(v, i, e) == e - i + 1
  {
    RunMonotone(v, i, i, e);
  }

  /** Without wild cards, a run worth 6 needs six values. */
  lemma NoRunOfSixInFive(v: seq<int>)
    requires Increasing(v) && |v| <= 5
    ensures !RunExists(v, 0, |v|, 6)
  {
    forall i, e | 0 <= i <= e < |v| && Gaps(v, i, e) <= 0
      ensures 1 + (v[e] - v[i]) + Gaps(v, i, e) < 6
    {
      RunWithoutWilds(v, i, e);
    }
  }

  /** Six values holding both 1 and 14 are never six consecutive values. */
  lemma NoRunOfSixAcrossTheAce(v: seq<int>)
    requires Increasing(v) && |v| <= 6
    requires 1 in v && 14 in v
    ensures !RunExists(v, 0, |v|, 6)
  {
    var lo :| 0 <= lo < |v| && v[lo] == 1;
    var hi :| 0 <= hi < |v| && v[hi] == 14;
    assert v[0] <= 1 && v[|v| - 1] >= 14;
    forall i, e | 0 <= i <= e < |v| && Gaps(v, i, e) <= 0
      ensures 1 + (v[e] - v[i]) + Gaps(v, i, e) < 6
    {
      RunWithoutWilds(v, i, e);
    }
  }

  /** Example: HasStraight counts a wild card only where it bridges a gap: four
      consecutive naturals and one wild card fall short, while the same
      five cards with the gap inside make it. */
  lemma WildsCountOnlyInGaps()
    ensures !RunExists([4, 5, 6, 7], 1, 4, 6)
    ensures RunExists([4, 5, 7, 8], 1, 4, 6)
  {
    var v := [4, 5, 7, 8];
    assert Gaps(v, 0, 3) == 1;
  }
}
