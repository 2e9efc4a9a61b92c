/** The straight and straight-flush tests of PokerHandEvaluator.cs on hands:
    which values they scan (per suit group, or all natural values) and with
    how many wild cards. */
module Straights {
  import opened Sequences
  import opened Cards
  import opened HandTests
  import opened Runs

  /** The values of one natural suit group, ordered by value. */
  function SuitGroupValues(hand: seq<PlayingCard>, s: string): seq<int> {
    Values(SortBy(WithSuit(Naturals(hand), s), ValueOf))
  }

  /** Some natural suit group, helped by all of the hand's wild cards,
      completes a five-value run. */
  predicate StraightFlushSpec(hand: seq<PlayingCard>) {
    exists s :: s in SuitKeys(Naturals(hand)) && SuitedStraight(SuitGroupValues(hand, s), WildCount(hand))
  }

  /** HasStraightFlush returns: every suit group it reaches (all earlier
      groups having failed) is one on which HasStraightWithWilds returns. */
  predicate StraightFlushEnds(hand: seq<PlayingCard>) {
    var suits := SuitKeys(Naturals(hand));
    forall k :: 0 <= k < |suits| ==>
      (exists j :: 0 <= j < k && SuitedStraight(SuitGroupValues(hand, suits[j]), WildCount(hand))) ||
      SuitedScanEnds(SuitGroupValues(hand, suits[k]), WildCount(hand))
  }

  /** PokerHandEvaluator.HasStraightFlush: the suit groups in order of first
      appearance, each tested with all of the hand's wild cards. */
  method HasStraightFlush(hand: seq<PlayingCard>) returns (b: bool)
    requires StraightFlushEnds(hand)
    ensures b == StraightFlushSpec(hand)
  {
    var wildCount := WildCount(hand);
    var suits := SuitKeys(Naturals(hand));
    for k := 0 to |suits|
      invariant forall j :: 0 <= j < k ==> !SuitedStraight(SuitGroupValues(hand, suits[j]), wildCount)
    {
      var suitedCards := SortBy(WithSuit(Naturals(hand), suits[k]), ValueOf);
      var found := HasStraightWithWilds(Values(suitedCards), wildCount);
      if found {
        return true;
      }
    }
    return false;
  }

  /** Without an ace of value 1 no retry happens, so HasStraightFlush returns
      on every hand of deck cards, whose values run 2..14. */
  lemma StraightFlushEndsWithoutLowAce(hand: seq<PlayingCard>)
    requires forall c :: c in hand ==> c.value != 1
    ensures StraightFlushEnds(hand)
  {
    var suits := SuitKeys(Naturals(hand));
    forall k | 0 <= k < |suits|
      ensures SuitedScanEnds(SuitGroupValues(hand, suits[k]), WildCount(hand))
    {
      var group := SortBy(WithSuit(Naturals(hand), suits[k]), ValueOf);
      assert forall c :: c in group ==> c in hand by {
        forall c | c in group ensures c in hand {
          assert c in multiset(group);
          assert c in WithSuit(Naturals(hand), suits[k]);
        }
      }
      assert 1 !in Values(group) by {
        forall i | 0 <= i < |group| ensures Values(group)[i] != 1 {
          assert group[i] in group;
        }
      }
    }
  }


  /** The distinct natural values, taken from the naturals ordered by value. */
  function StraightValues(hand: seq<PlayingCard>): seq<int> {
    Values(SortBy(Naturals(hand), ValueOf))
  }

  /** What HasStraight answers: enough distinct natural values for five with
      the wild cards, and a run worth 6 among them, with the ace low or, when
      an ace is present, with 14 added. */
  predicate StraightSpec(hand: seq<PlayingCard>) {
    var cardValues := StraightValues(hand);
    var wildCount := WildCount(hand);
    var sortedValues := Ascending(cardValues);
    var high := WithAceHigh(sortedValues);
    |Distinct(cardValues)| >= 5 - wildCount as int &&
    (RunExists(sortedValues, wildCount, |sortedValues|, 6) ||
     (1 in sortedValues && RunExists(high, wildCount, |high|, 6)))
  }

  /** PokerHandEvaluator.HasStraight. When 14 is already among the values the
      source's ace-high list holds 14 twice; its scan skips a repeated value
      without counting it, so the model scans the list without the repeat. */
  method HasStraight(hand: seq<PlayingCard>) returns (b: bool)
    ensures b == StraightSpec(hand)
  {
    var nonWildCards := SortBy(Naturals(hand), ValueOf);
    var wildCount := WildCount(hand);
    var cardValues := Values(nonWildCards);
    if |Distinct(cardValues)| < 5 - wildCount as int {
      return false;
    }
    var sortedValues := Ascending(cardValues);
    b := RunScan(sortedValues, wildCount);
    if b {
      return;
    }
    if 1 in sortedValues {
      b := RunScan(WithAceHigh(sortedValues), wildCount);
    }
  }

  /** Because of the threshold of 6, five natural cards never make a straight
      for HasStraight, not even 2, 3, 4, 5, 6 or 10, J, Q, K, A. */
  lemma FiveNaturalsAreNoStraight(hand: seq<PlayingCard>)
    requires WildCount(hand) == 0 && |hand| <= 5
    ensures !StraightSpec(hand)
  {
    var cardValues := StraightValues(hand);
    var sortedValues := Ascending(cardValues);
    assert |Naturals(hand)| <= |hand|;
    NoRunOfSixInFive(sortedValues);
    if 1 in sortedValues {
      var high := WithAceHigh(sortedValues);
      assert |high| <= |sortedValues| + 1;
      NoRunOfSixAcrossTheAce(high);
    }
  }
}
