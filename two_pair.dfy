/** DetermineTwoPairCards of PokerHandEvaluator.cs: two natural pairs when the
    hand has them, otherwise single natural cards each matched with a wild
    card by a loop over the value groups. */
module TwoPairs {
  import opened Sequences
  import opened Cards
  import opened HandTests
  import opened BestCards
  import opened SingleMatching

  /** The value groups of the natural cards, by key. */
  function ValueGroup(naturals: seq<PlayingCard>): int -> seq<PlayingCard> {
    v => WithValue(naturals, v)
  }

  /** The closed form of DetermineTwoPairCards: the two natural pairs of
      highest value and one kicker; otherwise, when there are at least two
      wild cards and two singles, the first two singles in grouping order,
      each followed by the first wild card (the same card twice), and one
      kicker; otherwise nothing. */
  function TwoPairCards(hand: seq<PlayingCard>): seq<PlayingCard> {
    var naturals := Naturals(hand);
    var pairs := Descending(GroupsOfSize(naturals, 2));
    if |pairs| >= 2 then
      var topTwoPairs := WithValue(naturals, pairs[0]) + WithValue(naturals, pairs[1]);
      topTwoPairs + Top(Except(hand, topTwoPairs), ValueOf, 1)
    else
      var singles := GroupsOfSize(naturals, 1);
      if WildCount(hand) >= 2 && |singles| >= 2 then
        var bestTwoPairs := MatchedSingles(ValueGroup(naturals), Wilds(hand), singles[..2]);
        bestTwoPairs + Top(Except(hand, bestTwoPairs), ValueOf, 1)
      else
        []
  }

  /** Among the value groups, the singles are KeysOfSize(naturals, keys, 1). */
  lemma {:induction false} SinglesAreKeysOfSize(naturals: seq<PlayingCard>, keys: seq<int>)
    ensures SinglesAmong(keys, ValueGroup(naturals)) == KeysOfSize(naturals, keys, 1)
    decreases |keys|
  {
    if |keys| > 0 {
      var n := |keys|;
      SinglesAreKeysOfSize(naturals, keys[..n - 1]);
      assert keys == keys[..n - 1] + [keys[n - 1]];
      WhereAppend(keys[..n - 1], [keys[n - 1]], v => ValueCount(naturals, v) == 1);
    }
  }

  /** PokerHandEvaluator.DetermineTwoPairCards. */
  method DetermineTwoPairCards(hand: seq<PlayingCard>) returns (r: seq<PlayingCard>)
    ensures r == TwoPairCards(hand)
  {
    var naturals := Naturals(hand);
    var pairs := Descending(GroupsOfSize(naturals, 2));
    if |pairs| >= 2 {
      var topTwoPairs := WithValue(naturals, pairs[0]) + WithValue(naturals, pairs[1]);
      return topTwoPairs + Top(Except(hand, topTwoPairs), ValueOf, 1);
    }
    var groupedByValue := ValueKeys(naturals);
    var bestTwoPairs, wildCount := MatchSingles(groupedByValue, ValueGroup(naturals), Wilds(hand));
    SinglesAreKeysOfSize(naturals, groupedByValue);
    if |bestTwoPairs| < 4 && wildCount > 0 {
      if |pairs| > 0 {
        GroupOfSize(hand, pairs[0], 2);
        bestTwoPairs := bestTwoPairs + WithValue(naturals, pairs[0]);
        wildCount := wildCount - 1;
        if |Wilds(hand)| > 0 {
          bestTwoPairs := bestTwoPairs + [Wilds(hand)[0]];
        }
      }
    }
    if |bestTwoPairs| == 4 {
      return bestTwoPairs + Top(Except(hand, bestTwoPairs), ValueOf, 1);
    }
    return [];
  }
}
