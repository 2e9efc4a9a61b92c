/** IsStraight, IsStraightFlush and IsRoyalFlush of PokerHandEvaluator.cs and
    the best-card lists built on them (DetermineStraightCards,
    DetermineStraightFlushCards, DetermineRoyalFlushCards). Unlike the Has*
    tests they look at every card of the hand, wild or not, and they compare
    HighValue even where the hand was ordered by Value. */
module StraightLists {
  import opened Outcomes
  import opened Sequences
  import opened Cards
  import opened HandTests

  /** Each card's HighValue is one more than the one before it. */
  predicate Consecutive(s: seq<PlayingCard>) {
    forall i :: 1 <= i < |s| ==> HighValue(s[i].value) == HighValue(s[i - 1].value) + 1
  }

  /** sortedHand.All(card => card.Suit == sortedHand[0].Suit): true of an
      empty list without reading sortedHand[0]. */
  predicate SameSuit(s: seq<PlayingCard>) {
    forall i :: 0 <= i < |s| ==> s[i].suit == s[0].suit
  }

  function HighValues(s: seq<PlayingCard>): seq<int> {
    seq(|s|, i requires 0 <= i < |s| => HighValue(s[i].value))
  }

  /** A list is consecutive exactly when its HighValues climb from the first
      one by one per position. */
  lemma {:induction false} ConsecutiveSpan(s: seq<PlayingCard>)
    requires |s| > 0
    ensures Consecutive(s) <==> forall i :: 0 <= i < |s| ==> HighValue(s[i].value) == HighValue(s[0].value) + i
    decreases |s|
  {
    if |s| > 1 {
      var t := s[..|s| - 1];
      ConsecutiveSpan(t);
      assert forall i :: 0 <= i < |t| ==> t[i] == s[i];
      assert Consecutive(s) <==> Consecutive(t) && HighValue(s[|s| - 1].value) == HighValue(s[|s| - 2].value) + 1;
    }
  }

  /** A consecutive list's HighValues strictly increase. */
  lemma ConsecutiveIncreases(p: seq<PlayingCard>)
    requires Consecutive(p)
    ensures forall i, j :: 0 <= i < j < |p| ==> HighValueOf(p[i]) < HighValueOf(p[j])
  {
    if |p| > 0 {
      ConsecutiveSpan(p);
    }
  }

  /** PokerHandEvaluator.IsStraight. */
  method IsStraight(sortedHand: seq<PlayingCard>) returns (b: bool)
    ensures b == Consecutive(sortedHand)
  {
    var i := 1;
    while i < |sortedHand|
      invariant i == 1 || i <= |sortedHand|
      invariant forall k :: 1 <= k < i && k < |sortedHand| ==>
                  HighValue(sortedHand[k].value) == HighValue(sortedHand[k - 1].value) + 1
    {
      if HighValue(sortedHand[i].value) != HighValue(sortedHand[i - 1].value) + 1 {
        return false;
      }
      i := i + 1;
    }
    return true;
  }

  /** PokerHandEvaluator.IsStraightFlush. */
  method IsStraightFlush(sortedHand: seq<PlayingCard>) returns (b: bool)
    ensures b == (SameSuit(sortedHand) && Consecutive(sortedHand))
  {
    var sameSuit := forall i :: 0 <= i < |sortedHand| ==> sortedHand[i].suit == sortedHand[0].suit;
    if !sameSuit {
      return false;
    }
    b := IsStraight(sortedHand);
  }

  /** One suit and HighValues 10, 11, 12, ... by position. */
  predicate RoyalRun(s: seq<PlayingCard>) {
    |s| > 0 && SameSuit(s) && forall i :: 0 <= i < |s| ==> HighValue(s[i].value) == 10 + i
  }

  /** A straight flush whose lowest HighValue is 10 is a royal run, and a
      royal run is such a straight flush. */
  lemma RoyalRunMeaning(s: seq<PlayingCard>)
    requires |s| > 0
    ensures RoyalRun(s) <==> SameSuit(s) && Consecutive(s) && Min(HighValues(s)) == 10
  {
    ConsecutiveSpan(s);
    var hv := HighValues(s);
    if Consecutive(s) {
      var m := Min(hv);
      assert hv[0] in hv;
      var j :| 0 <= j < |hv| && hv[j] == m;
      assert m == hv[0];
    }
  }

  /** PokerHandEvaluator.IsRoyalFlush: Enumerable.Min throws on the empty
      list, which counts as a straight flush. */
  method IsRoyalFlush(sortedHand: seq<PlayingCard>) returns (r: Result<bool>)
    ensures |sortedHand| == 0 ==> r == Err(InvalidOperation)
    ensures |sortedHand| > 0 ==> r == Ok(RoyalRun(sortedHand))
  {
    var straightFlush := IsStraightFlush(sortedHand);
    if !straightFlush {
      if |sortedHand| > 0 {
        RoyalRunMeaning(sortedHand);
      }
      return Ok(false);
    }
    if |sortedHand| == 0 {
      return Err(InvalidOperation);
    }
    RoyalRunMeaning(sortedHand);
    return Ok(Min(HighValues(sortedHand)) == 10);
  }

  /** DetermineStraightCards: the hand ordered by HighValue, else by Value,
      whichever is consecutive; otherwise nothing. */
  function StraightCards(hand: seq<PlayingCard>): seq<PlayingCard> {
    var byHighValue := SortBy(hand, HighValueOf);
    if Consecutive(byHighValue) then byHighValue
    else
      var byValue := SortBy(hand, ValueOf);
      if Consecutive(byValue) then byValue else []
  }

  /** DetermineStraightFlushCards: as StraightCards, with one suit as well. */
  function StraightFlushCards(hand: seq<PlayingCard>): seq<PlayingCard> {
    var byHighValue := SortBy(hand, HighValueOf);
    if SameSuit(byHighValue) && Consecutive(byHighValue) then byHighValue
    else
      var byValue := SortBy(hand, ValueOf);
      if SameSuit(byValue) && Consecutive(byValue) then byValue else []
  }

  /** DetermineRoyalFlushCards: the hand ordered by HighValue when it is a
      royal run, otherwise nothing; an empty hand throws. */
  function RoyalFlushCards(hand: seq<PlayingCard>): Result<seq<PlayingCard>> {
    var byHighValue := SortBy(hand, HighValueOf);
    if |byHighValue| == 0 then Err(InvalidOperation)
    else if RoyalRun(byHighValue) then Ok(byHighValue)
    else Ok([])
  }

  /** The lists answer whether the hand can be laid out as a run: each is
      the hand's one consecutive ordering when there is one (the Value
      ordering never finds one the HighValue ordering missed) and empty
      otherwise. */
  lemma StraightCardsMeaning(hand: seq<PlayingCard>, p: seq<PlayingCard>)
    requires multiset(p) == multiset(hand)
    ensures Consecutive(p) ==> StraightCards(hand) == p
    ensures SameSuit(p) && Consecutive(p) ==> StraightFlushCards(hand) == p
    ensures StraightCards(hand) == if Consecutive(SortBy(hand, HighValueOf)) then SortBy(hand, HighValueOf) else []
    ensures StraightFlushCards(hand) ==
              var byHighValue := SortBy(hand, HighValueOf);
              if SameSuit(byHighValue) && Consecutive(byHighValue) then byHighValue else []
  {
    var byHighValue := SortBy(hand, HighValueOf);
    var byValue := SortBy(hand, ValueOf);
    if Consecutive(p) {
      ConsecutiveIncreases(p);
      SortedUnique(p, byHighValue, HighValueOf);
    }
    if Consecutive(byValue) {
      ConsecutiveIncreases(byValue);
      SortedUnique(byValue, byHighValue, HighValueOf);
    }
  }

  /** What DetermineStraightCards returns, when anything: all of the hand's
      cards, in a HighValue run. */
  lemma StraightCardsShape(hand: seq<PlayingCard>)
    ensures StraightCards(hand) != [] ==>
              multiset(StraightCards(hand)) == multiset(hand) && Consecutive(StraightCards(hand))
    ensures StraightFlushCards(hand) != [] ==>
              multiset(StraightFlushCards(hand)) == multiset(hand) &&
              SameSuit(StraightFlushCards(hand)) && Consecutive(StraightFlushCards(hand))
  {
    StraightCardsMeaning(hand, hand);
  }

  /** DetermineRoyalFlushCards returns the hand laid out as a royal run
      exactly when it can be laid out as one. */
  lemma RoyalFlushCardsMeaning(hand: seq<PlayingCard>, p: seq<PlayingCard>)
    requires multiset(p) == multiset(hand)
    ensures RoyalFlushCards(hand).Err? <==> |hand| == 0
    ensures RoyalRun(p) ==> RoyalFlushCards(hand) == Ok(p)
    ensures RoyalFlushCards(hand).Ok? && RoyalFlushCards(hand).value != [] ==>
              RoyalRun(RoyalFlushCards(hand).value) &&
              multiset(RoyalFlushCards(hand).value) == multiset(hand)
  {
    var byHighValue := SortBy(hand, HighValueOf);
    if RoyalRun(p) {
      ConsecutiveSpan(p);
      ConsecutiveIncreases(p);
      SortedUnique(p, byHighValue, HighValueOf);
    }
  }

  /** PokerHandEvaluator.DetermineStraightCards. */
  method DetermineStraightCards(hand: seq<PlayingCard>) returns (r: seq<PlayingCard>)
    ensures r == StraightCards(hand)
  {
    var sortedHand := SortBy(hand, HighValueOf);
    var straight := IsStraight(sortedHand);
    if straight {
      return sortedHand;
    }
    sortedHand := SortBy(hand, ValueOf);
    straight := IsStraight(sortedHand);
    if straight {
      return sortedHand;
    }
    return [];
  }

  /** PokerHandEvaluator.DetermineStraightFlushCards. */
  method DetermineStraightFlushCards(hand: seq<PlayingCard>) returns (r: seq<PlayingCard>)
    ensures r == StraightFlushCards(hand)
  {
    var sortedHand := SortBy(hand, HighValueOf);
    var straightFlush := IsStraightFlush(sortedHand);
    if straightFlush {
      return sortedHand;
    }
    sortedHand := SortBy(hand, ValueOf);
    straightFlush := IsStraightFlush(sortedHand);
    if straightFlush {
      return sortedHand;
    }
    return [];
  }

  /** PokerHandEvaluator.DetermineRoyalFlushCards. */
  method DetermineRoyalFlushCards(hand: seq<PlayingCard>) returns (r: Result<seq<PlayingCard>>)
    ensures r == RoyalFlushCards(hand)
  {
    var sortedHand := SortBy(hand, HighValueOf);
    var royal := IsRoyalFlush(sortedHand);
    if royal.Err? {
      return Err(royal.error);
    }
    if royal.value {
      return Ok(sortedHand);
    }
    return Ok([]);
  }
}
