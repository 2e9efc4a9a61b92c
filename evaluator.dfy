/** The top level of PokerHandEvaluator.cs: the HandRank enum, EvaluateHand's
    cascade of tests, CalculateRankWeight, DetermineBestCards,
    EvaluateHandWeight and CompareHands. */
module Evaluator {
  import opened Outcomes
  import opened Sequences
  import opened Cards
  import opened HandTests
  import opened Straights
  import opened BestCards
  import opened TwoPairs
  import opened StraightLists
  import opened CardComparison

  datatype HandRank =
    | HighCard
    | OnePair
    | TwoPair
    | ThreeOfAKind
    | Straight
    | Flush
    | FullHouse
    | FourOfAKind
    | StraightFlush
    | RoyalFlush
    | FiveOfAKind

  /** The enum's underlying value, in declaration order. */
  function Ordinal(r: HandRank): nat {
    match r
    case HighCard => 0
    case OnePair => 1
    case TwoPair => 2
    case ThreeOfAKind => 3
    case Straight => 4
    case Flush => 5
    case FullHouse => 6
    case FourOfAKind => 7
    case StraightFlush => 8
    case RoyalFlush => 9
    case FiveOfAKind => 10
  }

  /** PokerHandEvaluator.CalculateRankWeight: a table that ignores the hand;
      the weights follow the enum's order, so a later rank always weighs
      more. The switch's default (0) has no rank to reach it. */
  function CalculateRankWeight(handRank: HandRank, hand: seq<PlayingCard>): (w: int)
    ensures w == Ordinal(handRank) + 1
  {
    match handRank
    case HighCard => 1
    case OnePair => 2
    case TwoPair => 3
    case ThreeOfAKind => 4
    case Straight => 5
    case Flush => 6
    case FullHouse => 7
    case FourOfAKind => 8
    case StraightFlush => 9
    case RoyalFlush => 10
    case FiveOfAKind => 11
  }

  /** The test EvaluateHand asks for each rank; HighCard needs none. */
  predicate Holds(hand: seq<PlayingCard>, r: HandRank) {
    match r
    case FiveOfAKind => HasFiveOfAKind(hand)
    case RoyalFlush => RoyalFlushSpec(hand)
    case StraightFlush => StraightFlushSpec(hand)
    case FourOfAKind => HasFourOfAKind(hand)
    case FullHouse => FullHouseSpec(hand)
    case Flush => HasFlush(hand)
    case Straight => StraightSpec(hand)
    case ThreeOfAKind => HasThreeOfAKind(hand)
    case TwoPair => HasTwoPair(hand)
    case OnePair => HasOnePair(hand)
    case HighCard => true
  }

  /** EvaluateHand's cascade, from FiveOfAKind down to OnePair. */
  function Classify(hand: seq<PlayingCard>): HandRank {
    if HasFiveOfAKind(hand) then FiveOfAKind
    else if RoyalFlushSpec(hand) then RoyalFlush
    else if StraightFlushSpec(hand) then StraightFlush
    else if HasFourOfAKind(hand) then FourOfAKind
    else if FullHouseSpec(hand) then FullHouse
    else if HasFlush(hand) then Flush
    else if StraightSpec(hand) then Straight
    else if HasThreeOfAKind(hand) then ThreeOfAKind
    else if HasTwoPair(hand) then TwoPair
    else if HasOnePair(hand) then OnePair
    else HighCard
  }

  /** The cascade tests in the enum's order from the top, so the rank it
      returns is the highest rank whose test passes. */
  lemma ClassifyIsHighest(hand: seq<PlayingCard>)
    ensures Holds(hand, Classify(hand))
    ensures forall r :: Ordinal(r) > Ordinal(Classify(hand)) ==> !Holds(hand, r)
  {
    var c := Classify(hand);
    forall r | Ordinal(r) > Ordinal(c) ensures !Holds(hand, r) {
      match r
      case HighCard =>
      case OnePair =>
      case TwoPair =>
      case ThreeOfAKind =>
      case Straight =>
      case Flush =>
      case FullHouse =>
      case FourOfAKind =>
      case StraightFlush =>
      case RoyalFlush =>
      case FiveOfAKind =>
    }
  }

  /** Hands on which EvaluateHand returns: HasStraightFlush is reached only
      after the five-of-a-kind and royal-flush tests fail, and then it must
      return on every suit group. */
  predicate Evaluable(hand: seq<PlayingCard>) {
    HasFiveOfAKind(hand) || RoyalFlushSpec(hand) || StraightFlushEnds(hand)
  }

  /** Every hand of deck cards (values 2..14) is evaluable. */
  lemma DeckHandsEvaluable(hand: seq<PlayingCard>)
    requires forall c :: c in hand ==> 2 <= c.value <= 14
    ensures Evaluable(hand)
  {
    StraightFlushEndsWithoutLowAce(hand);
  }

  /** PokerHandEvaluator.EvaluateHand. */
  method EvaluateHand(hand: seq<PlayingCard>) returns (rank: HandRank)
    requires Evaluable(hand)
    ensures rank == Classify(hand)
  {
    if HasFiveOfAKind(hand) {
      return FiveOfAKind;
    }
    var royalFlush := HasRoyalFlush(hand);
    if royalFlush {
      return RoyalFlush;
    }
    var straightFlush := HasStraightFlush(hand);
    if straightFlush {
      return StraightFlush;
    }
    if HasFourOfAKind(hand) {
      return FourOfAKind;
    }
    var fullHouse := HasFullHouse(hand);
    if fullHouse {
      return FullHouse;
    }
    if HasFlush(hand) {
      return Flush;
    }
    var straight := HasStraight(hand);
    if straight {
      return Straight;
    }
    if HasThreeOfAKind(hand) {
      return ThreeOfAKind;
    }
    if HasTwoPair(hand) {
      return TwoPair;
    }
    if HasOnePair(hand) {
      return OnePair;
    }
    return HighCard;
  }

  /** DetermineBestCards: the Determine*Cards list of the given rank;
      DetermineRoyalFlushCards throws on an empty hand. */
  function BestCardsFor(hand: seq<PlayingCard>, handRank: HandRank): Result<seq<PlayingCard>> {
    match handRank
    case HighCard => Ok(HighCardCards(hand))
    case OnePair => Ok(PairCards(hand))
    case TwoPair => Ok(TwoPairCards(hand))
    case ThreeOfAKind => Ok(ThreeOfAKindCards(hand))
    case Straight => Ok(StraightCards(hand))
    case Flush => Ok(FlushCards(hand))
    case FullHouse => Ok(FullHouseCards(hand))
    case FourOfAKind => Ok(FourOfAKindCards(hand))
    case StraightFlush => Ok(StraightFlushCards(hand))
    case RoyalFlush => RoyalFlushCards(hand)
    case FiveOfAKind => Ok(FiveOfAKindCards(hand))
  }

  /** Only the royal-flush list can throw, and only for an empty hand. */
  lemma BestCardsDefined(hand: seq<PlayingCard>, handRank: HandRank)
    ensures BestCardsFor(hand, handRank).Err? <==> handRank == RoyalFlush && |hand| == 0
  {
    if handRank == RoyalFlush {
      assert |SortBy(hand, HighValueOf)| == |hand|;
    }
  }

  lemma RoyalFlushHoldsCards(hand: seq<PlayingCard>)
    ensures RoyalFlushSpec(hand) ==> |hand| > 0
  {
    if RoyalFlushSpec(hand) {
      var s :| s in SuitKeys(hand) && RoyalIn(hand, s);
      assert |Naturals(WithSuit(hand, s))| <= |WithSuit(hand, s)| <= |hand|;
    }
  }

  /** A hand EvaluateHand ranks a royal flush holds a card, so the rank it
      returns always has a best-card list. */
  lemma ClassifiedCardsDefined(hand: seq<PlayingCard>)
    ensures BestCardsFor(hand, Classify(hand)).Ok?
  {
    var handRank := Classify(hand);
    BestCardsDefined(hand, handRank);
    ClassifyIsHighest(hand);
    assert handRank == RoyalFlush ==> Holds(hand, RoyalFlush);
    RoyalFlushHoldsCards(hand);
  }

  /** PokerHandEvaluator.DetermineBestCards. */
  method DetermineBestCards(hand: seq<PlayingCard>, handRank: HandRank) returns (r: Result<seq<PlayingCard>>)
    ensures r == BestCardsFor(hand, handRank)
  {
    match handRank
    case HighCard =>
      return Ok(HighCardCards(hand));
    case OnePair =>
      return Ok(PairCards(hand));
    case TwoPair =>
      var cards := DetermineTwoPairCards(hand);
      return Ok(cards);
    case ThreeOfAKind =>
      return Ok(ThreeOfAKindCards(hand));
    case Straight =>
      var cards := DetermineStraightCards(hand);
      return Ok(cards);
    case Flush =>
      return Ok(FlushCards(hand));
    case FullHouse =>
      return Ok(FullHouseCards(hand));
    case FourOfAKind =>
      return Ok(FourOfAKindCards(hand));
    case StraightFlush =>
      var cards := DetermineStraightFlushCards(hand);
      return Ok(cards);
    case RoyalFlush =>
      r := DetermineRoyalFlushCards(hand);
    case FiveOfAKind =>
      return Ok(FiveOfAKindCards(hand));
  }

  /** PokerHandEvaluator.HandEvaluationResult. */
  datatype HandEvaluationResult = HandEvaluationResult(handRank: HandRank, rankWeight: int, bestCards: seq<PlayingCard>)

  /** What EvaluateHandWeight returns for a hand. */
  function Evaluation(hand: seq<PlayingCard>): HandEvaluationResult {
    var handRank := Classify(hand);
    ClassifiedCardsDefined(hand);
    HandEvaluationResult(handRank, CalculateRankWeight(handRank, hand), BestCardsFor(hand, handRank).value)
  }

  /** PokerHandEvaluator.EvaluateHandWeight. */
  method EvaluateHandWeight(hand: seq<PlayingCard>) returns (e: HandEvaluationResult)
    requires Evaluable(hand)
    ensures e == Evaluation(hand)
  {
    var handRank := EvaluateHand(hand);
    var rankWeight := CalculateRankWeight(handRank, hand);
    var bestCards := DetermineBestCards(hand, handRank);
    ClassifiedCardsDefined(hand);
    return HandEvaluationResult(handRank, rankWeight, bestCards.value);
  }

  /** What CompareHands returns: the heavier rank wins; on equal weights
      CompareBestCards decides, its sign kept, its throw passed on. */
  function HandOrder(hand1: seq<PlayingCard>, hand2: seq<PlayingCard>): Result<int> {
    var result1, result2 := Evaluation(hand1), Evaluation(hand2);
    if result1.rankWeight > result2.rankWeight then Ok(1)
    else if result1.rankWeight < result2.rankWeight then Ok(-1)
    else
      match CompareValues(result1.bestCards, result2.bestCards)
      case Err(e) => Err(e)
      case Ok(c) => Ok(if c > 0 then 1 else if c < 0 then -1 else 0)
  }

  /** A higher rank wins whatever the cards; a hand ties with itself; and
      when both best-card lists have one length, swapping the hands negates
      the verdict and nothing throws. */
  lemma HandOrderMeaning(hand1: seq<PlayingCard>, hand2: seq<PlayingCard>)
    ensures Ordinal(Classify(hand1)) > Ordinal(Classify(hand2)) ==> HandOrder(hand1, hand2) == Ok(1)
    ensures Ordinal(Classify(hand1)) < Ordinal(Classify(hand2)) ==> HandOrder(hand1, hand2) == Ok(-1)
    ensures HandOrder(hand1, hand1) == Ok(0)
    ensures |Evaluation(hand1).bestCards| == |Evaluation(hand2).bestCards| ==>
              HandOrder(hand1, hand2).Ok? && HandOrder(hand2, hand1).Ok? &&
              HandOrder(hand2, hand1).value == -HandOrder(hand1, hand2).value
  {
    CompareValuesSelf(Evaluation(hand1).bestCards);
    if |Evaluation(hand1).bestCards| == |Evaluation(hand2).bestCards| {
      CompareValuesSwap(Evaluation(hand1).bestCards, Evaluation(hand2).bestCards);
    }
  }

  /** PokerHandEvaluator.CompareHands. */
  method CompareHands(hand1: seq<PlayingCard>, hand2: seq<PlayingCard>) returns (r: Result<int>)
    requires Evaluable(hand1) && Evaluable(hand2)
    ensures r == HandOrder(hand1, hand2)
  {
    var result1 := EvaluateHandWeight(hand1);
    var result2 := EvaluateHandWeight(hand2);
    if result1.rankWeight > result2.rankWeight {
      return Ok(1);
    } else if result1.rankWeight < result2.rankWeight {
      return Ok(-1);
    }
    var comparisonResult := CompareBestCards(result1.bestCards, result2.bestCards);
    if comparisonResult.Err? {
      return Err(comparisonResult.error);
    }
    if comparisonResult.value > 0 {
      return Ok(1);
    } else if comparisonResult.value < 0 {
      return Ok(-1);
    }
    return Ok(0);
  }
}
