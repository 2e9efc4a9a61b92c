# PokerWithNanny: hand evaluation, wild cards, betting and the deck

This project models the game logic of PokerWithNanny, a Unity poker table
for dealer's-choice home games with wild cards. The model has four parts.

- **Cards and wild cards** (`Card.cs`, `PokerGameMode.cs`). A card has a
  suit and a value from 2 to 14. The ace reads high as 14 (`HighValue`
  maps a stored 1 to 14). The wild flag is set by a per-mode rule table:
  - Day and Night Baseball: 3s and 9s.
  - Woolworth: 5s and 10s.
  - Deuces and Jacks: 2s, jacks and the king of diamonds.
  - Follow the Queen: queens and the follow-the-queen value.
  - Kings and Little Ones: kings and the lowest value in the current hand.
  - Every other mode: nothing is wild.

  The C# class keeps the game mode, the follow-the-queen value and the
  current hand in static fields. The model gathers them in one
  `WildContext` object that is passed to every operation that reads them.
- **Hand evaluation** (`PokerHandEvaluator.cs`).
  - `EvaluateHand` runs a cascade of tests from five of a kind down to one
    pair. Each test counts the hand's wild cards.
  - `CalculateRankWeight` turns the rank into a weight.
  - `DetermineBestCards` picks the cards that break ties.
  - `CompareHands` compares the weights first and the best cards next.
  - The evaluator reads cards as `PlayingCard` values (suit, value, wild
    flag) taken when the hand is evaluated.
  - LINQ is modelled with its own semantics:
    - `GroupBy` keeps keys in order of first appearance.
    - `OrderBy` and `OrderByDescending` are stable sorts.
    - `Take` of zero or fewer returns nothing.
    - `Except` removes the other list's cards and duplicates.
- **Players and betting** (`Player.cs`, `BetManager.cs`).
  - A player has a stack, a current bet and an in-round flag.
  - The bet manager holds the pot, the bet to match and the seats of the
    dealer, the blinds and the player to act.
  - The main invariant is that betting only moves chips between stacks and
    the pot. Every betting action keeps the pot plus all stacks unchanged.
- **The deck** (`Deck.cs`). A new deck holds 52 cards, built suit by suit.
  It is shuffled in place by Fisher-Yates and dealt from the top.

The model follows several quirks of the code exactly:
- `HasStraight` asks for a run worth 6, so five natural cards are never a
  straight for it (`Straights.FiveNaturalsAreNoStraight`). A wild card adds
  to the run only where it bridges a gap (`Runs.WildsCountOnlyInGaps`).
- `HasFullHouse` takes the first value group in grouping order that reaches
  three, not the highest one.
- `HasRoyalFlush` only counts the wild cards of the suit group being
  tested. Wild cards of other suits do not help.
- `CompareBestCards` compares `Value`, not `HighValue`. It throws when the
  second list runs out first.
- `PlayerRaise` sets the bet to match to an all-in player's own bet when the
  stack cannot cover the raise, even if that lowers it.
- `DetermineFullHouseCards` adds wild cards to the triple, and to the pair,
  only while wild cards remain after the triple has taken what it lacks. With
  two natural pairs and one wild card the wild card joins neither part, and
  the list holds the four natural cards
  (`BestCards.FullHouseWithoutSpareWilds`).
- `StartNewRound` sets the pot to zero without paying it out.
- `Deck` builds cards with the ace as value 14, while `HighValue` reads an
  ace stored as 1.

Where a C# method would throw, the model returns an error value (a
`Result`). Where it would loop or recurse forever, the model has a
precondition instead.

## Model

| member | source | states |
|---|---|---|
| Cards.HighValue | Assets/Scripts/Card.cs:28-31 | an ace stored as 1 reads 14; every other value reads as itself |
| Cards.HighValueRanks | Assets/Scripts/Card.cs:28-31 | on values 1..13, HighValue is one-to-one onto 2..14, and it gives 14 exactly for the ace |
| Cards.IsLowestValueInHand | Assets/Scripts/Card.cs:84-93 | it throws exactly in Kings and Little Ones with an empty current hand; it answers true exactly when that mode is on, a hand is set, and the value is in the hand and no greater than any value in it |
| Cards.WildStatus | Assets/Scripts/Card.cs:55-83 | the rule table fails only in Kings and Little Ones for a non-king when the current hand is empty |
| Cards.WildStatusTable | Assets/Scripts/Card.cs:57-81 | the rule table row by row, as the exact set of wild cards in each mode; the suit matters only in Deuces and Jacks |
| Cards.FollowTheQueenUnset | Assets/Scripts/Card.cs:72-74 | with the follow-the-queen value unset (-1), exactly the queens are wild in Follow the Queen |
| Cards.WildContext.constructor | Assets/Scripts/Card.cs:15-17 | the static state starts as the first mode, -1 and no current hand |
| Cards.WildContext.SetGameMode | Assets/Scripts/Card.cs:37-41 | the new mode is stored, the follow-the-queen value is reset to -1, and the hand is kept |
| Cards.WildContext.SetFollowTheQueenWildValue | Assets/Scripts/Card.cs:47-50 | only the follow-the-queen value changes |
| Cards.WildContext.GetFollowTheQueenWildValue | Assets/Scripts/Card.cs:51-54 | returns the stored follow-the-queen value |
| Cards.WildContext.UpdateAllCardsWildStatus | Assets/Scripts/Card.cs:94-103 | every card of the current hand gets the wild flag the rule table gives it |
| Cards.WildContext.SetCurrentHand | Assets/Scripts/Card.cs:42-46 | the hand is stored, the mode and follow-the-queen value are kept, and every card in the hand is re-flagged by the rule table |
| Cards.Card.constructor | Assets/Scripts/Card.cs:19-26 | suit and value are stored, and the wild flag is the rule table's verdict for them |
| Cards.Card.SetWildStatus | Assets/Scripts/Card.cs:55-83 | the flag becomes the rule table's verdict; where the table throws, the flag is left as it was |
| Players.Paid | Assets/Scripts/BetManager.cs:44-56 | a player pays the asked amount when the stack covers it, otherwise the whole stack |
| Players.Player.constructor | Assets/Scripts/Player.cs:11-16 | the initial stack, no bet, in the round |
| Players.Player.Bet | Assets/Scripts/Player.cs:18-28 | the bet is accepted exactly when the stack covers it, and a refused bet changes nothing; an accepted bet moves the amount from the stack to the current bet and leaves the stack non-negative; stack plus bet is conserved |
| Players.Player.Fold | Assets/Scripts/Player.cs:30-34 | out of the round, bet cleared, stack kept |
| Players.Player.ResetBet | Assets/Scripts/Player.cs:36-39 | bet cleared, everything else kept |
| Players.Player.AddWinnings | Assets/Scripts/Player.cs:41-44 | the stack grows by the amount; nothing else changes |
| Betting.SeatsOnStep | Assets/Scripts/BetManager.cs:100-106 | stepping (seat + 1) % n moves one seat further round the table, and no two seats are the same distance on |
| Betting.DealerSeats | Assets/Scripts/BetManager.cs:108-114 | after the button moves, the blind seats are on the table. With three or more players the button and both blinds are three different seats; with two, the big blind is back on the button; with one, all three are seat 0 |
| Betting.BetManager.NextInRoundUnique | Assets/Scripts/BetManager.cs:100-106 | the next seat still in the round is unique |
| Betting.BetManager.constructor | Assets/Scripts/BetManager.cs:16-27 | the dealer is in seat 0 and the blinds in seats 1 and 2; seat 3 % n acts first; the pot is empty and the big blind is the bet to match |
| Betting.BetManager.PayIn | Assets/Scripts/BetManager.cs:44-56 | the pay-or-all-in step: the bet is accepted exactly when the stack covers it. The stack falls, and the bet and the pot rise, by what was paid; the seats and the bet to match are kept; pot plus stacks is conserved, and so is the pot minus the bets |
| Betting.BetManager.PlaceBlind | Assets/Scripts/BetManager.cs:44-56 | posting a blind pays the blind or goes all in; the pot grows by what was paid; chips are conserved |
| Betting.BetManager.ResetPlayers | Assets/Scripts/BetManager.cs:34-38 | every player is back in the round with no bet and the same stack |
| Betting.BetManager.PostBlinds | Assets/Scripts/BetManager.cs:40-41 | each blind seat pays its blind or goes all in; every other seat is unchanged; chips are conserved |
| Betting.BetManager.StartNewRound | Assets/Scripts/BetManager.cs:29-42 | the seat after the big blind acts and the bet to match is the big blind. Everyone is back in, the non-blind seats have no bet and keep their stacks, and the pot holds exactly the bets. The pot plus all stacks equals the stacks before the round: the old pot is dropped |
| Betting.BetManager.MoveToNextPlayer | Assets/Scripts/BetManager.cs:100-106 | the turn passes to the first seat after the current one, going round, whose player is in the round; the pot, the bet and the dealer and blind seats are kept |
| Betting.BetManager.PlayerFold | Assets/Scripts/BetManager.cs:58-62 | the folding player is out, with the bet cleared and the stack kept; the turn passes to the next seat in the round; the dealer and blind seats stay; the pot plus stacks is conserved |
| Betting.BetManager.PlayerCall | Assets/Scripts/BetManager.cs:64-78 | the player pays the difference to the bet to match, or goes all in, and stays in the round; the pot grows by what was paid; the turn moves on; the dealer and blind seats stay; chips are conserved |
| Betting.BetManager.PlayerRaise | Assets/Scripts/BetManager.cs:80-98 | the player pays the call plus the raise, or goes all in, and stays in the round. The bet to match rises by the raise when paid in full, and otherwise becomes the player's own bet. The turn moves on, the dealer and blind seats stay, and chips are conserved |
| Betting.BetManager.NextDealer | Assets/Scripts/BetManager.cs:108-114 | the button moves one seat round the table; the blinds and the first to act follow it and stay on the table |
| Betting.BetManager.GetTotalPot | Assets/Scripts/BetManager.cs:116-119 | returns the pot |
| Betting.BetManager.GetCurrentBet | Assets/Scripts/BetManager.cs:121-124 | returns the bet to match |
| Decks.StandardDeckComplete | Assets/Scripts/Deck.cs:15-26 | a new deck has 52 slots: every suit with every value 2..14, nothing else, and no slot twice |
| Decks.Swap | Assets/Scripts/Deck.cs:42-44 | a swap keeps the length and the cards |
| Decks.ShuffledPermutes | Assets/Scripts/Deck.cs:34-46 | the shuffle only rearranges: the same cards, as many of each |
| Decks.ShuffledIdentity | Assets/Scripts/Deck.cs:34-46 | when each draw names the position being fixed, the shuffle leaves the deck unchanged |
| Decks.Deck.constructor | Assets/Scripts/Deck.cs:10-26 | 52 distinct new cards in suit-then-value order, each flagged wild by the rule table of the current context |
| Decks.Deck.Shuffle | Assets/Scripts/Deck.cs:34-46 | the deck becomes the Fisher-Yates arrangement the draws determine: a permutation of the old deck |
| Decks.Deck.Deal | Assets/Scripts/Deck.cs:48-56 | an empty deck throws and is left unchanged; otherwise the top card is returned and removed |
| Decks.Deck.CardsRemaining | Assets/Scripts/Deck.cs:58-61 | the number of cards left |
| HandTests.ValueKeys | Assets/Scripts/PokerHandEvaluator.cs:598-604 | the GroupBy keys by value: no key twice, and exactly the values some card has |
| HandTests.SuitKeys | Assets/Scripts/PokerHandEvaluator.cs:767-787 | the GroupBy keys by suit: no key twice, and exactly the suits some card has |
| HandTests.OfAKindMeaning | Assets/Scripts/PokerHandEvaluator.cs:598-604 | N of a kind holds exactly when some natural card's count plus all the wild cards reaches N. Five of a kind implies four, four implies three, and three implies a pair. A hand without natural cards has none |
| HandTests.OfAKindGainsWild | Assets/Scripts/PokerHandEvaluator.cs:720-726 | one more wild card never breaks N of a kind |
| HandTests.FlushGainsWild | Assets/Scripts/PokerHandEvaluator.cs:767-787 | five wild cards are a flush, and one more wild card never breaks a flush |
| HandTests.TwoPairImpliesOnePair | Assets/Scripts/PokerHandEvaluator.cs:866-875 | two pair implies one pair; without wild cards, two pair holds exactly when two values are held exactly twice, so a value held three times is no pair for it |
| HandTests.HasFullHouse | Assets/Scripts/PokerHandEvaluator.cs:727-766 | the answer is the full-house condition: the first group reaching three with the wild cards is the triple, its wild cards are spent, and a pair is sought among the other groups |
| HandTests.FullHouseSearch | Assets/Scripts/PokerHandEvaluator.cs:736-762 | the two searches over the group sizes decide exactly that condition |
| HandTests.FullHouseWithoutWilds | Assets/Scripts/PokerHandEvaluator.cs:727-766 | without wild cards it is the textbook test: one group of three or more and a different group of two or more |
| HandTests.FullHouseHasTriple | Assets/Scripts/PokerHandEvaluator.cs:727-766 | a full house contains three of a kind |
| HandTests.HasRoyalFlush | Assets/Scripts/PokerHandEvaluator.cs:606-643 | true exactly when some suit group holds a natural card and its own wild cards cover the royal values it lacks |
| HandTests.CheckRoyalGroup | Assets/Scripts/PokerHandEvaluator.cs:618-638 | one suit group's test is exactly that condition |
| HandTests.StrikeRoyalValues | Assets/Scripts/PokerHandEvaluator.cs:623-632 | what is left of 10..14 after striking the cards' values: ascending, and exactly the royal values no card has |
| HandTests.StruckAreMissing | Assets/Scripts/PokerHandEvaluator.cs:623-636 | the struck list is the missing royal values, whatever order the cards were sorted in |
| HandTests.RoyalFlushWithoutWilds | Assets/Scripts/PokerHandEvaluator.cs:606-643 | without wild cards a suit is royal exactly when it holds 10, 11, 12, 13 and 14 |
| HandTests.RoyalGroupWithoutWilds | Assets/Scripts/PokerHandEvaluator.cs:618-638 | the same for one suit group of natural cards |
| Runs.RunMonotone | Assets/Scripts/PokerHandEvaluator.cs:671-706 | extending a run never lowers its span or the wild cards it needs |
| Runs.SuitedRunScan | Assets/Scripts/PokerHandEvaluator.cs:671-706 | the nested scan answers exactly whether, from a start that leaves five values, some end within the wild supply reaches a count of 5 |
| Runs.RunScan | Assets/Scripts/PokerHandEvaluator.cs:794-829 | HasStraight's scan answers exactly whether some run, stretched as far as the wild cards allow, reaches 6 |
| Runs.WithAceHigh | Assets/Scripts/PokerHandEvaluator.cs:709-714 | the values with 14 added for the ace: ascending, and exactly the old values and 14 |
| Runs.HasStraightWithWilds | Assets/Scripts/PokerHandEvaluator.cs:666-717 | the answer is the first scan, else the ace-high retry when an ace and a value of 10 or more are present |
| Runs.ConsecutiveSuitedRun | Assets/Scripts/PokerHandEvaluator.cs:666-717 | five consecutive values are a run with any number of wild cards |
| Runs.AceHighStraightFlush | Assets/Scripts/PokerHandEvaluator.cs:709-714 | example: A, 10, J, Q, K of a suit fail the first scan and pass the ace-high retry |
| Runs.RunWithoutWilds | Assets/Scripts/PokerHandEvaluator.cs:794-829 | without wild cards a run counts the values it covers |
| Runs.NoRunOfSixInFive | Assets/Scripts/PokerHandEvaluator.cs:822 | without wild cards, five values never reach 6 |
| Runs.NoRunOfSixAcrossTheAce | Assets/Scripts/PokerHandEvaluator.cs:846-853 | six values holding both 1 and 14 never reach 6 without wild cards |
| Runs.WildsCountOnlyInGaps | Assets/Scripts/PokerHandEvaluator.cs:794-829 | example: four consecutive values and a wild card fall short of 6; the same with the gap inside make it |
| Straights.HasStraightFlush | Assets/Scripts/PokerHandEvaluator.cs:647-664 | true exactly when some natural suit group, helped by all the wild cards, passes HasStraightWithWilds |
| Straights.StraightFlushEndsWithoutLowAce | Assets/Scripts/PokerHandEvaluator.cs:647-664 | with no card of value 1 no retry happens, so the test returns on every hand of deck cards |
| Straights.HasStraight | Assets/Scripts/PokerHandEvaluator.cs:788-857 | the answer needs enough distinct natural values for five with the wild cards, and a run reaching 6, with the ace low or high |
| Straights.FiveNaturalsAreNoStraight | Assets/Scripts/PokerHandEvaluator.cs:788-857 | five natural cards are never a straight for this test |
| StraightLists.ConsecutiveSpan | Assets/Scripts/PokerHandEvaluator.cs:362-372 | a list is consecutive exactly when its HighValues climb by one per position from the first |
| StraightLists.ConsecutiveIncreases | Assets/Scripts/PokerHandEvaluator.cs:362-372 | a consecutive list strictly increases |
| StraightLists.IsStraight | Assets/Scripts/PokerHandEvaluator.cs:362-372 | true exactly when each HighValue is one more than the one before |
| StraightLists.IsStraightFlush | Assets/Scripts/PokerHandEvaluator.cs:216-219 | true exactly for a consecutive list of one suit |
| StraightLists.RoyalRunMeaning | Assets/Scripts/PokerHandEvaluator.cs:199-202 | a royal run is exactly a one-suit consecutive list whose least HighValue is 10 |
| StraightLists.IsRoyalFlush | Assets/Scripts/PokerHandEvaluator.cs:199-202 | an empty list throws (Min of nothing); otherwise true exactly for a royal run |
| StraightLists.StraightCardsMeaning | Assets/Scripts/PokerHandEvaluator.cs:350-361 | any consecutive rearrangement of the hand is what the straight list returns, and likewise for a straight flush; ordering by Value never finds one that ordering by HighValue missed |
| StraightLists.StraightCardsShape | Assets/Scripts/PokerHandEvaluator.cs:350-361 | a non-empty straight (or straight-flush) list holds all of the hand's cards in a consecutive (and one-suit) order |
| StraightLists.RoyalFlushCardsMeaning | Assets/Scripts/PokerHandEvaluator.cs:191-198 | it throws exactly for an empty hand; it returns the hand as a royal run exactly when one exists |
| StraightLists.DetermineStraightCards | Assets/Scripts/PokerHandEvaluator.cs:350-361 | returns the straight list |
| StraightLists.DetermineStraightFlushCards | Assets/Scripts/PokerHandEvaluator.cs:204-215 | returns the straight-flush list |
| StraightLists.DetermineRoyalFlushCards | Assets/Scripts/PokerHandEvaluator.cs:191-198 | returns the royal-flush list or its throw |
| CardComparison.MismatchMeaning | Assets/Scripts/PokerHandEvaluator.cs:920-935 | the lists agree on Value up to the mismatch and differ there; the mismatch is symmetric |
| CardComparison.CompareValuesMeaning | Assets/Scripts/PokerHandEvaluator.cs:920-935 | the comparison is lexicographic on Value. The first difference decides; with none, it ties unless the first list is longer, which throws |
| CardComparison.CompareValuesSelf | Assets/Scripts/PokerHandEvaluator.cs:920-935 | a list ties with itself |
| CardComparison.CompareValuesSwap | Assets/Scripts/PokerHandEvaluator.cs:920-935 | for lists of one length nothing throws, and swapping them negates the result |
| CardComparison.CompareBestCards | Assets/Scripts/PokerHandEvaluator.cs:920-935 | the loop returns that comparison |
| Sequences.Top | Assets/Scripts/PokerHandEvaluator.cs:526-529 | OrderByDescending then Take(k): min(k, n) elements (none for k <= 0), in descending key order, drawn from the list |
| Sequences.TopIsHighest | Assets/Scripts/PokerHandEvaluator.cs:526-529 | every element left out ranks no higher than every one kept |
| BestCards.RankedGroup | Assets/Scripts/PokerHandEvaluator.cs:176-179 | the same cards, naturals before wild cards, each kind by descending Value |
| BestCards.Qualifying | Assets/Scripts/PokerHandEvaluator.cs:154-157 | strictly descending keys, exactly those whose count plus the wild cards reaches n, the first being the highest |
| BestCards.OfAKindGroup | Assets/Scripts/PokerHandEvaluator.cs:163-173 | at least n cards, natural ones of the chosen value, all drawn from the hand |
| BestCards.QualifyingMeansOfAKind | Assets/Scripts/PokerHandEvaluator.cs:154-159 | some group qualifies exactly when the hand holds n of a kind |
| BestCards.OfAKindCards | Assets/Scripts/PokerHandEvaluator.cs:146-188 | the list is non-empty exactly when the hand holds n of a kind |
| BestCards.OfAKindLeads | Assets/Scripts/PokerHandEvaluator.cs:221-271 | its first n cards are wild or of the chosen value |
| BestCards.OfAKindTakesHighest | Assets/Scripts/PokerHandEvaluator.cs:374-424 | the chosen value is the highest that qualifies |
| BestCards.OfAKindLeadsWhenHeld | Assets/Scripts/PokerHandEvaluator.cs:146-188 | a non-empty N-of-a-kind list leads with n cards that are wild or of the highest qualifying value |
| BestCards.FiveOfAKindCards | Assets/Scripts/PokerHandEvaluator.cs:146-188 | non-empty exactly for five of a kind, and then led by five cards that are wild or of the highest value reaching five with the wild cards |
| BestCards.FourOfAKindCards | Assets/Scripts/PokerHandEvaluator.cs:221-271 | non-empty exactly for four of a kind, and then led by four cards that are wild or of the highest value reaching four with the wild cards |
| BestCards.ThreeOfAKindCards | Assets/Scripts/PokerHandEvaluator.cs:374-424 | non-empty exactly for three of a kind, and then led by three cards that are wild or of the highest value reaching three with the wild cards |
| BestCards.FlushCards | Assets/Scripts/PokerHandEvaluator.cs:345-348 | the min(5, n) cards of highest HighValue, whatever their suit, in descending HighValue order, drawn from the hand |
| BestCards.HighCardCards | Assets/Scripts/PokerHandEvaluator.cs:526-529 | the min(5, n) cards of highest Value, in descending Value order, drawn from the hand |
| BestCards.SingleLead | Assets/Scripts/PokerHandEvaluator.cs:508-519 | without a natural pair, the lead is a natural single and a wild card, exactly when both exist |
| BestCards.PairLead | Assets/Scripts/PokerHandEvaluator.cs:495-514 | the lead is two cards, present exactly when a natural pair or a single lead exists, and no lower than any natural pair |
| BestCards.PairLeadShape | Assets/Scripts/PokerHandEvaluator.cs:498-519 | the lead is a natural card followed by its twin or a wild card |
| BestCards.PairCards | Assets/Scripts/PokerHandEvaluator.cs:487-523 | the list is non-empty exactly when there is a lead; the lead comes first, at most five cards |
| BestCards.FullHouseCards | Assets/Scripts/PokerHandEvaluator.cs:274-342 | a non-empty full-house list means the hand holds three of a kind |
| BestCards.FullHousePartCards | Assets/Scripts/PokerHandEvaluator.cs:290-320 | a part of the full house holds cards of the list, none twice: all the natural cards of its value and no other natural card, and wild cards only while the wild count is positive |
| BestCards.FullHouseCardsShape | Assets/Scripts/PokerHandEvaluator.cs:274-342 | a non-empty list uses no card of the hand twice and comes in two parts: first the triple, led by a natural card of the highest value that reaches three with the wild cards and holding all of the hand's naturals of that value, then the pair, led by a natural card of another value, the highest among the cards the triple left that reaches two with the wild count the triple left; each part holds only wild cards or cards of its value and is ranked naturals first, then by descending value |
| BestCards.FullHouseWithoutSpareWilds | Assets/Scripts/PokerHandEvaluator.cs:290-320 | when the triple's naturals need every wild card, the list holds no wild card at all, in the pair either |
| TwoPairs.SinglesAreKeysOfSize | Assets/Scripts/PokerHandEvaluator.cs:447-457 | the singles the loop sees are the value groups of exactly one card |
| TwoPairs.DetermineTwoPairCards | Assets/Scripts/PokerHandEvaluator.cs:426-484 | returns the two highest natural pairs and a kicker; else, with two wild cards and two singles, the first two singles each matched with the first wild card, and a kicker; else nothing |
| SingleMatching.ScanMatchesSingles | Assets/Scripts/PokerHandEvaluator.cs:447-457 | the loop matches the first singles, as many as there are wild cards, each with the first wild card |
| SingleMatching.MatchSingles | Assets/Scripts/PokerHandEvaluator.cs:447-457 | four cards are collected exactly when there are two wild cards and two singles, and they are the first two singles matched; otherwise 0 or 2 cards, with the wild count reduced by the matches |
| Evaluator.CalculateRankWeight | Assets/Scripts/PokerHandEvaluator.cs:531-561 | the weight is the rank's place in the enum plus one, so a higher rank always weighs more |
| Evaluator.ClassifyIsHighest | Assets/Scripts/PokerHandEvaluator.cs:563-596 | the cascade returns a rank whose test passes, and no higher rank's test passes |
| Evaluator.DeckHandsEvaluable | Assets/Scripts/PokerHandEvaluator.cs:647-664 | hands of deck cards (values 2..14) always get a rank |
| Evaluator.EvaluateHand | Assets/Scripts/PokerHandEvaluator.cs:563-596 | returns the cascade's rank |
| Evaluator.BestCardsDefined | Assets/Scripts/PokerHandEvaluator.cs:114-144 | only a royal flush over an empty hand throws |
| Evaluator.ClassifiedCardsDefined | Assets/Scripts/PokerHandEvaluator.cs:30-36 | the rank EvaluateHand gives always has a best-card list |
| Evaluator.DetermineBestCards | Assets/Scripts/PokerHandEvaluator.cs:114-144 | returns the best-card list of the given rank |
| Evaluator.EvaluateHandWeight | Assets/Scripts/PokerHandEvaluator.cs:30-36 | the rank, its weight and its best cards |
| Evaluator.HandOrderMeaning | Assets/Scripts/PokerHandEvaluator.cs:884-919 | a higher rank wins whatever the cards, and a hand ties with itself. With best-card lists of one length, swapping the hands negates the verdict |
| Evaluator.CompareHands | Assets/Scripts/PokerHandEvaluator.cs:884-919 | returns that order: weights first, then the best cards' sign, passing on their throw |

## Left out

- EvaluateHandWithWilds, GenerateWildCardCombinations, GetAllPossibleCards and Combinations (PokerHandEvaluator.cs:37-113) are left out. Nothing in the evaluator calls them, and they enumerate substitutions by brute force.
- Unity, sprites, Debug.Log and Resources.Load are left out: they only render and log. CardGame.cs, BettingUI.cs, GameModeSelector.cs, CardLoader.cs and CardComponent.cs are not part of this model.
- Deck.Shuffle's System.Random becomes a parameter: the list of indices Random.Next would return, one per step.
- Runs.HasStraightWithWilds requires that the recursion ends. When the ace-high retry also fails, the C# calls itself again with the same values and never returns.
- Straights.HasStraightFlush, Evaluator.EvaluateHand, Evaluator.EvaluateHandWeight and Evaluator.CompareHands inherit that precondition, stated as Evaluable. Evaluator.DeckHandsEvaluable proves that every hand of deck cards meets it.
- Straights.HasStraight scans the ace-high list without the repeated 14. The C# list can hold 14 twice, and its scan skips a repeated value without counting it.
- The evaluator's LINQ `Except` is modelled on card values, not object references. Two equal cards would count as one, which a single deck never holds.
- The evaluator works on value snapshots of the cards (PlayingCard). It does not model a card's wild flag changing during an evaluation, nor the new Card("", value, null, null) the C# builds for the ace-high retry.
- Evaluator.CalculateRankWeight leaves out the switch's default case (weight 0): no rank reaches it.
- Decks.Deck.constructor requires that the rule table be defined for every deck card. Deck.cs calls a three-argument Card constructor that Card.cs does not declare, so this is modelled as Card.cs's constructor under the current context. That constructor throws in Kings and Little Ones with an empty current hand.
- Cards.Card.constructor requires that the rule table be defined for the card; the C# throws there.
- Betting.BetManager.constructor requires a non-empty list of distinct players. The C# throws on the modulus for an empty list. It accepts the same player twice, which this model does not.
- Betting.BetManager.StartNewRound requires the blind seats to be on the table; the C# throws when they are not. The constructor puts them in seats 1 and 2 whatever the table's size. Its own contract does not give each blind's amount; Betting.BetManager.PostBlinds and Betting.BetManager.PlaceBlind state those.
- Betting.BetManager.MoveToNextPlayer, Betting.BetManager.PlayerCall and Betting.BetManager.PlayerRaise require some player in the round. Betting.BetManager.PlayerFold requires some other player in the round. Without one the C# do-while loop never ends.
- Betting.BetManager.PayIn is one method for the pay-or-all-in code that PlaceBlind, PlayerCall and PlayerRaise each repeat in the C#.
- Betting.BetManager.MoveToNextPlayer and Decks.Deck.Shuffle work on a local copy and store it at the end. The C# updates the field at each step, and nothing in between can observe the difference.
- Integers are unbounded: no chip count or value overflows 32 bits in the model.
