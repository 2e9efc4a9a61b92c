/** The grouping tests of PokerHandEvaluator.cs: whether a hand, counting its
    wild cards, holds N of a kind, a flush, two pair, a full house or a royal
    flush. Natural cards are the ones whose wild flag is off. */
module HandTests {
  import opened Outcomes
  import opened Sequences
  import opened Cards

  predicate IsNatural(c: PlayingCard) { !c.isWild }
  predicate IsWildCard(c: PlayingCard) { c.isWild }
  function ValueOf(c: PlayingCard): int { c.value }
  function HighValueOf(c: PlayingCard): int { HighValue(c.value) }

  /** hand.Where(card => !card.IsWild) */
  function Naturals(hand: seq<PlayingCard>): seq<PlayingCard> { Where(hand, IsNatural) }
  /** hand.Where(card => card.IsWild) */
  function Wilds(hand: seq<PlayingCard>): seq<PlayingCard> { Where(hand, IsWildCard) }
  /** hand.Count(card => card.IsWild) */
  function WildCount(hand: seq<PlayingCard>): nat { |Wilds(hand)| }

  /** The cards of one value group. */
  function WithValue(cs: seq<PlayingCard>, v: int): seq<PlayingCard> { Where(cs, (c: PlayingCard) => c.value == v) }
  /** The cards of one suit group. */
  function WithSuit(cs: seq<PlayingCard>, s: string): seq<PlayingCard> { Where(cs, (c: PlayingCard) => c.suit == s) }
  function ValueCount(cs: seq<PlayingCard>, v: int): nat { |WithValue(cs, v)| }

  lemma WithValueMultiset(cs: seq<PlayingCard>, v: int)
    ensures multiset(WithValue(cs, v)) <= multiset(cs)
  {
    WhereMultiset(cs, (c: PlayingCard) => c.value == v);
  }

  function Values(cs: seq<PlayingCard>): seq<int> { seq(|cs|, i requires 0 <= i < |cs| => cs[i].value) }
  function Suits(cs: seq<PlayingCard>): seq<string> { seq(|cs|, i requires 0 <= i < |cs| => cs[i].suit) }

  /** The keys of GroupBy(card => card.Value), in order of first appearance. */
  function ValueKeys(cs: seq<PlayingCard>): (ks: seq<int>)
    ensures NoDuplicates(ks)
    ensures forall v :: v in ks <==> exists c :: c in cs && c.value == v
  {
    var vs := Values(cs);
    assert forall c :: c in cs ==> c.value in vs by {
      forall c | c in cs ensures c.value in vs {
        var i :| 0 <= i < |cs| && cs[i] == c;
        assert vs[i] == c.value;
      }
    }
    Distinct(vs)
  }

  /** The keys of GroupBy(card => card.Suit), in order of first appearance. */
  function SuitKeys(cs: seq<PlayingCard>): (ks: seq<string>)
    ensures NoDuplicates(ks)
    ensures forall s :: s in ks <==> exists c :: c in cs && c.suit == s
  {
    var ss := Suits(cs);
    assert forall c :: c in cs ==> c.suit in ss by {
      forall c | c in cs ensures c.suit in ss {
        var i :| 0 <= i < |cs| && cs[i] == c;
        assert ss[i] == c.suit;
      }
    }
    Distinct(ss)
  }

  // ---------------------------------------------------------------------
  // N of a kind (HasFiveOfAKind, HasFourOfAKind, HasThreeOfAKind, HasOnePair)

  /** groupedByValue.Any(group => group.Count() + wildCount >= n) */
  predicate HasOfAKind(hand: seq<PlayingCard>, n: int) {
    var naturals := Naturals(hand);
    exists v :: v in ValueKeys(naturals) && ValueCount(naturals, v) + WildCount(hand) >= n
  }

  predicate HasFiveOfAKind(hand: seq<PlayingCard>) { HasOfAKind(hand, 5) }
  predicate HasFourOfAKind(hand: seq<PlayingCard>) { HasOfAKind(hand, 4) }
  predicate HasThreeOfAKind(hand: seq<PlayingCard>) { HasOfAKind(hand, 3) }
  predicate HasOnePair(hand: seq<PlayingCard>) { HasOfAKind(hand, 2) }

  /** N of a kind holds exactly when some natural card's value, counted with
      all the wild cards, reaches n; the weaker tests follow from the stronger. */
  lemma OfAKindMeaning(hand: seq<PlayingCard>, n: int)
    ensures HasOfAKind(hand, n) <==>
              exists c :: c in hand && !c.isWild &&
                          ValueCount(Naturals(hand), c.value) + WildCount(hand) >= n
    ensures HasFiveOfAKind(hand) ==> HasFourOfAKind(hand)
    ensures HasFourOfAKind(hand) ==> HasThreeOfAKind(hand)
    ensures HasThreeOfAKind(hand) ==> HasOnePair(hand)
    ensures Naturals(hand) == [] ==> !HasOfAKind(hand, n)
  {
  }

  /** Dealing one more wild card never breaks N of a kind. */
  lemma {:induction false} OfAKindGainsWild(hand: seq<PlayingCard>, w: PlayingCard, n: int)
    requires w.isWild
    requires HasOfAKind(hand, n)
    ensures HasOfAKind(hand + [w], n)
  {
    WhereAppend(hand, [w], IsNatural);
    WhereAppend(hand, [w], IsWildCard);
    assert Naturals(hand + [w]) == Naturals(hand);
    assert WildCount(hand + [w]) == WildCount(hand) + 1;
  }

  // ---------------------------------------------------------------------
  // Flush

  /** HasFlush: a natural suit group plus all wild cards reaches five, or the
      wild cards alone do. */
  predicate HasFlush(hand: seq<PlayingCard>) {
    var naturals := Naturals(hand);
    (exists s :: s in SuitKeys(naturals) && |WithSuit(naturals, s)| + WildCount(hand) >= 5) ||
    WildCount(hand) >= 5
  }

  /** Five wild cards make a flush whatever else is held, and one more wild
      card never breaks a flush. */
  lemma {:induction false} FlushGainsWild(hand: seq<PlayingCard>, w: PlayingCard)
    requires w.isWild
    ensures WildCount(hand) >= 5 ==> HasFlush(hand)
    ensures HasFlush(hand) ==> HasFlush(hand + [w])
  {
    WhereAppend(hand, [w], IsNatural);
    WhereAppend(hand, [w], IsWildCard);
    assert Naturals(hand + [w]) == Naturals(hand);
    assert WildCount(hand + [w]) == WildCount(hand) + 1;
  }

  // ---------------------------------------------------------------------
  // Two pair

  /** The keys among ks whose natural group holds exactly `size` cards. */
  function KeysOfSize(naturals: seq<PlayingCard>, ks: seq<int>, size: int): seq<int> {
    Where(ks, v => ValueCount(naturals, v) == size)
  }

  /** groupedByValue.Where(group => group.Count() == size), as keys in
      grouping order. */
  function GroupsOfSize(naturals: seq<PlayingCard>, size: int): seq<int> {
    KeysOfSize(naturals, ValueKeys(naturals), size)
  }

  /** HasTwoPair: natural pairs (groups of exactly two) plus as many singles as
      there are wild cards to match them. */
  predicate HasTwoPair(hand: seq<PlayingCard>) {
    var naturals := Naturals(hand);
    var pairCount := |GroupsOfSize(naturals, 2)|;
    var singleCount := |GroupsOfSize(naturals, 1)|;
    pairCount + (if WildCount(hand) < singleCount then WildCount(hand) else singleCount) >= 2
  }

  /** Two pair implies one pair. Without wild cards, two pair needs two
      values held exactly twice, so a value held three times is no pair for
      it: three natural kings and a wild-free rest of singles is not two pair. */
  lemma TwoPairImpliesOnePair(hand: seq<PlayingCard>)
    ensures HasTwoPair(hand) ==> HasOnePair(hand)
    ensures WildCount(hand) == 0 ==> (HasTwoPair(hand) <==> |GroupsOfSize(Naturals(hand), 2)| >= 2)
  {
    var naturals := Naturals(hand);
    if HasTwoPair(hand) {
      if |GroupsOfSize(naturals, 2)| > 0 {
        var v := GroupsOfSize(naturals, 2)[0];
        assert v in GroupsOfSize(naturals, 2);
      } else {
        var v := GroupsOfSize(naturals, 1)[0];
        assert v in GroupsOfSize(naturals, 1);
      }
    }
  }

  // ---------------------------------------------------------------------
  // Full house

  /** What is left of the wild cards after completing a triple from a group of
      count naturals: Mathf.Max(0, 3 - count) of them are spent. */
  function WildsAfterTriple(wildCount: int, count: int): int {
    wildCount - (if 3 - count > 0 then 3 - count else 0)
  }

  /** The sizes of the value groups, in grouping order. */
  function GroupSizes(naturals: seq<PlayingCard>, ks: seq<int>): (sizes: seq<nat>)
    ensures |sizes| == |ks|
    ensures forall i :: 0 <= i < |ks| ==> sizes[i] == ValueCount(naturals, ks[i])
  {
    seq(|ks|, i requires 0 <= i < |ks| => ValueCount(naturals, ks[i]))
  }

  /** The pair test of HasFullHouse on the groups other than the triple's (t). */
  predicate PairAmong(sizes: seq<nat>, t: int, wildsLeft: int) {
    (exists j :: 0 <= j < |sizes| && j != t && sizes[j] >= 2) ||
    (wildsLeft > 0 && ((exists j :: 0 <= j < |sizes| && j != t && sizes[j] == 1) || wildsLeft >= 2))
  }

  /** HasFullHouse: the FIRST group in grouping order that reaches three with
      the wild cards becomes the triple (not the highest one), the wild cards it
      needs are spent, and a pair is sought among the other groups. */
  predicate FullHouseSpec(hand: seq<PlayingCard>) {
    var naturals := Naturals(hand);
    FullHouseAmong(GroupSizes(naturals, ValueKeys(naturals)), WildCount(hand))
  }

  predicate FullHouseAmong(sizes: seq<nat>, wc: int) {
    exists t :: 0 <= t < |sizes| && sizes[t] + wc >= 3 &&
      (forall j :: 0 <= j < t ==> sizes[j] + wc < 3) &&
      PairAmong(sizes, t, WildsAfterTriple(wc, sizes[t]))
  }

  /** PokerHandEvaluator.HasFullHouse: a search for the triple that consumes
      wild cards, then a search for the pair among the remaining groups. */
  method HasFullHouse(hand: seq<PlayingCard>) returns (b: bool)
    ensures b == FullHouseSpec(hand)
  {
    var naturals := Naturals(hand);
    b := FullHouseSearch(GroupSizes(naturals, ValueKeys(naturals)), WildCount(hand));
  }

  method FullHouseSearch(groups: seq<nat>, wildCount: int) returns (b: bool)
    requires wildCount >= 0
    ensures b == FullHouseAmong(groups, wildCount)
  {
    var t := 0;
    while t < |groups| && groups[t] + wildCount < 3
      invariant 0 <= t <= |groups|
      invariant forall j :: 0 <= j < t ==> groups[j] + wildCount < 3
    {
      t := t + 1;
    }
    if t == |groups| {
      return false;
    }
    var wildsLeft := WildsAfterTriple(wildCount, groups[t]);
    assert 0 <= wildsLeft;  // the triple never spends more wild cards than there are
    var hasPair := false;
    var j := 0;
    while j < |groups|
      invariant 0 <= j <= |groups|
      invariant hasPair <==> exists k :: 0 <= k < j && k != t && groups[k] >= 2
    {
      if j != t && groups[j] >= 2 {
        hasPair := true;
      }
      j := j + 1;
    }
    if !hasPair && wildsLeft > 0 {
      hasPair := (exists k :: 0 <= k < |groups| && k != t && groups[k] == 1) || wildsLeft >= 2;
    }
    b := hasPair;
    assert b == PairAmong(groups, t, wildsLeft);
  }

  /** Without wild cards HasFullHouse is the textbook test: one value group of
      at least three and a different value group of at least two. */
  lemma FullHouseWithoutWilds(sizes: seq<nat>)
    ensures FullHouseAmong(sizes, 0) <==>
              exists a, b :: 0 <= a < |sizes| && 0 <= b < |sizes| && a != b && sizes[a] >= 3 && sizes[b] >= 2
  {
    if exists a, b :: 0 <= a < |sizes| && 0 <= b < |sizes| && a != b && sizes[a] >= 3 && sizes[b] >= 2 {
      var a, b :| 0 <= a < |sizes| && 0 <= b < |sizes| && a != b && sizes[a] >= 3 && sizes[b] >= 2;
      var t := FirstTriple(sizes, a);
      var other := if t == b then a else b;
      assert other != t && sizes[other] >= 2;
      assert PairAmong(sizes, t, WildsAfterTriple(0, sizes[t]));
    }
  }

  /** The first group in grouping order holding at least three naturals. */
  lemma {:induction false} FirstTriple(sizes: seq<nat>, k: nat) returns (t: nat)
    requires k < |sizes| && sizes[k] >= 3
    ensures t <= k && sizes[t] >= 3
    ensures forall j :: 0 <= j < t ==> sizes[j] < 3
  {
    if exists j :: 0 <= j < k && sizes[j] >= 3 {
      var j :| 0 <= j < k && sizes[j] >= 3;
      t := FirstTriple(sizes, j);
    } else {
      t := k;
    }
  }

  /** A full house contains three of a kind. */
  lemma FullHouseHasTriple(hand: seq<PlayingCard>)
    ensures FullHouseSpec(hand) ==> HasThreeOfAKind(hand)
  {
    if FullHouseSpec(hand) {
      var naturals := Naturals(hand);
      var ks := ValueKeys(naturals);
      var sizes := GroupSizes(naturals, ks);
      var i :| 0 <= i < |sizes| && sizes[i] + WildCount(hand) >= 3;
      assert ks[i] in ks;
    }
  }

  // ---------------------------------------------------------------------
  // Royal flush

  const RoyalValues: seq<int> := [10, 11, 12, 13, 14]

  /** The royal values (10 to 14, the Ace counting as Value 14) that no card
      among cs supplies. */
  function RoyalMissing(cs: seq<PlayingCard>): seq<int> {
    Where(RoyalValues, v => v !in Values(cs))
  }

  /** One suit group of HasRoyalFlush: it holds a natural card, and its own
      wild cards (not those of other suits) cover the missing royal values. */
  predicate RoyalIn(hand: seq<PlayingCard>, s: string) {
    RoyalGroup(WithSuit(hand, s))
  }

  predicate RoyalGroup(group: seq<PlayingCard>) {
    |Naturals(group)| > 0 && |RoyalMissing(Naturals(group))| <= |Wilds(group)|
  }

  predicate RoyalFlushSpec(hand: seq<PlayingCard>) {
    exists s :: s in SuitKeys(hand) && RoyalIn(hand, s)
  }

  /** PokerHandEvaluator.HasRoyalFlush: per suit group, strike the values of
      its natural cards off the list 10..14; the group qualifies when its wild
      cards are enough for what is left. */
  method HasRoyalFlush(hand: seq<PlayingCard>) returns (b: bool)
    ensures b == RoyalFlushSpec(hand)
  {
    var suits := SuitKeys(hand);
    var i := 0;
    while i < |suits|
      invariant 0 <= i <= |suits|
      invariant forall k :: 0 <= k < i ==> !RoyalIn(hand, suits[k])
    {
      var found := CheckRoyalGroup(WithSuit(hand, suits[i]));
      if found {
        RoyalSuitFound(hand, i);
        return true;
      }
      i := i + 1;
    }
    NoRoyalSuit(hand);
    return false;
  }

  lemma RoyalSuitFound(hand: seq<PlayingCard>, i: int)
    requires 0 <= i < |SuitKeys(hand)| && RoyalIn(hand, SuitKeys(hand)[i])
    ensures RoyalFlushSpec(hand)
  {
    assert SuitKeys(hand)[i] in SuitKeys(hand);
  }

  lemma NoRoyalSuit(hand: seq<PlayingCard>)
    requires forall k :: 0 <= k < |SuitKeys(hand)| ==> !RoyalIn(hand, SuitKeys(hand)[k])
    ensures !RoyalFlushSpec(hand)
  {
  }

  /** The body of HasRoyalFlush's loop for one suit group. */
  method CheckRoyalGroup(suitGroup: seq<PlayingCard>) returns (b: bool)
    ensures b == RoyalGroup(suitGroup)
  {
    b := false;
    if |Naturals(suitGroup)| > 0 {
      var suitedCards := SortBy(Naturals(suitGroup), ValueOf);
      var wildCards := Wilds(suitGroup);
      var requiredValues := StrikeRoyalValues(suitedCards);
      StruckAreMissing(Naturals(suitGroup), suitedCards, requiredValues);
      var wildsUsed := |requiredValues|;
      b := wildsUsed <= |wildCards|;
    }
  }

  /** The requiredValues loop of HasRoyalFlush: List.Remove of each card's value. */
  method StrikeRoyalValues(suitedCards: seq<PlayingCard>) returns (requiredValues: seq<int>)
    ensures Increasing(requiredValues)
    ensures forall v :: v in requiredValues <==>
              v in RoyalValues && forall k :: 0 <= k < |suitedCards| ==> suitedCards[k].value != v
  {
    requiredValues := RoyalValues;
    for j := 0 to |suitedCards|
      invariant Increasing(requiredValues)
      invariant forall v :: v in requiredValues <==>
                  v in RoyalValues && forall k :: 0 <= k < j ==> suitedCards[k].value != v
    {
      if suitedCards[j].value in requiredValues {
        RemoveFirstIncreasing(requiredValues, suitedCards[j].value);
        requiredValues := RemoveFirst(requiredValues, suitedCards[j].value);
      }
    }
  }

  /** The list left after striking the values of the sorted suited cards is
      exactly the missing royal values, in ascending order. */
  lemma StruckAreMissing(cs: seq<PlayingCard>, sorted: seq<PlayingCard>, required: seq<int>)
    requires multiset(sorted) == multiset(cs)
    requires Increasing(required)
    requires forall v :: v in required <==>
               v in RoyalValues && forall k :: 0 <= k < |sorted| ==> sorted[k].value != v
    ensures required == RoyalMissing(cs)
  {
    forall v | v in RoyalValues
      ensures (v in required) == (v !in Values(cs))
    {
      if v in Values(cs) {
        var i :| 0 <= i < |cs| && Values(cs)[i] == v;
        assert cs[i] in multiset(sorted);
        var k :| 0 <= k < |sorted| && sorted[k] == cs[i];
      }
      if exists k :: 0 <= k < |sorted| && sorted[k].value == v {
        var k :| 0 <= k < |sorted| && sorted[k].value == v;
        assert sorted[k] in multiset(cs);
        var i :| 0 <= i < |cs| && cs[i] == sorted[k];
        assert Values(cs)[i] == v;
      }
    }
    WhereIncreasing(RoyalValues, v => v !in Values(cs));
    IncreasingUnique(required, RoyalMissing(cs));
  }

  /** Without wild cards a royal flush is a suit holding natural cards of all
      five values 10, 11, 12, 13 and 14; an Ace stored as 1 does not count. */
  lemma RoyalFlushWithoutWilds(hand: seq<PlayingCard>, s: string)
    requires WildCount(hand) == 0
    requires s in SuitKeys(hand)
    ensures RoyalIn(hand, s) <==> forall v :: v in RoyalValues ==> v in Values(WithSuit(hand, s))
  {
    var group := WithSuit(hand, s);
    assert forall c :: c in hand ==> !c.isWild by {
      forall c | c in hand ensures !c.isWild {
        assert c.isWild ==> c in Wilds(hand);
      }
    }
    var c :| c in hand && c.suit == s;
    assert c in group;
    RoyalGroupWithoutWilds(group);
  }

  lemma RoyalGroupWithoutWilds(group: seq<PlayingCard>)
    requires |group| > 0
    requires forall c :: c in group ==> !c.isWild
    ensures RoyalGroup(group) <==> forall v :: v in RoyalValues ==> v in Values(group)
  {
    WhereAllOrNone(group, IsNatural);
    WhereAllOrNone(group, IsWildCard);
    assert Naturals(group) == group && Wilds(group) == [];
    if RoyalGroup(group) {
      assert RoyalMissing(group) == [];
      forall v | v in RoyalValues ensures v in Values(group) {
        assert v !in Values(group) ==> v in RoyalMissing(group);
      }
    } else {
      assert RoyalMissing(group) != [];
    }
  }
}
