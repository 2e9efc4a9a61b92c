/** The best-card lists of PokerHandEvaluator.cs (the Determine*Cards
    functions) that are plain list expressions: high card, flush, N of a kind,
    full house and one pair. Each returns the cards that decide ties, or an
    empty list when the hand does not hold the category. */
module BestCards {
  import opened Outcomes
  import opened Sequences
  import opened Cards
  import opened HandTests

  /** DetermineHighCard: the five cards of highest Value (all of them in a
      shorter hand), highest first, drawn from the hand. */
  function HighCardCards(hand: seq<PlayingCard>): (r: seq<PlayingCard>)
    ensures |r| == if |hand| < 5 then |hand| else 5
    ensures forall i, j :: 0 <= i < j < |r| ==> r[i].value >= r[j].value
    ensures multiset(r) <= multiset(hand)
  {
    Top(hand, ValueOf, 5)
  }

  /** DetermineFlushCards: the five cards of highest HighValue (all of them
      in a shorter hand), whatever their suit, highest first, drawn from the
      hand. */
  function FlushCards(hand: seq<PlayingCard>): (r: seq<PlayingCard>)
    ensures |r| == if |hand| < 5 then |hand| else 5
    ensures forall i, j :: 0 <= i < j < |r| ==> HighValue(r[i].value) >= HighValue(r[j].value)
    ensures multiset(r) <= multiset(hand)
  {
    Top(hand, HighValueOf, 5)
  }

  /** Splitting a list into its natural and its wild cards loses nothing. */
  lemma NaturalsAndWilds(cs: seq<PlayingCard>)
    ensures multiset(Naturals(cs)) + multiset(Wilds(cs)) == multiset(cs)
  {
    WherePartition(cs, IsWildCard, IsNatural);
  }

  /** Sorting keeps exactly the members. */
  lemma SortedMembers(cs: seq<PlayingCard>, key: PlayingCard -> int)
    ensures forall c :: c in SortByDescending(cs, key) ==> c in cs
  {
    var sorted := SortByDescending(cs, key);
    forall c | c in sorted ensures c in cs {
      assert c in multiset(sorted);
    }
  }

  /** Natural cards in descending Value followed by wild cards in descending
      Value: naturals first, and descending Value within each kind. */
  lemma NaturalsThenWilds(naturals: seq<PlayingCard>, wilds: seq<PlayingCard>)
    requires forall c :: c in naturals ==> !c.isWild
    requires forall c :: c in wilds ==> c.isWild
    requires forall i, j :: 0 <= i < j < |naturals| ==> naturals[i].value >= naturals[j].value
    requires forall i, j :: 0 <= i < j < |wilds| ==> wilds[i].value >= wilds[j].value
    ensures forall i, j :: 0 <= i < j < |naturals + wilds| && (naturals + wilds)[i].isWild ==> (naturals + wilds)[j].isWild
    ensures forall i, j :: 0 <= i < j < |naturals + wilds| && (naturals + wilds)[i].isWild == (naturals + wilds)[j].isWild ==>
              (naturals + wilds)[i].value >= (naturals + wilds)[j].value
  {
    var r := naturals + wilds;
    assert forall i :: 0 <= i < |naturals| ==> r[i] == naturals[i] && r[i] in naturals;
    assert forall i :: |naturals| <= i < |r| ==> r[i] == wilds[i - |naturals|] && r[i] in wilds;
  }

  /** OrderByDescending(card => !card.IsWild).ThenByDescending(card => card.Value):
      the natural cards, highest Value first, then the wild cards likewise. */
  function RankedGroup(group: seq<PlayingCard>): (r: seq<PlayingCard>)
    ensures multiset(r) == multiset(group)
    ensures forall i, j :: 0 <= i < j < |r| && r[i].isWild ==> r[j].isWild
    ensures forall i, j :: 0 <= i < j < |r| && r[i].isWild == r[j].isWild ==> r[i].value >= r[j].value
  {
    var naturals := SortByDescending(Naturals(group), ValueOf);
    var wilds := SortByDescending(Wilds(group), ValueOf);
    NaturalsAndWilds(group);
    SortedMembers(Naturals(group), ValueOf);
    SortedMembers(Wilds(group), ValueOf);
    NaturalsThenWilds(naturals, wilds);
    naturals + wilds
  }

  /** A prefix holds no more of anything than the whole list. */
  lemma PrefixMultiset(s: seq<PlayingCard>, t: seq<PlayingCard>)
    requires t <= s
    ensures multiset(t) <= multiset(s)
  {
    assert s == t + s[|t|..];
  }

  // ---------------------------------------------------------------------
  // N of a kind (DetermineFiveOfAKindCards, DetermineFourOfAKindCards,
  // DetermineThreeOfAKindCards)

  /** groupedByValue.Where(group => group.Count() + wildCount >= n)
      .OrderByDescending(group => group.Key), as the list of keys. */
  function Qualifying(naturals: seq<PlayingCard>, n: int, wildCount: int): (ks: seq<int>)
    ensures forall i, j :: 0 <= i < j < |ks| ==> ks[i] > ks[j]
    ensures forall k :: k in ks <==> k in ValueKeys(naturals) && ValueCount(naturals, k) + wildCount >= n
    ensures |ks| > 0 ==> forall k :: k in ks ==> k <= ks[0]
  {
    Descending(Where(ValueKeys(naturals), k => ValueCount(naturals, k) + wildCount >= n))
  }

  /** The two parts an N-of-a-kind group is made of: natural cards of one
      value and leading wild cards, together no more than the hand holds. */
  lemma GroupParts(hand: seq<PlayingCard>, k: int, need: int)
    ensures forall c :: c in WithValue(Naturals(hand), k) ==> !c.isWild && c.value == k
    ensures forall c :: c in Take(Wilds(hand), need) ==> c.isWild
    ensures multiset(WithValue(Naturals(hand), k)) + multiset(Take(Wilds(hand), need)) <= multiset(hand)
  {
    var naturals, wilds := Naturals(hand), Wilds(hand);
    NaturalsAndWilds(hand);
    WithValueMultiset(naturals, k);
    PrefixMultiset(wilds, Take(wilds, need));
    assert forall c :: c in Take(wilds, need) ==> c in wilds;
    assert multiset(WithValue(naturals, k)) + multiset(Take(wilds, need)) <= multiset(naturals) + multiset(wilds);
  }

  /** The group for value k: its natural cards and, when they are fewer than
      n, the hand's first wild cards to make up the difference. */
  function OfAKindGroup(hand: seq<PlayingCard>, k: int, n: int): (g: seq<PlayingCard>)
    requires ValueCount(Naturals(hand), k) + WildCount(hand) >= n
    ensures |g| >= n
    ensures forall c :: c in g && !c.isWild ==> c.value == k
    ensures multiset(g) <= multiset(hand)
  {
    var group := WithValue(Naturals(hand), k);
    var need := n - |group|;
    GroupParts(hand, k, need);
    if need > 0 then group + Take(Wilds(hand), need) else group
  }

  /** Some value qualifies exactly when the hand holds n of a kind. */
  lemma QualifyingMeansOfAKind(hand: seq<PlayingCard>, n: int)
    ensures |Qualifying(Naturals(hand), n, WildCount(hand))| > 0 <==> HasOfAKind(hand, n)
  {
    var ks := Qualifying(Naturals(hand), n, WildCount(hand));
    if |ks| > 0 {
      assert ks[0] in ks;
    }
    if HasOfAKind(hand, n) {
      var v :| v in ValueKeys(Naturals(hand)) && ValueCount(Naturals(hand), v) + WildCount(hand) >= n;
      assert v in ks;
    }
  }

  /** The N-of-a-kind best cards: the group of the highest value that makes n
      with the wild cards, naturals first, followed by the `kickers` highest
      of the hand's other cards. Five of a kind takes no kickers, four of a
      kind one and three of a kind two. */
  function OfAKindCards(hand: seq<PlayingCard>, n: int, kickers: int): (r: seq<PlayingCard>)
    requires n > 0
    ensures r != [] <==> HasOfAKind(hand, n)
  {
    QualifyingMeansOfAKind(hand, n);
    var ks := Qualifying(Naturals(hand), n, WildCount(hand));
    if |ks| == 0 then []
    else
      var g := OfAKindGroup(hand, ks[0], n);
      RankedGroup(g) + Top(Except(hand, g), ValueOf, kickers)
  }

  /** The first n cards of an N-of-a-kind list are wild cards or natural
      cards of the chosen value. */
  lemma OfAKindLeads(hand: seq<PlayingCard>, n: int, kickers: int)
    requires n > 0 && HasOfAKind(hand, n)
    ensures |OfAKindCards(hand, n, kickers)| >= n
    ensures forall i :: 0 <= i < n ==>
              OfAKindCards(hand, n, kickers)[i].isWild ||
              OfAKindCards(hand, n, kickers)[i].value == Qualifying(Naturals(hand), n, WildCount(hand))[0]
  {
    QualifyingMeansOfAKind(hand, n);
    var ks := Qualifying(Naturals(hand), n, WildCount(hand));
    var g := OfAKindGroup(hand, ks[0], n);
    var ranked := RankedGroup(g);
    var r := OfAKindCards(hand, n, kickers);
    assert r == ranked + Top(Except(hand, g), ValueOf, kickers);
    forall i | 0 <= i < n ensures r[i].isWild || r[i].value == ks[0] {
      assert r[i] == ranked[i];
      assert ranked[i] in multiset(g);
    }
  }

  /** The value an N-of-a-kind list is built on is the highest natural value
      whose cards, with all the wild cards, reach n. */
  lemma OfAKindTakesHighest(hand: seq<PlayingCard>, n: int, c: PlayingCard)
    requires n > 0 && HasOfAKind(hand, n)
    requires c in hand && !c.isWild && ValueCount(Naturals(hand), c.value) + WildCount(hand) >= n
    ensures c.value <= Qualifying(Naturals(hand), n, WildCount(hand))[0]
  {
    assert c in Naturals(hand);
    assert c.value in ValueKeys(Naturals(hand));
  }

  /** When the hand holds n of a kind, its list leads with n cards that are
      wild or of the chosen value. */
  lemma OfAKindLeadsWhenHeld(hand: seq<PlayingCard>, n: int, kickers: int)
    requires n > 0
    ensures var r := OfAKindCards(hand, n, kickers);
            var ks := Qualifying(Naturals(hand), n, WildCount(hand));
            r != [] ==> |ks| > 0 && |r| >= n && forall i :: 0 <= i < n ==> r[i].isWild || r[i].value == ks[0]
  {
    QualifyingMeansOfAKind(hand, n);
    if HasOfAKind(hand, n) {
      OfAKindLeads(hand, n, kickers);
    }
  }

  /** DetermineFiveOfAKindCards: non-empty exactly for five of a kind, and
      then led by five cards that are wild or of the highest qualifying value;
      no kicker. */
  function FiveOfAKindCards(hand: seq<PlayingCard>): (r: seq<PlayingCard>)
    ensures r != [] <==> HasFiveOfAKind(hand)
    ensures var ks := Qualifying(Naturals(hand), 5, WildCount(hand));
            r != [] ==> |ks| > 0 && |r| >= 5 && forall i :: 0 <= i < 5 ==> r[i].isWild || r[i].value == ks[0]
  {
    OfAKindLeadsWhenHeld(hand, 5, 0);
    OfAKindCards(hand, 5, 0)
  }

  /** DetermineFourOfAKindCards: non-empty exactly for four of a kind, and
      then led by four cards that are wild or of the highest qualifying value;
      one kicker follows. */
  function FourOfAKindCards(hand: seq<PlayingCard>): (r: seq<PlayingCard>)
    ensures r != [] <==> HasFourOfAKind(hand)
    ensures var ks := Qualifying(Naturals(hand), 4, WildCount(hand));
            r != [] ==> |ks| > 0 && |r| >= 4 && forall i :: 0 <= i < 4 ==> r[i].isWild || r[i].value == ks[0]
  {
    OfAKindLeadsWhenHeld(hand, 4, 1);
    OfAKindCards(hand, 4, 1)
  }

  /** DetermineThreeOfAKindCards: non-empty exactly for three of a kind, and
      then led by three cards that are wild or of the highest qualifying
      value; two kickers follow. */
  function ThreeOfAKindCards(hand: seq<PlayingCard>): (r: seq<PlayingCard>)
    ensures r != [] <==> HasThreeOfAKind(hand)
    ensures var ks := Qualifying(Naturals(hand), 3, WildCount(hand));
            r != [] ==> |ks| > 0 && |r| >= 3 && forall i :: 0 <= i < 3 ==> r[i].isWild || r[i].value == ks[0]
  {
    OfAKindLeadsWhenHeld(hand, 3, 2);
    OfAKindCards(hand, 3, 2)
  }

  // ---------------------------------------------------------------------
  // One pair (DeterminePairCards)

  /** A key of GroupsOfSize(naturals, size) names a group of exactly `size`
      natural cards of that value. */
  lemma GroupOfSize(hand: seq<PlayingCard>, v: int, size: int)
    requires v in GroupsOfSize(Naturals(hand), size)
    ensures |WithValue(Naturals(hand), v)| == size
    ensures forall c :: c in WithValue(Naturals(hand), v) ==> !c.isWild && c.value == v
  {
  }

  /** Without a natural pair, DeterminePairCards leads with the single of
      highest value and the hand's first wild card, when it has both. */
  function SingleLead(hand: seq<PlayingCard>): (lead: seq<PlayingCard>)
    ensures lead != [] <==> |GroupsOfSize(Naturals(hand), 1)| > 0 && WildCount(hand) > 0
    ensures lead != [] ==> |lead| == 2 && !lead[0].isWild && lead[1].isWild
  {
    var naturals := Naturals(hand);
    var singles := Descending(GroupsOfSize(naturals, 1));
    assert |GroupsOfSize(naturals, 1)| > 0 ==> GroupsOfSize(naturals, 1)[0] in singles;
    if |singles| > 0 && WildCount(hand) > 0 then
      GroupOfSize(hand, singles[0], 1);
      var single := WithValue(naturals, singles[0]);
      assert single[0] in single;
      assert Wilds(hand)[0] in Wilds(hand);
      single + [Wilds(hand)[0]]
    else
      []
  }

  /** The two cards DeterminePairCards leads with: the natural pair of highest
      value, else the single lead. */
  function PairLead(hand: seq<PlayingCard>): (lead: seq<PlayingCard>)
    ensures lead != [] <==> |GroupsOfSize(Naturals(hand), 2)| > 0 || SingleLead(hand) != []
    ensures lead != [] ==> |lead| == 2
    ensures forall v :: v in GroupsOfSize(Naturals(hand), 2) ==> |lead| > 0 && v <= lead[0].value
  {
    var naturals := Naturals(hand);
    var pairs := Descending(GroupsOfSize(naturals, 2));
    assert |GroupsOfSize(naturals, 2)| > 0 ==> GroupsOfSize(naturals, 2)[0] in pairs;
    if |pairs| > 0 then
      GroupOfSize(hand, pairs[0], 2);
      var topPair := WithValue(naturals, pairs[0]);
      assert topPair[0] in topPair;
      topPair
    else
      SingleLead(hand)
  }

  /** The lead is a natural card followed by a card of the same value or by
      a wild card. */
  lemma PairLeadShape(hand: seq<PlayingCard>)
    requires PairLead(hand) != []
    ensures !PairLead(hand)[0].isWild
    ensures PairLead(hand)[1].isWild || PairLead(hand)[1].value == PairLead(hand)[0].value
  {
    var naturals := Naturals(hand);
    var pairs := Descending(GroupsOfSize(naturals, 2));
    if |pairs| > 0 {
      GroupOfSize(hand, pairs[0], 2);
      var lead := WithValue(naturals, pairs[0]);
      assert lead[0] in lead && lead[1] in lead;
    }
  }

  /** DeterminePairCards: the lead pair and the three highest other cards. */
  function PairCards(hand: seq<PlayingCard>): (r: seq<PlayingCard>)
    ensures r != [] <==> PairLead(hand) != []
    ensures r != [] ==> |r| >= 2 && r[..2] == PairLead(hand) && |r| <= 5
  {
    var lead := PairLead(hand);
    if lead == [] then [] else lead + Top(Except(hand, lead), ValueOf, 3)
  }

  // ---------------------------------------------------------------------
  // Full house (DetermineFullHouseCards)

  /** The wild count after the triple on value t: the wild cards its natural
      group lacks of three are subtracted, so a group of four adds one. */
  function TripleWildsLeft(hand: seq<PlayingCard>, t: int): int {
    WildCount(hand) - (3 - ValueCount(Naturals(hand), t))
  }

  /** The natural cards of value k: cards of the hand, none twice. */
  lemma ValueGroup(hand: seq<PlayingCard>, k: int)
    ensures var g := WithValue(Naturals(hand), k);
            multiset(g) <= multiset(hand) && forall c :: c in g ==> !c.isWild && c.value == k
  {
    GroupParts(hand, k, 0);
  }

  /** A part of a full house: the natural cards of value v, joined by the
      first wild cards they lack of `size` only while the wild count is
      positive (the triple counts the wild cards its naturals lack before
      that test, the pair after). */
  function FullHousePart(cs: seq<PlayingCard>, v: int, size: int, wildCount: int): seq<PlayingCard> {
    if wildCount > 0 then WithValue(Naturals(cs), v) + Take(Wilds(cs), size - ValueCount(Naturals(cs), v))
    else WithValue(Naturals(cs), v)
  }

  /** A part of a full house holds cards of the list, none twice: all its
      natural cards of value v, and wild cards only while the wild count is
      positive. */
  lemma FullHousePartCards(cs: seq<PlayingCard>, v: int, size: int, wildCount: int)
    ensures var g := FullHousePart(cs, v, size, wildCount);
            multiset(g) <= multiset(cs) && WithValue(Naturals(cs), v) <= g &&
            (forall c :: c in g && !c.isWild ==> c.value == v) &&
            (wildCount <= 0 ==> forall c :: c in g ==> !c.isWild)
  {
    if wildCount > 0 {
      PartWithWilds(cs, v, size, wildCount);
    } else {
      PartWithoutWilds(cs, v, size, wildCount);
    }
  }

  /** A list made of natural cards of value v followed by wild cards, the
      two together no more than cs holds. */
  lemma JoinedParts(g: seq<PlayingCard>, group: seq<PlayingCard>, wilds: seq<PlayingCard>, cs: seq<PlayingCard>, v: int)
    requires g == group + wilds
    requires multiset(group) + multiset(wilds) <= multiset(cs)
    requires forall c :: c in group ==> !c.isWild && c.value == v
    requires forall c :: c in wilds ==> c.isWild
    ensures multiset(g) <= multiset(cs) && group <= g
    ensures forall c :: c in g && !c.isWild ==> c.value == v
  {
    assert multiset(g) == multiset(group) + multiset(wilds);
    forall c | c in g && !c.isWild ensures c.value == v {
      assert c in group || c in wilds;
    }
  }

  /** A value group joined by leading wild cards: cards of the list, none
      twice, the naturals all of value v and all of them kept. */
  lemma GroupWithWilds(g: seq<PlayingCard>, cs: seq<PlayingCard>, v: int, need: int)
    requires g == WithValue(Naturals(cs), v) + Take(Wilds(cs), need)
    ensures multiset(g) <= multiset(cs) && WithValue(Naturals(cs), v) <= g
    ensures forall c :: c in g && !c.isWild ==> c.value == v
  {
    GroupParts(cs, v, need);
    JoinedParts(g, WithValue(Naturals(cs), v), Take(Wilds(cs), need), cs, v);
  }

  lemma PartWithWilds(cs: seq<PlayingCard>, v: int, size: int, wildCount: int)
    requires wildCount > 0
    ensures var g := FullHousePart(cs, v, size, wildCount);
            multiset(g) <= multiset(cs) && WithValue(Naturals(cs), v) <= g &&
            forall c :: c in g && !c.isWild ==> c.value == v
  {
    var need := size - ValueCount(Naturals(cs), v);
    GroupWithWilds(FullHousePart(cs, v, size, wildCount), cs, v, need);
  }

  lemma PartWithoutWilds(cs: seq<PlayingCard>, v: int, size: int, wildCount: int)
    requires wildCount <= 0
    ensures var g := FullHousePart(cs, v, size, wildCount);
            multiset(g) <= multiset(cs) && WithValue(Naturals(cs), v) <= g &&
            forall c :: c in g ==> !c.isWild && c.value == v
  {
    ValueGroup(cs, v);
  }

  /** DetermineFullHouseCards. The triple is the highest value reaching 3 with
      the wild cards; the pair is the highest value of the cards the triple
      left reaching 2 with the wild count the triple left. Each part is
      ranked naturals first. */
  function FullHouseCards(hand: seq<PlayingCard>): (r: seq<PlayingCard>)
    ensures r != [] ==> HasThreeOfAKind(hand)
  {
    var triples := Qualifying(Naturals(hand), 3, WildCount(hand));
    QualifyingMeansOfAKind(hand, 3);
    if |triples| == 0 then []
    else
      var wildCount := TripleWildsLeft(hand, triples[0]);
      var triple := FullHousePart(hand, triples[0], 3, wildCount);
      var remainingCards := Except(hand, triple);
      var pairs := Qualifying(Naturals(remainingCards), 2, wildCount);
      if |pairs| == 0 then []
      else RankedGroup(triple) + RankedGroup(FullHousePart(remainingCards, pairs[0], 2, wildCount))
  }

  /** The pair is drawn from cards outside the triple, so the two parts
      together use no card of the hand twice. */
  lemma DisjointParts(hand: seq<PlayingCard>, triple: seq<PlayingCard>, rest: seq<PlayingCard>, pair: seq<PlayingCard>)
    requires multiset(triple) <= multiset(hand)
    requires multiset(pair) <= multiset(rest)
    requires NoDuplicates(rest)
    requires forall x :: x in rest ==> x in hand && x !in triple
    ensures multiset(triple + pair) <= multiset(hand)
  {
    forall x ensures multiset(triple + pair)[x] <= multiset(hand)[x] {
      if x in multiset(pair) {
        NoDuplicatesOnce(rest, x);
        assert x in rest && x !in multiset(triple);
      }
    }
  }

  /** Naturals first, then descending Value within each kind: the order
      RankedGroup gives. */
  predicate Ranked(r: seq<PlayingCard>) {
    (forall i, j :: 0 <= i < j < |r| && r[i].isWild ==> r[j].isWild) &&
    (forall i, j :: 0 <= i < j < |r| && r[i].isWild == r[j].isWild ==> r[i].value >= r[j].value)
  }

  /** Every card is wild or of value v. */
  predicate WildOrValue(r: seq<PlayingCard>, v: int) {
    forall c :: c in r ==> c.isWild || c.value == v
  }

  /** A group holding a natural card, whose natural cards are all of value
      v, ranks into a list led by a natural card of value v. */
  lemma RankedPart(g: seq<PlayingCard>, v: int, c: PlayingCard)
    requires c in g && !c.isWild
    requires forall d :: d in g && !d.isWild ==> d.value == v
    ensures var r := RankedGroup(g);
            |r| > 0 && !r[0].isWild && r[0].value == v && WildOrValue(r, v) && Ranked(r)
  {
    var r := RankedGroup(g);
    var naturals := SortByDescending(Naturals(g), ValueOf);
    assert c in Naturals(g);
    assert |naturals| > 0;
    SortedMembers(Naturals(g), ValueOf);
    assert naturals[0] in Naturals(g);
    assert r[0] == naturals[0];
    forall d | d in r ensures d.isWild || d.value == v {
      assert d in multiset(g);
    }
  }

  /** A natural card left over by a triple that holds every natural card of
      value t is of another value. */
  lemma OutsideTriple(hand: seq<PlayingCard>, t: int, triple: seq<PlayingCard>, c: PlayingCard)
    requires WithValue(Naturals(hand), t) <= triple
    requires c in Naturals(Except(hand, triple))
    ensures c.value != t
  {
    assert c in Except(hand, triple);
    assert c !in WithValue(Naturals(hand), t);
  }

  /** A value among the keys of the natural cards has a natural card. */
  lemma KeyWitness(cs: seq<PlayingCard>, k: int) returns (c: PlayingCard)
    requires k in ValueKeys(Naturals(cs))
    ensures c in Naturals(cs) && c in WithValue(Naturals(cs), k) && !c.isWild && c.value == k
  {
    c :| c in Naturals(cs) && c.value == k;
  }

  /** What DetermineFullHouseCards returns, when anything: cards of the hand,
      none used twice, in two parts. The first k are the triple: natural
      cards of the highest value t that reaches three with the wild cards
      (all of the hand's naturals of that value) and wild cards. The rest is
      the pair: natural cards of another value v, the highest among the
      cards the triple left that reaches two with the wild count the triple
      left, and wild cards. Each part
      leads with a natural card and is ranked naturals first, then by
      descending Value. */
  lemma FullHouseCardsShape(hand: seq<PlayingCard>) returns (k: int, v: int)
    requires FullHouseCards(hand) != []
    ensures |Qualifying(Naturals(hand), 3, WildCount(hand))| > 0
    ensures var t := Qualifying(Naturals(hand), 3, WildCount(hand))[0];
            var rest := Except(hand, FullHousePart(hand, t, 3, TripleWildsLeft(hand, t)));
            var pairs := Qualifying(Naturals(rest), 2, TripleWildsLeft(hand, t));
            |pairs| > 0 && v == pairs[0]
    ensures var r := FullHouseCards(hand);
            var t := Qualifying(Naturals(hand), 3, WildCount(hand))[0];
            multiset(r) <= multiset(hand) && 0 < k < |r| && v != t &&
            !r[0].isWild && r[0].value == t && !r[k].isWild && r[k].value == v &&
            WildOrValue(r[..k], t) && WildOrValue(r[k..], v) && Ranked(r[..k]) && Ranked(r[k..]) &&
            forall c :: c in Naturals(hand) && c.value == t ==> c in r[..k]
  {
    var naturals := Naturals(hand);
    QualifyingMeansOfAKind(hand, 3);
    var t := Qualifying(naturals, 3, WildCount(hand))[0];
    var wildCount := TripleWildsLeft(hand, t);
    var triple := FullHousePart(hand, t, 3, wildCount);
    FullHousePartCards(hand, t, 3, wildCount);
    var rest := Except(hand, triple);
    var pairs := Qualifying(Naturals(rest), 2, wildCount);
    v := pairs[0];
    var pair := FullHousePart(rest, v, 2, wildCount);
    FullHousePartCards(rest, v, 2, wildCount);
    var r1, r2 := RankedGroup(triple), RankedGroup(pair);
    assert FullHouseCards(hand) == r1 + r2;
    k := |r1|;
    // no card twice
    assert forall x :: x in rest ==> x in hand && x !in triple;
    DisjointParts(hand, triple, rest, pair);
    // a natural card leads each part
    var ct := KeyWitness(hand, t);
    RankedPart(triple, t, ct);
    var cv := KeyWitness(rest, v);
    RankedPart(pair, v, cv);
    // every natural of value t is in the triple, so the pair's value differs
    OutsideTriple(hand, t, triple, cv);
    KeepsNaturals(WithValue(naturals, t), triple, r1);
    TwoPartLayout(FullHouseCards(hand), r1, r2, triple, pair, hand, t, v);
  }

  /** Two ranked parts, each led by a natural card and holding only wild
      cards or cards of its value, laid one after the other, with no more
      cards than the hand holds. */
  lemma TwoPartLayout(r: seq<PlayingCard>, r1: seq<PlayingCard>, r2: seq<PlayingCard>,
                      a: seq<PlayingCard>, b: seq<PlayingCard>, hand: seq<PlayingCard>, t: int, v: int)
    requires r == r1 + r2
    requires multiset(r1) == multiset(a) && multiset(r2) == multiset(b) && multiset(a + b) <= multiset(hand)
    requires |r1| > 0 && !r1[0].isWild && r1[0].value == t && WildOrValue(r1, t) && Ranked(r1)
    requires |r2| > 0 && !r2[0].isWild && r2[0].value == v && WildOrValue(r2, v) && Ranked(r2)
    ensures multiset(r) <= multiset(hand) && 0 < |r1| < |r|
    ensures !r[0].isWild && r[0].value == t && !r[|r1|].isWild && r[|r1|].value == v
    ensures r[..|r1|] == r1 && r[|r1|..] == r2
  {
    assert r[..|r1|] == r1 && r[|r1|..] == r2;
    assert multiset(r) == multiset(a + b);
  }

  /** A list holding every card of `group` keeps them when ranked. */
  lemma KeepsNaturals(group: seq<PlayingCard>, g: seq<PlayingCard>, ranked: seq<PlayingCard>)
    requires group <= g && multiset(ranked) == multiset(g)
    ensures forall c :: c in group ==> c in ranked
  {
    forall c | c in group ensures c in ranked {
      assert c in multiset(g);
    }
  }

  /** When the triple needs every wild card, DetermineFullHouseCards adds no
      wild card anywhere: two natural pairs and one wild card, for instance,
      give the four natural cards. */
  lemma FullHouseWithoutSpareWilds(hand: seq<PlayingCard>)
    requires |Qualifying(Naturals(hand), 3, WildCount(hand))| > 0
    requires TripleWildsLeft(hand, Qualifying(Naturals(hand), 3, WildCount(hand))[0]) <= 0
    ensures forall c :: c in FullHouseCards(hand) ==> !c.isWild
  {
    var r := FullHouseCards(hand);
    var t := Qualifying(Naturals(hand), 3, WildCount(hand))[0];
    var wildCount := TripleWildsLeft(hand, t);
    var triple := FullHousePart(hand, t, 3, wildCount);
    FullHousePartCards(hand, t, 3, wildCount);
    var rest := Except(hand, triple);
    var pairs := Qualifying(Naturals(rest), 2, wildCount);
    if |pairs| > 0 {
      var pair := FullHousePart(rest, pairs[0], 2, wildCount);
      FullHousePartCards(rest, pairs[0], 2, wildCount);
      assert r == RankedGroup(triple) + RankedGroup(pair);
      forall c | c in r ensures !c.isWild {
        if c in RankedGroup(triple) {
          assert c in multiset(triple);
        } else {
          assert c in multiset(RankedGroup(pair));
        }
      }
    }
  }
}
