/** Deck.cs: a standard 52-card deck built suit by suit, shuffled in place by
    Fisher-Yates and dealt from the top. The random source becomes a
    parameter: the sequence of indices that System.Random.Next hands the
    shuffle, one per step. */
module Decks {
  import opened Outcomes
  import opened Cards

  /** Deck.Suits, in order. */
  const Suits: seq<string> := ["Club", "Diamond", "Heart", "Spade"]

  /** The i-th card InitializeDeck adds: 13 values 2..14 for each suit in turn. */
  function DeckSlot(i: int): (string, int)
    requires 0 <= i < 52
  {
    (Suits[i / 13], 2 + i % 13)
  }

  /** The suits and values of a new deck, in the order they are added. */
  function StandardDeck(): seq<(string, int)> {
    seq(52, i requires 0 <= i < 52 => DeckSlot(i))
  }

  /** A new deck holds every suit-value pair once: every suit of Suits with
      every value 2..14 is in it, nothing else is, and no two slots agree. */
  lemma StandardDeckComplete()
    ensures |StandardDeck()| == 52
    ensures forall s, v :: s in Suits && 2 <= v <= 14 ==> (s, v) in StandardDeck()
    ensures forall c :: c in StandardDeck() ==> c.0 in Suits && 2 <= c.1 <= 14
    ensures forall i, j :: 0 <= i < j < 52 ==> StandardDeck()[i] != StandardDeck()[j]
  {
    var d := StandardDeck();
    forall s, v | s in Suits && 2 <= v <= 14 ensures (s, v) in d {
      var k :| 0 <= k < 4 && Suits[k] == s;
      var i := 13 * k + v - 2;
      assert i / 13 == k && i % 13 == v - 2;
      assert d[i] == (s, v);
    }
    forall i, j | 0 <= i < j < 52 ensures d[i] != d[j] {
      SlotsDiffer(i, j);
    }
  }

  /** Two slots of the deck differ in suit or in value. */
  lemma SlotsDiffer(i: int, j: int)
    requires 0 <= i < j < 52
    ensures DeckSlot(i) != DeckSlot(j)
  {
    if i / 13 == j / 13 {
      assert i % 13 != j % 13;
    } else {
      assert Suits[i / 13] != Suits[j / 13];
    }
  }

  /** The list with entries i and j exchanged. */
  function Swap<T>(s: seq<T>, i: int, j: int): (r: seq<T>)
    requires 0 <= i < |s| && 0 <= j < |s|
    ensures |r| == |s| && multiset(r) == multiset(s)
  {
    s[i := s[j]][j := s[i]]
  }

  /** The picks fit a shuffle of the first n entries: one per step, the step
      that fixes position m (from n - 1 down to 1) drawing from 0..m, as
      Random.Next(m + 1) does. */
  predicate ValidPicks(picks: seq<int>, n: int) {
    |picks| == (if n > 1 then n - 1 else 0) &&
    forall j :: 0 <= j < |picks| ==> 0 <= picks[j] < n - j
  }

  /** After the first step, the remaining picks fit the shuffle of one fewer. */
  lemma PicksTail(picks: seq<int>, n: int)
    requires n > 1 && ValidPicks(picks, n)
    ensures ValidPicks(picks[1..], n - 1) && 0 <= picks[0] < n
  {
    assert forall j :: 0 <= j < |picks| - 1 ==> picks[1..][j] == picks[j + 1];
  }

  /** What Shuffle leaves in the first n positions after its remaining
      steps: the last of them swaps with the first pick, and the rest is
      the shuffle of one fewer. */
  function Shuffled<T>(s: seq<T>, n: int, picks: seq<int>): seq<T>
    requires 0 <= n <= |s| && ValidPicks(picks, n)
    decreases n
  {
    if n <= 1 then s
    else Shuffled(Swap(s, picks[0], n - 1), n - 1, picks[1..])
  }

  /** Shuffling only rearranges: the same cards, as many of each. */
  lemma {:induction false} ShuffledPermutes<T>(s: seq<T>, n: int, picks: seq<int>)
    requires 0 <= n <= |s| && ValidPicks(picks, n)
    ensures |Shuffled(s, n, picks)| == |s|
    ensures multiset(Shuffled(s, n, picks)) == multiset(s)
    decreases n
  {
    if n > 1 {
      ShuffledPermutes(Swap(s, picks[0], n - 1), n - 1, picks[1..]);
    }
  }

  /** Each pick that names the position being fixed leaves it in place: with
      those picks the shuffle changes nothing. */
  lemma {:induction false} ShuffledIdentity<T>(s: seq<T>, n: int, picks: seq<int>)
    requires 0 <= n <= |s| && ValidPicks(picks, n)
    requires forall j :: 0 <= j < |picks| ==> picks[j] == n - 1 - j
    ensures Shuffled(s, n, picks) == s
    decreases n
  {
    if n > 1 {
      assert Swap(s, picks[0], n - 1) == s;
      ShuffledIdentity(s, n - 1, picks[1..]);
    }
  }

  /** Card c is the i-th card of a new deck, its wild flag set by the rule
      table under ctx. */
  predicate MadeFor(c: Card, i: int, ctx: WildContext)
    requires 0 <= i < 52
    reads c, ctx
  {
    (c.suit, c.value) == StandardDeck()[i] && ctx.StatusOf(c) == Ok(c.isWild)
  }

  class Deck {
    var cards: seq<Card>

    /** new Deck(): InitializeDeck, each card made with the wild flags of the
        given game context. */
    constructor (ctx: WildContext)
      requires ctx.mode == KingsAndLittleOnes ==> ctx.currentHand != Some([])
      ensures |cards| == 52
      ensures forall i :: 0 <= i < 52 ==> MadeFor(cards[i], i, ctx)
      ensures forall i, j :: 0 <= i < j < 52 ==> cards[i] != cards[j]
      ensures forall i :: 0 <= i < 52 ==> fresh(cards[i])
    {
      var built: seq<Card> := [];
      for s := 0 to 4
        invariant |built| == 13 * s
        invariant forall i :: 0 <= i < |built| ==> MadeFor(built[i], i, ctx)
        invariant forall i, j :: 0 <= i < j < |built| ==> built[i] != built[j]
        invariant forall i :: 0 <= i < |built| ==> fresh(built[i])
      {
        for value := 2 to 15
          invariant |built| == 13 * s + value - 2
          invariant forall i :: 0 <= i < |built| ==> MadeFor(built[i], i, ctx)
          invariant forall i, j :: 0 <= i < j < |built| ==> built[i] != built[j]
          invariant forall i :: 0 <= i < |built| ==> fresh(built[i])
        {
          var card := new Card(Suits[s], value, ctx);
          assert DeckSlot(|built|) == (Suits[s], value);
          built := built + [card];
        }
      }
      cards := built;
    }

    /** Deck.Shuffle: Fisher-Yates from the last position down, swapping each
        with the position the next pick names. The swaps are made on a local
        copy that is stored at the end, and the picks are consumed from the
        front as the random source hands them out. */
    method Shuffle(picks: seq<int>)
      requires ValidPicks(picks, |cards|)
      modifies this
      ensures cards == Shuffled(old(cards), |old(cards)|, picks)
      ensures multiset(cards) == multiset(old(cards)) && |cards| == |old(cards)|
    {
      var deck := cards;
      var n := |deck|;
      var rest := picks;
      while n > 1
        modifies {}
        invariant 0 <= n <= |deck| == |cards|
        invariant ValidPicks(rest, n)
        invariant Shuffled(deck, n, rest) == Shuffled(cards, |cards|, picks)
        decreases n
      {
        PicksTail(rest, n);
        n := n - 1;
        var k := rest[0];
        rest := rest[1..];
        var value := deck[k];
        deck := deck[k := deck[n]];
        deck := deck[n := value];
      }
      ShuffledPermutes(cards, |cards|, picks);
      cards := deck;
    }

    /** Deck.Deal: the top card comes off the deck; an empty deck throws. */
    method Deal() returns (r: Result<Card>)
      modifies this
      ensures |old(cards)| == 0 ==> r == Err(InvalidOperation) && cards == old(cards)
      ensures |old(cards)| > 0 ==> r.Ok? && [r.value] + cards == old(cards)
    {
      if |cards| == 0 {
        return Err(InvalidOperation);
      }
      var cardToDeal := cards[0];
      cards := cards[1..];
      return Ok(cardToDeal);
    }

    /** Deck.CardsRemaining. */
    method CardsRemaining() returns (count: int)
      ensures count == |cards|
    {
      return |cards|;
    }
  }
}
