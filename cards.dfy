/** Card.cs and PokerGameMode.cs: card identity, the Ace's high value, and the
    per-mode rule table that decides whether a card is wild. The C# class keeps
    the game mode, the follow-the-queen value and the current hand in static
    fields; here they are the fields of one WildContext object that every
    operation reading them is given. */
module Cards {
  import opened Outcomes
  import opened Sequences

  datatype PokerGameMode =
    | FiveCardDraw
    | DayBaseball
    | NightBaseball
    | FollowTheQueen
    | Woolworth
    | DeucesAndJacks
    | HighChicago
    | LowChicago
    | KingsAndLittleOnes

  /** Card.HighValue: the Ace stored as 1 counts as 14; every other value counts as itself. */
  function HighValue(value: int): (h: int)
    ensures value != 1 ==> h == value
    ensures value == 1 ==> h == 14
  {
    if value == 1 then 14 else value
  }

  /** Between them, the two readings of the ranks 1..13 are one-to-one onto 2..14. */
  lemma HighValueRanks(a: int, b: int)
    requires 1 <= a <= 13 && 1 <= b <= 13
    ensures 2 <= HighValue(a) <= 14
    ensures HighValue(a) == HighValue(b) ==> a == b
    ensures HighValue(a) == 14 <==> a == 1
  {
  }

  /** What the evaluator sees of a card: its suit, its value and whether it is
      wild at the moment of evaluation. */
  datatype PlayingCard = PlayingCard(suit: string, value: int, isWild: bool)

  /** Card.IsLowestValueInHand: only in Kings and Little Ones and only once a
      current hand is set; Enumerable.Min throws on an empty hand. */
  function IsLowestValueInHand(mode: PokerGameMode, currentHand: Option<seq<int>>, value: int): (r: Result<bool>)
    ensures r.Err? <==> mode == KingsAndLittleOnes && currentHand == Some([])
    ensures r == Ok(true) <==>
              mode == KingsAndLittleOnes && currentHand.Some? &&
              value in currentHand.value && forall v :: v in currentHand.value ==> value <= v
  {
    if mode != KingsAndLittleOnes || currentHand.None? then Ok(false)
    else if |currentHand.value| == 0 then Err(InvalidOperation)
    else Ok(value == Min(currentHand.value))
  }

  /** Card.SetWildStatus: the rule table, as a function of the game mode, the
      card, the follow-the-queen value and the values of the current hand. */
  function WildStatus(mode: PokerGameMode, suit: string, value: int,
                      followTheQueenWildValue: int, currentHand: Option<seq<int>>): (r: Result<bool>)
    ensures r.Err? <==> mode == KingsAndLittleOnes && value != 13 && currentHand == Some([])
  {
    match mode
    case FiveCardDraw => Ok(false)
    case DayBaseball => Ok(value == 3 || value == 9)
    case NightBaseball => Ok(value == 3 || value == 9)
    case Woolworth => Ok(value == 5 || value == 10)
    case DeucesAndJacks => Ok(value == 2 || value == 11 || (value == 13 && suit == "Diamond"))
    case FollowTheQueen => Ok(value == 12 || value == followTheQueenWildValue)
    case KingsAndLittleOnes =>
      if value == 13 then Ok(true) else IsLowestValueInHand(mode, currentHand, value)
    case _ => Ok(false)
  }

  /** The rule table row by row, stated as which cards are wild. */
  lemma WildStatusTable(mode: PokerGameMode, suit: string, value: int, q: int, hand: Option<seq<int>>)
    ensures mode in {FiveCardDraw, HighChicago, LowChicago} ==> WildStatus(mode, suit, value, q, hand) == Ok(false)
    ensures mode in {DayBaseball, NightBaseball} ==>
              (WildStatus(mode, suit, value, q, hand) == Ok(true) <==> value in {3, 9})
    ensures mode == Woolworth ==>
              (WildStatus(mode, suit, value, q, hand) == Ok(true) <==> value in {5, 10})
    ensures mode == DeucesAndJacks ==>
              (WildStatus(mode, suit, value, q, hand) == Ok(true) <==>
                 value in {2, 11} || (value == 13 && suit == "Diamond"))
    ensures mode == FollowTheQueen ==>
              (WildStatus(mode, suit, value, q, hand) == Ok(true) <==> value == 12 || value == q)
    ensures mode == KingsAndLittleOnes ==>
              (WildStatus(mode, suit, value, q, hand) == Ok(true) <==>
                 value == 13 ||
                 (hand.Some? && value in hand.value && forall v :: v in hand.value ==> value <= v))
    ensures mode != DeucesAndJacks ==>
              forall other: string :: WildStatus(mode, suit, value, q, hand) == WildStatus(mode, other, value, q, hand)
  {
  }

  /** With the follow-the-queen value unset (-1), as SetGameMode leaves it, only
      queens are wild in Follow the Queen (card values are never negative). */
  lemma FollowTheQueenUnset(suit: string, value: int, hand: Option<seq<int>>)
    requires value >= 0
    ensures WildStatus(FollowTheQueen, suit, value, -1, hand) == Ok(value == 12)
  {
  }

  /** The static state of Card.cs: the game mode, the follow-the-queen wild
      value (-1 when unset) and the current hand (null when unset). */
  class WildContext {
    var mode: PokerGameMode
    var followTheQueenWildValue: int
    var currentHand: Option<seq<Card>>

    /** The static initialisers: enum default, -1, null. */
    constructor ()
      ensures mode == FiveCardDraw && followTheQueenWildValue == -1 && currentHand == None
    {
      mode := FiveCardDraw;
      followTheQueenWildValue := -1;
      currentHand := None;
    }

    /** The values of the current hand; Suit and Value never change, so this
        reads only the context. */
    function HandValues(): (r: Option<seq<int>>)
      reads this
      ensures r.Some? <==> currentHand.Some?
      ensures r.Some? ==> |r.value| == |currentHand.value| &&
                          forall i :: 0 <= i < |r.value| ==> r.value[i] == currentHand.value[i].value
    {
      match currentHand
      case None => None
      case Some(h) => Some(seq(|h|, i requires 0 <= i < |h| => h[i].value))
    }

    ghost function HandCards(): set<Card>
      reads this
    {
      match currentHand
      case None => {}
      case Some(h) => set c | c in h
    }

    /** The wild flag the rule table gives a card under the current context. */
    function StatusOf(c: Card): Result<bool>
      reads this
    {
      WildStatus(mode, c.suit, c.value, followTheQueenWildValue, HandValues())
    }

    /** Card.SetGameMode: a new mode clears the follow-the-queen value. */
    method SetGameMode(gameMode: PokerGameMode)
      modifies this
      ensures mode == gameMode && followTheQueenWildValue == -1
      ensures currentHand == old(currentHand)
    {
      mode := gameMode;
      followTheQueenWildValue := -1;
    }

    /** Card.SetFollowTheQueenWildValue: stores the value and re-evaluates no card. */
    method SetFollowTheQueenWildValue(value: int)
      modifies this
      ensures followTheQueenWildValue == value
      ensures mode == old(mode) && currentHand == old(currentHand)
    {
      followTheQueenWildValue := value;
    }

    /** Card.GetFollowTheQueenWildValue. */
    method GetFollowTheQueenWildValue() returns (value: int)
      ensures value == followTheQueenWildValue
    {
      value := followTheQueenWildValue;
    }

    /** Card.UpdateAllCardsWildStatus: re-evaluates every card of the current
        hand, and nothing when no hand is set. */
    method UpdateAllCardsWildStatus()
      modifies HandCards()
      ensures forall c :: c in HandCards() ==> StatusOf(c).Ok? && c.isWild == StatusOf(c).value
    {
      if currentHand.Some? {
        var hand := currentHand.value;
        var i := 0;
        while i < |hand|
          invariant 0 <= i <= |hand|
          invariant forall k :: 0 <= k < i ==> StatusOf(hand[k]).Ok? && hand[k].isWild == StatusOf(hand[k]).value
        {
          var ok := hand[i].SetWildStatus(this);
          i := i + 1;
        }
      }
    }

    /** Card.SetCurrentHand: stores the hand, then re-evaluates its cards. */
    method SetCurrentHand(hand: Option<seq<Card>>)
      modifies this, if hand.Some? then set c | c in hand.value else {}
      ensures currentHand == hand && mode == old(mode)
      ensures followTheQueenWildValue == old(followTheQueenWildValue)
      ensures forall c :: c in HandCards() ==> StatusOf(c).Ok? && c.isWild == StatusOf(c).value
    {
      currentHand := hand;
      UpdateAllCardsWildStatus();
    }
  }

  class Card {
    const suit: string
    const value: int
    var isWild: bool

    /** new Card(suit, value, ...): Suit and Value are fixed here, and the
        wild flag is computed under the current context. */
    constructor (suit: string, value: int, ctx: WildContext)
      requires WildStatus(ctx.mode, suit, value, ctx.followTheQueenWildValue, ctx.HandValues()).Ok?
      ensures this.suit == suit && this.value == value
      ensures isWild == WildStatus(ctx.mode, suit, value, ctx.followTheQueenWildValue, ctx.HandValues()).value
    {
      this.suit := suit;
      this.value := value;
      isWild := WildStatus(ctx.mode, suit, value, ctx.followTheQueenWildValue, ctx.HandValues()).value;
    }

    /** The card as the evaluator sees it. */
    function Snapshot(): (p: PlayingCard)
      reads this
    {
      PlayingCard(suit, value, isWild)
    }

    /** Card.SetWildStatus. ok is false where Enumerable.Min throws, which
        leaves the flag as it was. */
    method SetWildStatus(ctx: WildContext) returns (ok: bool)
      modifies this
      ensures ok == ctx.StatusOf(this).Ok?
      ensures isWild == if ok then ctx.StatusOf(this).value else old(isWild)
    {
      var status := WildStatus(ctx.mode, suit, value, ctx.followTheQueenWildValue, ctx.HandValues());
      ok := status.Ok?;
      if ok {
        isWild := status.value;
      }
    }
  }
}
