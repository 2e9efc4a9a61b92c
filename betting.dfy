/** BetManager.cs: the pot, the bet to match, and the dealer, blind and
    current-player seats over a fixed list of players. Chips only move
    between stacks and the pot, so every betting action keeps the pot plus
    all stacks unchanged. */
module Betting {
  import opened Sequences
  import opened Players

  /** How many seats on from `start` seat j is, going round a table of n
      seats: 1 for the next seat, n for `start` itself. */
  function SeatsOn(n: int, start: int, j: int): (d: int)
    ensures 0 <= start < n && 0 <= j < n ==> 1 <= d <= n
  {
    if j > start then j - start else j - start + n
  }

  /** (i + 1) % n on a seat: the next seat, back to 0 after the last. */
  lemma NextSeat(i: int, n: int)
    requires 0 <= i < n
    ensures (i + 1) % n == if i + 1 < n then i + 1 else 0
  {
  }

  /** Stepping one seat on from any seat but `start` itself goes one seat
      further from `start`; and no two seats are the same distance on. */
  lemma SeatsOnStep(n: int, start: int, seat: int)
    requires 0 <= start < n && 0 <= seat < n
    ensures seat != start ==> SeatsOn(n, start, (seat + 1) % n) == SeatsOn(n, start, seat) + 1
    ensures SeatsOn(n, start, (start + 1) % n) == 1
    ensures forall j :: 0 <= j < n && SeatsOn(n, start, j) == SeatsOn(n, start, seat) ==> j == seat
  {
    NextSeat(seat, n);
    NextSeat(start, n);
  }

  /** The seats NextDealer gives the button, the small blind and the big
      blind after a button in seat d: three different seats at a table of
      three or more, the big blind back on the button at a table of two,
      and all on seat 0 at a table of one. */
  lemma DealerSeats(d: int, n: int)
    requires 0 <= d < n
    ensures var button := (d + 1) % n;
            var small := (button + 1) % n;
            var big := (button + 2) % n;
            0 <= small < n && 0 <= big < n &&
            (n >= 3 ==> button != small && small != big && big != button) &&
            (n == 2 ==> small != button && big == button) &&
            (n == 1 ==> button == 0 && small == 0 && big == 0)
  {
    NextSeat(d, n);
    var button := (d + 1) % n;
    NextSeat(button, n);
    var small := (button + 1) % n;
    NextSeat(small, n);
    assert (button + 2) % n == (small + 1) % n;
  }

  class BetManager {
    const players: seq<Player>
    var dealerIndex: int
    var smallBlindIndex: int
    var bigBlindIndex: int
    var currentPlayerIndex: int
    var totalPot: int
    var currentBet: int
    const smallBlindAmount: int
    const bigBlindAmount: int

    /** The seats the code indexes without a check are in range, and no
        player sits twice. The blind seats are checked where the blinds are
        posted: the constructor puts them in seats 1 and 2 whatever the
        table's size. */
    predicate Valid()
      reads this
    {
      |players| > 0 && SeatsDistinct() &&
      0 <= dealerIndex < |players| && 0 <= currentPlayerIndex < |players| &&
      0 <= smallBlindIndex && 0 <= bigBlindIndex
    }

    /** No player sits twice. */
    predicate SeatsDistinct() {
      forall i, j :: 0 <= i < j < |players| ==> players[i] != players[j]
    }

    /** The players' stacks, seat by seat. */
    function Stacks(): seq<int>
      reads players
    {
      seq(|players|, i reads players requires 0 <= i < |players| => players[i].totalChips)
    }

    /** The players' current bets, seat by seat. */
    function Bets(): seq<int>
      reads players
    {
      seq(|players|, i reads players requires 0 <= i < |players| => players[i].currentBet)
    }

    /** All the chips on the table: the pot and every stack. */
    function Chips(): int
      reads this, players
    {
      totalPot + Sum(Stacks())
    }

    /** Seat j is the first seat after `start`, going round the table, whose
        player is still in the round. */
    predicate NextInRound(start: int, j: int)
      reads players
    {
      0 <= j < |players| && players[j].isInRound &&
      forall k :: 0 <= k < |players| && SeatsOn(|players|, start, k) < SeatsOn(|players|, start, j) ==>
        !players[k].isInRound
    }

    /** The next seat in the round is unique. */
    lemma NextInRoundUnique(start: int, j1: int, j2: int)
      requires 0 <= start < |players|
      requires NextInRound(start, j1) && NextInRound(start, j2)
      ensures j1 == j2
    {
    }

    /** One seat's player changed and no other: the sums of stacks and bets
        change by that player's differences. */
    twostate lemma OneSeatChanged(i: int)
      requires Valid() && 0 <= i < |players|
      requires forall k :: 0 <= k < |players| && k != i ==>
                 players[k].totalChips == old(players[k].totalChips) &&
                 players[k].currentBet == old(players[k].currentBet)
      ensures Sum(Stacks()) == old(Sum(Stacks())) - old(players[i].totalChips) + players[i].totalChips
      ensures Sum(Bets()) == old(Sum(Bets())) - old(players[i].currentBet) + players[i].currentBet
    {
      assert Stacks() == old(Stacks())[i := players[i].totalChips];
      SumUpdate(old(Stacks()), i, players[i].totalChips);
      assert Bets() == old(Bets())[i := players[i].currentBet];
      SumUpdate(old(Bets()), i, players[i].currentBet);
    }

    /** new BetManager(players, smallBlindAmount, bigBlindAmount): the dealer
        in seat 0, the blinds in seats 1 and 2, the seat after the big blind
        to act (the modulus throws for an empty list). */
    constructor (players: seq<Player>, smallBlindAmount: int, bigBlindAmount: int)
      requires |players| > 0
      requires forall i, j :: 0 <= i < j < |players| ==> players[i] != players[j]
      ensures Valid() && this.players == players
      ensures this.smallBlindAmount == smallBlindAmount && this.bigBlindAmount == bigBlindAmount
      ensures dealerIndex == 0 && smallBlindIndex == 1 && bigBlindIndex == 2
      ensures currentPlayerIndex == 3 % |players|
      ensures totalPot == 0 && currentBet == bigBlindAmount
    {
      this.players := players;
      this.smallBlindAmount := smallBlindAmount;
      this.bigBlindAmount := bigBlindAmount;
      dealerIndex := 0;
      smallBlindIndex := 1;
      bigBlindIndex := 2;
      currentPlayerIndex := (2 + 1) % |players|;
      totalPot := 0;
      currentBet := bigBlindAmount;
    }

    /** The pay-in that PlaceBlind, PlayerCall and PlayerRaise each spell
        out: the player bets the amount, or the whole stack when it does not
        cover the amount, and the pot grows by exactly what was paid. ok
        says whether the first bet was accepted. */
    method PayIn(playerIndex: int, amount: int) returns (ok: bool)
      requires Valid() && 0 <= playerIndex < |players|
      modifies this, players[playerIndex]
      ensures Valid() && currentBet == old(currentBet)
      ensures dealerIndex == old(dealerIndex) && smallBlindIndex == old(smallBlindIndex)
      ensures bigBlindIndex == old(bigBlindIndex) && currentPlayerIndex == old(currentPlayerIndex)
      ensures ok <==> amount <= old(players[playerIndex].totalChips)
      ensures var p := players[playerIndex];
              var paid := Paid(old(p.totalChips), amount);
              p.totalChips == old(p.totalChips) - paid && p.currentBet == old(p.currentBet) + paid &&
              p.isInRound == old(p.isInRound) && totalPot == old(totalPot) + paid
      ensures Chips() == old(Chips())
      ensures totalPot - Sum(Bets()) == old(totalPot - Sum(Bets()))
    {
      var p := players[playerIndex];
      ok := p.Bet(amount);
      if ok {
        totalPot := totalPot + amount;
      } else {
        totalPot := totalPot + p.totalChips;
        var allIn := p.Bet(p.totalChips);
      }
      OneSeatChanged(playerIndex);
    }

    /** BetManager.PlaceBlind: the player posts the blind, or the whole stack
        when it does not cover the blind, and the pot grows by exactly what
        was posted. */
    method PlaceBlind(playerIndex: int, blindAmount: int)
      requires Valid() && 0 <= playerIndex < |players|
      modifies this, players[playerIndex]
      ensures Valid() && currentBet == old(currentBet)
      ensures dealerIndex == old(dealerIndex) && smallBlindIndex == old(smallBlindIndex)
      ensures bigBlindIndex == old(bigBlindIndex) && currentPlayerIndex == old(currentPlayerIndex)
      ensures var p := players[playerIndex];
              var paid := Paid(old(p.totalChips), blindAmount);
              p.totalChips == old(p.totalChips) - paid && p.currentBet == old(p.currentBet) + paid &&
              p.isInRound == old(p.isInRound) && totalPot == old(totalPot) + paid
      ensures Chips() == old(Chips())
      ensures totalPot - Sum(Bets()) == old(totalPot - Sum(Bets()))
    {
      var ok := PayIn(playerIndex, blindAmount);
    }

    /** The foreach of StartNewRound: every player back in the round with no
        bet, stacks untouched. */
    method ResetPlayers()
      requires Valid()
      modifies players
      ensures forall k :: 0 <= k < |players| ==>
                players[k].isInRound && players[k].currentBet == 0 &&
                players[k].totalChips == old(players[k].totalChips)
      ensures Stacks() == old(Stacks()) && Sum(Bets()) == 0
    {
      for i := 0 to |players|
        invariant forall k :: 0 <= k < |players| ==> players[k].totalChips == old(players[k].totalChips)
        invariant forall k :: 0 <= k < i ==> players[k].currentBet == 0 && players[k].isInRound
      {
        players[i].ResetBet();
        players[i].isInRound := true;
      }
      SumZeros(Bets());
    }

    /** The two PlaceBlind calls that end StartNewRound. */
    method PostBlinds()
      requires Valid() && smallBlindIndex < |players| && bigBlindIndex < |players|
      modifies this, players[smallBlindIndex], players[bigBlindIndex]
      ensures Valid() && currentBet == old(currentBet)
      ensures dealerIndex == old(dealerIndex) && smallBlindIndex == old(smallBlindIndex)
      ensures bigBlindIndex == old(bigBlindIndex) && currentPlayerIndex == old(currentPlayerIndex)
      ensures smallBlindIndex != bigBlindIndex ==>
                var sb, bb := players[smallBlindIndex], players[bigBlindIndex];
                sb.currentBet == old(sb.currentBet) + Paid(old(sb.totalChips), smallBlindAmount) &&
                bb.currentBet == old(bb.currentBet) + Paid(old(bb.totalChips), bigBlindAmount) &&
                sb.totalChips == old(sb.totalChips) - Paid(old(sb.totalChips), smallBlindAmount) &&
                bb.totalChips == old(bb.totalChips) - Paid(old(bb.totalChips), bigBlindAmount) &&
                sb.isInRound == old(sb.isInRound) && bb.isInRound == old(bb.isInRound)
      ensures smallBlindIndex == bigBlindIndex ==> players[bigBlindIndex].isInRound == old(players[bigBlindIndex].isInRound)
      ensures forall k :: 0 <= k < |players| && k != smallBlindIndex && k != bigBlindIndex ==>
                players[k].currentBet == old(players[k].currentBet) && players[k].totalChips == old(players[k].totalChips)
      ensures Chips() == old(Chips())
      ensures totalPot - Sum(Bets()) == old(totalPot - Sum(Bets()))
    {
      PlaceBlind(smallBlindIndex, smallBlindAmount);
      PlaceBlind(bigBlindIndex, bigBlindAmount);
    }

    /** BetManager.StartNewRound: an empty pot, the big blind to match, every
        player back in with no bet, and both blinds posted. Chips left in
        the old pot are dropped (paying them out is the caller's affair). */
    method StartNewRound()
      requires Valid() && smallBlindIndex < |players| && bigBlindIndex < |players|
      modifies this, players
      ensures Valid()
      ensures dealerIndex == old(dealerIndex) && smallBlindIndex == old(smallBlindIndex)
      ensures bigBlindIndex == old(bigBlindIndex)
      ensures currentPlayerIndex == (bigBlindIndex + 1) % |players|
      ensures currentBet == bigBlindAmount
      ensures forall k :: 0 <= k < |players| ==> players[k].isInRound
      ensures forall k :: 0 <= k < |players| && k != smallBlindIndex && k != bigBlindIndex ==>
                players[k].currentBet == 0 && players[k].totalChips == old(players[k].totalChips)
      ensures totalPot == Sum(Bets())
      ensures Chips() == old(Sum(Stacks()))
    {
      totalPot := 0;
      currentBet := bigBlindAmount;
      currentPlayerIndex := (bigBlindIndex + 1) % |players|;
      ResetPlayers();
      ghost var before := Chips();
      PostBlinds();
      assert Chips() == before;
    }

    /** BetManager.MoveToNextPlayer: the do-while loop steps round the table
        to the next seat whose player is in the round. It returns only when
        there is such a player. The seat is stepped in a local and stored at
        the end, which nothing in between can tell apart. */
    method MoveToNextPlayer()
      requires Valid()
      requires exists k :: 0 <= k < |players| && players[k].isInRound
      modifies this
      ensures Valid() && NextInRound(old(currentPlayerIndex), currentPlayerIndex)
      ensures dealerIndex == old(dealerIndex) && smallBlindIndex == old(smallBlindIndex)
      ensures bigBlindIndex == old(bigBlindIndex)
      ensures totalPot == old(totalPot) && currentBet == old(currentBet)
    {
      var n := |players|;
      ghost var start := currentPlayerIndex;
      ghost var k :| 0 <= k < n && players[k].isInRound;
      var seat := currentPlayerIndex;
      SeatsOnStep(n, start, seat);
      seat := (seat + 1) % n;
      while !players[seat].isInRound
        modifies {}
        invariant 0 <= seat < n
        invariant SeatsOn(n, start, seat) <= SeatsOn(n, start, k)
        invariant forall j :: 0 <= j < n && SeatsOn(n, start, j) < SeatsOn(n, start, seat) ==>
                    !players[j].isInRound
        decreases n - SeatsOn(n, start, seat)
      {
        SeatsOnStep(n, start, seat);
        seat := (seat + 1) % n;
      }
      currentPlayerIndex := seat;
    }

    /** BetManager.PlayerFold: the current player folds, keeping the stack,
        and the turn moves on. Some other player must still be in the round
        for the move to return. */
    method PlayerFold()
      requires Valid()
      requires exists k :: 0 <= k < |players| && k != currentPlayerIndex && players[k].isInRound
      modifies this, players[currentPlayerIndex]
      ensures Valid() && NextInRound(old(currentPlayerIndex), currentPlayerIndex)
      ensures var p := players[old(currentPlayerIndex)];
              !p.isInRound && p.currentBet == 0 && p.totalChips == old(p.totalChips)
      ensures dealerIndex == old(dealerIndex) && smallBlindIndex == old(smallBlindIndex)
      ensures bigBlindIndex == old(bigBlindIndex)
      ensures totalPot == old(totalPot) && currentBet == old(currentBet)
      ensures Chips() == old(Chips())
    {
      var folding := currentPlayerIndex;
      players[currentPlayerIndex].Fold();
      OneSeatChanged(folding);
      MoveToNextPlayer();
    }

    /** BetManager.PlayerCall: the current player matches the bet, or goes
        all in when the stack does not cover it; the pot grows by what was
        paid and the turn moves on. */
    method PlayerCall()
      requires Valid()
      requires exists k :: 0 <= k < |players| && players[k].isInRound
      modifies this, players[currentPlayerIndex]
      ensures Valid() && NextInRound(old(currentPlayerIndex), currentPlayerIndex)
      ensures var p := players[old(currentPlayerIndex)];
              var paid := Paid(old(p.totalChips), old(currentBet) - old(p.currentBet));
              p.totalChips == old(p.totalChips) - paid && p.currentBet == old(p.currentBet) + paid &&
              p.isInRound == old(p.isInRound) && totalPot == old(totalPot) + paid
      ensures currentBet == old(currentBet)
      ensures dealerIndex == old(dealerIndex) && smallBlindIndex == old(smallBlindIndex)
      ensures bigBlindIndex == old(bigBlindIndex)
      ensures Chips() == old(Chips())
    {
      var amountToCall := currentBet - players[currentPlayerIndex].currentBet;
      var ok := PayIn(currentPlayerIndex, amountToCall);
      MoveToNextPlayer();
    }

    /** BetManager.PlayerRaise: the current player pays the call plus the
        raise and the bet to match rises by the raise; when the stack does
        not cover that, the player goes all in and the bet to match becomes
        the player's bet, even if that lowers it. */
    method PlayerRaise(raiseAmount: int)
      requires Valid()
      requires exists k :: 0 <= k < |players| && players[k].isInRound
      modifies this, players[currentPlayerIndex]
      ensures Valid() && NextInRound(old(currentPlayerIndex), currentPlayerIndex)
      ensures var p := players[old(currentPlayerIndex)];
              var totalBet := old(currentBet) - old(p.currentBet) + raiseAmount;
              var paid := Paid(old(p.totalChips), totalBet);
              p.totalChips == old(p.totalChips) - paid && p.currentBet == old(p.currentBet) + paid &&
              p.isInRound == old(p.isInRound) && totalPot == old(totalPot) + paid &&
              currentBet == if paid == totalBet then old(currentBet) + raiseAmount else p.currentBet
      ensures dealerIndex == old(dealerIndex) && smallBlindIndex == old(smallBlindIndex)
      ensures bigBlindIndex == old(bigBlindIndex)
      ensures Chips() == old(Chips())
    {
      var amountToCall := currentBet - players[currentPlayerIndex].currentBet;
      var totalBet := amountToCall + raiseAmount;
      var ok := PayIn(currentPlayerIndex, totalBet);
      if ok {
        currentBet := currentBet + raiseAmount;
      } else {
        currentBet := players[currentPlayerIndex].currentBet;
      }
      MoveToNextPlayer();
    }

    /** BetManager.NextDealer: the button moves one seat and the blinds and
        the first to act follow it, all round the table; the blind seats are
        then in range for StartNewRound. */
    method NextDealer()
      requires Valid()
      modifies this
      ensures Valid()
      ensures dealerIndex == (old(dealerIndex) + 1) % |players|
      ensures smallBlindIndex == (dealerIndex + 1) % |players|
      ensures bigBlindIndex == (dealerIndex + 2) % |players|
      ensures currentPlayerIndex == (bigBlindIndex + 1) % |players|
      ensures smallBlindIndex < |players| && bigBlindIndex < |players|
      ensures totalPot == old(totalPot) && currentBet == old(currentBet)
    {
      dealerIndex := (dealerIndex + 1) % |players|;
      smallBlindIndex := (dealerIndex + 1) % |players|;
      bigBlindIndex := (dealerIndex + 2) % |players|;
      currentPlayerIndex := (bigBlindIndex + 1) % |players|;
    }

    /** BetManager.GetTotalPot. */
    method GetTotalPot() returns (pot: int)
      ensures pot == totalPot
    {
      return totalPot;
    }

    /** BetManager.GetCurrentBet. */
    method GetCurrentBet() returns (bet: int)
      ensures bet == currentBet
    {
      return currentBet;
    }
  }
}
