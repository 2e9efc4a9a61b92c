/** Player.cs: a player's stack, the chips committed in the current betting
    round, and whether the player is still in the hand. */
module Players {

  /** What a player pays when asked for `amount`: the amount when the stack
      covers it, otherwise the whole stack (all-in). */
  function Paid(chips: int, amount: int): (paid: int)
    ensures paid <= amount && paid <= chips
    ensures paid == amount || paid == chips
  {
    if amount <= chips then amount else chips
  }

  class Player {
    var totalChips: int
    var currentBet: int
    var isInRound: bool

    /** new Player(initialChips). */
    constructor (initialChips: int)
      ensures totalChips == initialChips && currentBet == 0 && isInRound
    {
      totalChips := initialChips;
      currentBet := 0;
      isInRound := true;
    }

    /** Player.Bet: refused, with nothing changed, when the stack does not
        cover the amount; otherwise the amount moves from the stack to the
        current bet, which leaves the stack non-negative. */
    method Bet(amount: int) returns (ok: bool)
      modifies this
      ensures ok <==> amount <= old(totalChips)
      ensures ok ==> totalChips == old(totalChips) - amount && currentBet == old(currentBet) + amount
      ensures !ok ==> totalChips == old(totalChips) && currentBet == old(currentBet)
      ensures ok ==> totalChips >= 0
      ensures totalChips + currentBet == old(totalChips + currentBet)
      ensures isInRound == old(isInRound)
    {
      if amount > totalChips {
        return false;
      }
      totalChips := totalChips - amount;
      currentBet := currentBet + amount;
      return true;
    }

    /** Player.Fold: out of the hand, current bet forgotten, stack kept. */
    method Fold()
      modifies this
      ensures !isInRound && currentBet == 0 && totalChips == old(totalChips)
    {
      isInRound := false;
      currentBet := 0;
    }

    /** Player.ResetBet. */
    method ResetBet()
      modifies this
      ensures currentBet == 0 && totalChips == old(totalChips) && isInRound == old(isInRound)
    {
      currentBet := 0;
    }

    /** Player.AddWinnings. */
    method AddWinnings(amount: int)
      modifies this
      ensures totalChips == old(totalChips) + amount
      ensures currentBet == old(currentBet) && isInRound == old(isInRound)
    {
      totalChips := totalChips + amount;
    }
  }
}
