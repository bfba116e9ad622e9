/** Players as objects that are updated in place (poker/player_models.py). */
module Players {
  import opened Prelude
  import opened Cards
  import opened TableModel

  class Player {
    const id: nat
    var chips: int
    var holeCards: seq<Card>
    var currentBet: int
    var totalBetThisHand: int
    var status: Status
    var isDealer: bool
    var isSmallBlind: bool
    var isBigBlind: bool

    constructor (id: nat, initialChips: int)
      ensures this.id == id
      ensures View() == Seat(initialChips, 0, 0, Active, false, false, false, [])
    {
      this.id, chips, holeCards := id, initialChips, [];
      currentBet, totalBetThisHand, status := 0, 0, Active;
      isDealer, isSmallBlind, isBigBlind := false, false, false;
    }

    /** The player as the table shows it. */
    function View(): Seat
      reads this
    {
      Seat(chips, currentBet, totalBetThisHand, status, isDealer, isSmallBlind, isBigBlind, holeCards)
    }

    method ResetForNewHand()
      modifies this
      ensures View() == ResetSeat(old(View()))
    {
      holeCards := [];
      currentBet := 0;
      totalBetThisHand := 0;
      if chips > 0 {
        status := Active;
      } else {
        status := Busted;
      }
      isDealer := false;
      isSmallBlind := false;
      isBigBlind := false;
    }

    method ResetForNewBettingRound()
      modifies this
      ensures View() == old(View()).(bet := 0)
    {
      currentBet := 0;
    }

    /** Refused (an error in the source) when the player already has two cards. */
    method AddHoleCard(card: Card) returns (added: bool)
      modifies this
      ensures added <==> |old(View()).hole| < 2
      ensures View() == if added then old(View()).(hole := old(View()).hole + [card]) else old(View())
    {
      if |holeCards| >= 2 {
        return false;
      }
      holeCards := holeCards + [card];
      return true;
    }

    method Bet(amount: int) returns (actual: int)
      modifies this
      ensures View() == BetSeat(old(View()), amount) && actual == BetPaid(old(View()), amount)
    {
      if amount <= 0 {
        return 0;
      }
      actual := Min(amount, chips);
      chips := chips - actual;
      currentBet := currentBet + actual;
      totalBetThisHand := totalBetThisHand + actual;
      if chips == 0 {
        status := AllIn;
      }
    }

    method FoldHand()
      modifies this
      ensures View() == old(View()).(status := Folded)
    {
      status := Folded;
    }
  }
}
