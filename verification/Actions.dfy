/** What a request does, read off the seats: who pays how much, and when nothing happens (poker/game.py:484-590). */
module Actions {
  import opened Prelude
  import opened TableModel
  import opened Bookkeeping
  import opened Closing

  function After(s: Seat, paid: int): Seat {
    s.(chips := s.chips - paid, bet := s.bet + paid, total := s.total + paid,
       status := if paid == s.chips then AllIn else Active)
  }

  /** The player to act moves `paid` chips from the stack into bet and pot, and is all-in without chips left. */
  predicate Pays(t: Table, u: Table, paid: int)
    requires Placed(t)
  {
    u.pot == t.pot + paid && u.seats == t.seats[t.cur := After(t.seats[t.cur], paid)]
  }

  /**
   * Every request, of any player and any amount. Only the player to act is heard, and only while able to act. A check
   * is free, a call pays what is owed, a raise pays what is owed and the amount, an all-in the whole stack; what the
   * rules or the stack do not allow leaves the whole table as it was.
   */
  lemma RequestPays(t: Table, id: int, action: Action, amount: int)
    requires Placed(t) && SeatsSound(t.seats)
    ensures var u, s := Step(t, id, action, amount), t.seats[t.cur];
            var owed := t.currentBet - s.bet;
            if id != t.cur || s.status != Active then u == t
            else match action
              case Fold =>
                u.seats == t.seats[t.cur := s.(status := Folded)] && u.pot == t.pot && u.currentBet == t.currentBet
              case Check => if owed > 0 then u == t else Pays(t, u, 0) && u.currentBet == t.currentBet
              case Call => if owed > s.chips then u == t else Pays(t, u, Max(0, owed)) && u.currentBet == t.currentBet
              case Raise =>
                if owed + amount > s.chips then u == t
                else Pays(t, u, Max(0, owed + amount)) && u.currentBet == Max(s.bet, t.currentBet + amount)
              case GoAllIn => Pays(t, u, s.chips) && u.currentBet == Max(t.currentBet, s.bet + s.chips)
              case Unknown => u == t
  {
    hide Scan, RoundCloses, SeatsSound, ActingSeat;
    var u, s := Step(t, id, action, amount), t.seats[t.cur];
    assert SeatSound(s) by { SeatIsSound(t); }
    if Accepts(t, id, action, amount) {
      ActorPays(t, action, amount);
      assert u.seats == TakeAction(t, action, amount).seats;
    }
  }

  lemma SeatIsSound(t: Table)
    requires Placed(t) && SeatsSound(t.seats)
    ensures SeatSound(t.seats[t.cur])
  {
  }

  /** The seat after an action that is accepted. */
  lemma ActorPays(t: Table, action: Action, amount: int)
    requires Placed(t) && SeatSound(t.seats[t.cur]) && Accepts(t, t.cur, action, amount)
    ensures var s, s' := t.seats[t.cur], ActingSeat(t, action, amount);
            var owed := t.currentBet - s.bet;
            match action
            case Fold => s' == s.(status := Folded)
            case Check => s' == After(s, 0)
            case Call => s' == After(s, Max(0, owed))
            case Raise => s' == After(s, Max(0, owed + amount))
            case GoAllIn => s' == After(s, s.chips)
            case Unknown => true
  {
  }

  /**
   * A positive raise of the player to act either is beyond the stack and changes nothing, or makes the bet to match
   * higher by exactly its amount and takes exactly what was owed and the amount from the stack.
   */
  lemma RaiseIsExact(t: Table, amount: int)
    requires Placed(t) && SeatsSound(t.seats) && t.seats[t.cur].status == Active
    requires t.seats[t.cur].bet <= t.currentBet && amount > 0
    ensures var u, s := Step(t, t.cur, Raise, amount), t.seats[t.cur];
            var price := t.currentBet - s.bet + amount;
            && (u == t <==> s.chips < price)
            && (s.chips >= price ==> u.currentBet == t.currentBet + amount && Pays(t, u, price))
  {
    hide Step;
    RequestPays(t, t.cur, Raise, amount);
  }

  /** A refused decision is a fold, and a seat that cannot act is passed over. */
  lemma RefusedMeansFold(t: Table, d: Decision)
    requires Placed(t) && SeatsSound(t.seats)
    ensures var u, s := DriverStep(t, d), t.seats[t.cur];
            var owed := t.currentBet - s.bet;
            && (s.status != Active ==> u.seats == t.seats && u.pot == t.pot && u.currentBet == t.currentBet)
            && (s.status == Active && (|| d.action == Unknown || (d.action == Check && owed > 0)
                                       || (d.action == Call && owed > Max(0, s.chips))
                                       || (d.action == Raise && owed + d.amount > s.chips))
                ==> u.seats == t.seats[t.cur := s.(status := Folded)] && u.pot == t.pot && u.currentBet == t.currentBet)
  {
    hide Step, Scan;
    if t.seats[t.cur].status == Active {
      FoldIsAccepted(t);
      RequestPays(t, t.cur, Fold, 0);
      RefusedByRules(t, d);
    }
  }

  lemma RefusedByRules(t: Table, d: Decision)
    requires Placed(t)
    ensures var s := t.seats[t.cur]; var owed := t.currentBet - s.bet;
            (|| d.action == Unknown || (d.action == Check && owed > 0) || (d.action == Call && owed > Max(0, s.chips))
             || (d.action == Raise && owed + d.amount > s.chips)) ==> !Accepts(t, t.cur, d.action, d.amount)
  {
  }
}
