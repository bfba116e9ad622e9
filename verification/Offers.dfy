/** The actions offered to a player (`_get_available_actions`, poker/game.py:418-482). */
module Offers {
  import opened Prelude
  import opened TableModel
  import opened Bookkeeping

  datatype Offer = OfferFold | OfferCheck | OfferCall(toCall: int) | OfferRaise(minimum: int) | OfferAllIn(chips: int)

  predicate HasBigBlindOption(t: Table, id: nat, bigBlind: int)
    requires id < |t.seats|
  {
    t.phase == Preflop && !t.raised && t.currentBet <= t.seats[id].bet && t.currentBet == bigBlind
    && BigBlindSeat(t.seats) == Some(id)
  }

  predicate MayRaise(t: Table, id: nat, bigBlind: int)
    requires id < |t.seats|
  {
    t.currentBet == 0 || t.currentBet > t.seats[id].bet || HasBigBlindOption(t, id, bigBlind)
  }

  function MinimumRaise(t: Table, bigBlind: int): int {
    if t.currentBet == 0 then bigBlind else t.currentBet + bigBlind
  }

  function AvailableActions(t: Table, id: int, bigBlind: int): seq<Offer> {
    if !(0 <= id < |t.seats|) || t.seats[id].status != Active then []
    else
      var s := t.seats[id];
      var toCall := Max(0, t.currentBet - s.bet);
      [OfferFold]
      + (if toCall == 0 then [OfferCheck] else [])
      + (if toCall > 0 && s.chips >= toCall then [OfferCall(toCall)] else [])
      + (if MayRaise(t, id, bigBlind) && s.chips >= MinimumRaise(t, bigBlind) && toCall < s.chips
         then [OfferRaise(MinimumRaise(t, bigBlind))] else [])
      + (if s.chips > 0 && (MayRaise(t, id, bigBlind) || (toCall > 0 && s.chips < toCall))
        then [OfferAllIn(s.chips)] else [])
  }

  /** The request by which a player takes an offer; a raise is asked for as an increment over the bet to match. */
  function Taking(t: Table, o: Offer): Decision {
    match o
    case OfferFold => Decision(Fold, 0)
    case OfferCheck => Decision(Check, 0)
    case OfferCall(n) => Decision(Call, n)
    case OfferRaise(m) => Decision(Raise, m - t.currentBet)
    case OfferAllIn(n) => Decision(GoAllIn, n)
  }

  /** What is on the list, offer by offer. */
  lemma OffersByKind(t: Table, id: nat, bigBlind: int)
    requires id < |t.seats| && t.seats[id].status == Active
    ensures var offers, s := AvailableActions(t, id, bigBlind), t.seats[id];
            && OfferFold in offers
            && (OfferCheck in offers <==> t.currentBet <= s.bet)
            && (forall n :: OfferCall(n) in offers <==> n == t.currentBet - s.bet && 0 < n <= s.chips)
            && (forall m :: OfferRaise(m) in offers <==> m == MinimumRaise(t, bigBlind) && MayRaise(t, id, bigBlind)
                                                         && m <= s.chips && Max(0, t.currentBet - s.bet) < s.chips)
            && (forall n :: OfferAllIn(n) in offers <==> n == s.chips > 0 && MayRaise(t, id, bigBlind))
  {
  }

  /**
   * Every offer is honoured, and an offered minimum raise makes exactly that the bet to match, unless the player has
   * bet more already.
   */
  lemma OffersAreHonoured(t: Table, bigBlind: int)
    requires Placed(t) && SeatsSound(t.seats) && t.seats[t.cur].status == Active && bigBlind > 0
    ensures forall o :: o in AvailableActions(t, t.cur, bigBlind) ==>
              Accepts(t, t.cur, Taking(t, o).action, Taking(t, o).amount)
              && (o.OfferRaise? ==>
                    Step(t, t.cur, Raise, o.minimum - t.currentBet).currentBet == Max(o.minimum, t.seats[t.cur].bet))
  {
    hide AvailableActions, Advance, RoundCloses;
    var s := t.seats[t.cur];
    OffersByKind(t, t.cur, bigBlind);
    forall o | o in AvailableActions(t, t.cur, bigBlind)
      ensures Accepts(t, t.cur, Taking(t, o).action, Taking(t, o).amount)
      ensures o.OfferRaise? ==>
                Step(t, t.cur, Raise, o.minimum - t.currentBet).currentBet == Max(o.minimum, t.seats[t.cur].bet)
    {
      if o.OfferRaise? {
        assert OfferRaise(o.minimum) in AvailableActions(t, t.cur, bigBlind);
        RaiseIsHonoured(t, o.minimum - t.currentBet);
      } else if o.OfferCall? {
        assert OfferCall(o.toCall) in AvailableActions(t, t.cur, bigBlind);
      } else if o.OfferAllIn? {
        assert OfferAllIn(o.chips) in AvailableActions(t, t.cur, bigBlind);
      }
    }
  }

  lemma RaiseIsHonoured(t: Table, amount: int)
    requires Placed(t) && t.seats[t.cur].status == Active && amount > 0 && t.seats[t.cur].chips >= 0
    requires t.currentBet - t.seats[t.cur].bet + amount <= t.seats[t.cur].chips
    ensures Accepts(t, t.cur, Raise, amount)
    ensures Step(t, t.cur, Raise, amount).currentBet == Max(t.currentBet + amount, t.seats[t.cur].bet)
  {
    hide Scan, RoundCloses;
    var t1 := TakeAction(t, Raise, amount);
    assert t1.currentBet == Max(t.currentBet + amount, t.seats[t.cur].bet);
  }

  /**
   * The big blind option, seat by seat: before the flop and before any raise, the first seat marked as big blind has
   * matched a bet of exactly one big blind.
   */
  predicate OptionBySeats(t: Table, bigBlind: int)
    requires t.cur < |t.seats|
  {
    && t.phase == Preflop && !t.raised && t.currentBet == bigBlind && t.seats[t.cur].bet >= bigBlind
    && t.seats[t.cur].isBigBlind && forall j :: 0 <= j < t.cur ==> !t.seats[j].isBigBlind
  }

  lemma OptionIsBySeats(t: Table, bigBlind: int)
    requires t.cur < |t.seats|
    ensures HasBigBlindOption(t, t.cur, bigBlind) <==> OptionBySeats(t, bigBlind)
  {
  }

  /**
   * The player to act may always fold and always has another way to stay in; checking and calling are offered
   * exactly when they are accepted (calling only if there is something to call). Going all-in is accepted from every
   * player to act, but not offered to one who has matched a bet and has no big blind option. A raise is offered where
   * all-in is, as one big blind more than the bet to match, if the stack has that much and more than is owed.
   */
  lemma OffersAreComplete(t: Table, bigBlind: int)
    requires Placed(t) && SeatsSound(t.seats) && t.seats[t.cur].status == Active
    ensures var offers, s := AvailableActions(t, t.cur, bigBlind), t.seats[t.cur];
            var mayRaise := t.currentBet == 0 || t.currentBet > s.bet || OptionBySeats(t, bigBlind);
            && OfferFold in offers
            && (exists o :: o in offers && (o.OfferCheck? || o.OfferCall? || o.OfferAllIn?))
            && (OfferCheck in offers <==> Accepts(t, t.cur, Check, 0))
            && ((exists n :: OfferCall(n) in offers) <==> t.currentBet > s.bet && Accepts(t, t.cur, Call, 0))
            && Accepts(t, t.cur, GoAllIn, 0)
            && ((exists n :: OfferAllIn(n) in offers) <==> mayRaise)
            && (forall m :: OfferRaise(m) in offers <==>
                  mayRaise && m == t.currentBet + bigBlind <= s.chips && Max(0, t.currentBet - s.bet) < s.chips)
  {
    hide AvailableActions, BigBlindSeat, OptionBySeats;
    var offers, s := AvailableActions(t, t.cur, bigBlind), t.seats[t.cur];
    OffersByKind(t, t.cur, bigBlind);
    OptionIsBySeats(t, bigBlind);
    var toCall := t.currentBet - s.bet;
    if toCall <= 0 {
      assert OfferCheck in offers;
    } else if s.chips >= toCall {
      assert OfferCall(toCall) in offers;
    } else {
      assert OfferAllIn(s.chips) in offers;
    }
    if MayRaise(t, t.cur, bigBlind) { assert OfferAllIn(s.chips) in offers; }
  }
}
