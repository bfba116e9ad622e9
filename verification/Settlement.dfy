/** Whole hands: what any run of actions and streets keeps, and what the showdown does to the stacks. */
module Settlement {
  import opened Prelude
  import opened Cards
  import opened HandOrder
  import opened BestHands
  import opened PotLayers
  import opened Payout
  import opened TableModel
  import opened Bookkeeping
  import opened CardsInPlay

  // ---------------------------------------------------------------- runs

  /** Anybody may ask for anything with any amount, and the next street may be asked for at any time. */
  datatype Event = Request(id: int, action: Action, amount: int) | NextStreet

  predicate Playable(t: Table) {
    Placed(t) && |t.seats| <= 10 && CardsSound(t)
  }

  function Exec(t: Table, events: seq<Event>): (r: Table)
    requires Playable(t)
    ensures Playable(r)
  {
    if events == [] then t
    else
      var u := Exec(t, events[..|events| - 1]);
      match events[|events| - 1]
      case Request(id, action, amount) =>
        StepKeepsCards(u, id, action, amount);
        StepKeepsSize(u, id, action, amount);
        Step(u, id, action, amount)
      case NextStreet =>
        AdvancePhaseKeepsCards(u);
        AdvanceKeepsSize(u);
        AdvancePhase(u)
  }

  lemma StepKeepsSize(t: Table, id: int, action: Action, amount: int)
    requires Placed(t)
    ensures |Step(t, id, action, amount).seats| == |t.seats|
  {
  }

  lemma AdvanceKeepsSize(t: Table)
    requires Placed(t) && EnoughCards(t)
    ensures |AdvancePhase(t).seats| == |t.seats|
  {
    if t.complete && |Remaining(t.seats)| > 1 && t.phase in {Preflop, Flop, Turn} {
      DealBoardKeepsSeats(t.(phase := NextPhase(t.phase)), CardsOfPhase(t.phase));
    }
  }

  lemma {:induction false} RunKeepsLedger(t: Table, events: seq<Event>, stake: int)
    requires Playable(t) && Ledger(t, stake)
    ensures Ledger(Exec(t, events), stake)
  {
    hide Ledger, Playable, CardsSound;
    if events != [] {
      var u := Exec(t, events[..|events| - 1]);
      RunKeepsLedger(t, events[..|events| - 1], stake);
      PlayableMeans(u);
      match events[|events| - 1]
      case Request(id, action, amount) => StepKeepsLedger(u, id, action, amount, stake);
      case NextStreet =>
        AdvancePhaseKeepsCards(u);
        AdvancePhaseKeepsLedger(u, stake);
    }
  }

  lemma PlayableMeans(t: Table)
    requires Playable(t)
    ensures Placed(t) && |t.seats| <= 10 && CardsSound(t)
  {
  }

  /**
   * From the start of any hand, through any sequence of requests and streets: stacks and pot always add up to the
   * chips of the start, the pot is what the players put in, no card is in two places, and the board has the number
   * of cards of its street.
   */
  lemma AnyRunKeepsTheBooks(t: Table, order: seq<Card>, small: int, big: int, events: seq<Event>)
    requires Placed(t) && |t.seats| <= 10 && NoDebts(t.seats) && Shuffled(order)
    requires |NonBusted(ResetSeats(t.seats))| >= 2
    ensures Playable(StartHand(t, order, small, big))
    ensures var h := Exec(StartHand(t, order, small, big), events);
            && Ledger(h, Sum(Chips(t.seats)))
            && BoardFits(h.phase, |h.board|, |Remaining(h.seats)|)
            && forall c :: InPlay(h)[c] <= 1
  {
    hide StartHand, Ledger, InPlay, FullDeck, BoardFits;
    var h0 := StartHand(t, order, small, big);
    StartHandCards(t, order, small, big);
    StartHandLedger(t, order, small, big);
    assert Playable(h0);
    RunKeepsLedger(h0, events, Sum(Chips(t.seats)));
    var h := Exec(h0, events);
    forall c ensures InPlay(h)[c] <= 1 { NoCardTwice(h, c); }
  }

  /** No request asks for a raise by a negative amount. */
  predicate NoNegativeRaise(events: seq<Event>) {
    forall i :: 0 <= i < |events| && events[i].Request? && events[i].action == Raise ==> events[i].amount >= 0
  }

  /** Through any run without negative raises the bet to match stays the largest bet of the round. */
  lemma {:induction false} RunKeepsTopBet(t: Table, events: seq<Event>, stake: int)
    requires Playable(t) && Ledger(t, stake) && TopBet(t) && NoNegativeRaise(events)
    ensures TopBet(Exec(t, events))
  {
    hide Ledger, Playable, CardsSound, TopBet;
    if events != [] {
      var u := Exec(t, events[..|events| - 1]);
      RunKeepsTopBet(t, events[..|events| - 1], stake);
      RunKeepsLedger(t, events[..|events| - 1], stake);
      PlayableMeans(u);
      match events[|events| - 1]
      case Request(id, action, amount) =>
        if Accepts(u, id, action, amount) {
          assert SeatsSound(u.seats) by { LedgerIsSound(u, stake); }
          StepKeepsTopBet(u, action, amount);
        }
      case NextStreet =>
        AdvancePhaseKeepsCards(u);
        AdvancePhaseKeepsTopBet(u);
    }
  }

  // ---------------------------------------------------------------- conduct_showdown

  function Contributions(seats: seq<Seat>): (r: seq<nat>)
    ensures |r| == |seats| && forall i :: 0 <= i < |r| ==> r[i] == Max(0, seats[i].total)
  {
    seq(|seats|, i requires 0 <= i < |seats| => Max(0, seats[i].total))
  }

  /** Every player in the hand has a card to show: evaluating no cards at all is an error. */
  predicate HasCards(t: Table) {
    forall i :: i in Remaining(t.seats) ==> t.seats[i].hole + t.board != []
  }

  lemma LiveHandsHaveCards(t: Table)
    requires Playable(t)
    ensures HasCards(t)
  {
    forall i | i in Remaining(t.seats) ensures t.seats[i].hole + t.board != [] {
      assert |t.seats[i].hole| == 2;
    }
  }

  lemma HandExists(cards: seq<Card>)
    requires cards != []
    ensures BestHand(Program, cards).Some?
  {
  }

  function HandOf(t: Table, i: nat): HandResult
    requires i < |t.seats| && t.seats[i].hole + t.board != []
  {
    HandExists(t.seats[i].hole + t.board);
    BestHand(Program, t.seats[i].hole + t.board).value
  }

  function LiveHands(t: Table): (r: map<nat, HandResult>)
    requires HasCards(t)
    ensures r.Keys == Remaining(t.seats)
  {
    map i: nat | i in Remaining(t.seats) :: HandOf(t, i)
  }

  lemma HandsOfLive(t: Table, hands: map<nat, HandResult>)
    requires HasCards(t) && forall i :: i in hands <==> i in SeatsIn(t.seats, {Active, AllIn})
    requires forall i :: i in hands ==> i in Remaining(t.seats) && hands[i] == HandOf(t, i)
    ensures hands == LiveHands(t)
  {
    hide HandOf;
    assert hands.Keys == Remaining(t.seats);
  }

  function AddChips(seats: seq<Seat>, winnings: seq<int>): (r: seq<Seat>)
    requires |winnings| == |seats|
    ensures |r| == |seats| && forall i :: 0 <= i < |r| ==> r[i] == seats[i].(chips := seats[i].chips + winnings[i])
  {
    seq(|seats|, i requires 0 <= i < |seats| => seats[i].(chips := seats[i].chips + winnings[i]))
  }

  /** The table after the showdown. A lone survivor takes the pot, which is not cleared. */
  function Settle(t: Table): Table
    requires HasCards(t)
  {
    var live := SeatsIn(t.seats, {Active, AllIn});
    if |live| == 0 then t
    else if |live| == 1 then
      assert live[0] in live;
      t.(seats := t.seats[live[0] := t.seats[live[0]].(chips := t.seats[live[0]].chips + t.pot)])
    else SettlePots(t, Contributions(t.seats), LiveHands(t))
  }

  /** The showdown of two or more players: every layer of the pot goes to its winners. */
  function SettlePots(t: Table, contrib: seq<nat>, hands: map<nat, HandResult>): (r: Table)
    requires |contrib| == |t.seats|
  {
    t.(seats := AddChips(t.seats, WonBySeat(contrib, hands, |Levels(contrib)|)),
       pot := Max(0, t.pot - UpTo(contrib, MaxLive(contrib, hands))))
  }

  lemma SoundTotals(seats: seq<Seat>)
    requires SeatsSound(seats)
    ensures Contributions(seats) == Totals(seats)
  {
  }

  /** A lone survivor ends the hand with all chips of the hand accounted for. */
  lemma SurvivorTakesThePot(t: Table, stake: int)
    requires Ledger(t, stake) && HasCards(t) && |Remaining(t.seats)| == 1
    ensures Sum(Chips(Settle(t).seats)) == stake
  {
    hide Sum, SeatsIn, LiveHands, SettlePots;
    var w := SeatsIn(t.seats, {Active, AllIn})[0];
    assert w in SeatsIn(t.seats, {Active, AllIn});
    assert Settle(t).seats == t.seats[w := t.seats[w].(chips := t.seats[w].chips + t.pot)];
    assert Chips(Settle(t).seats) == Chips(t.seats)[w := t.seats[w].chips + t.pot];
    SumUpdate(Chips(t.seats), w, t.seats[w].chips + t.pot);
  }

  /**
   * A showdown between two or more players pays the pot up to the largest contribution M of a live player. What stays
   * behind is what folded players put in above M; so all chips are back in the stacks exactly if nobody who folded
   * put in more than M.
   */
  lemma ShowdownPaysThePot(t: Table, stake: int)
    requires Ledger(t, stake) && HasCards(t) && |Remaining(t.seats)| >= 2
    ensures var contrib := Contributions(t.seats); var m := MaxLive(contrib, LiveHands(t));
            && Sum(Chips(Settle(t).seats)) + Settle(t).pot == stake
            && Settle(t).pot == Sum(Excess(contrib, m))
            && (Sum(Chips(Settle(t).seats)) == stake
                <==> forall i :: 0 <= i < |t.seats| && t.seats[i].status !in {Active, AllIn} ==> t.seats[i].total <= m)
  {
    var contrib, hands := Contributions(t.seats), LiveHands(t);
    LedgerMeans(t, stake);
    SettledMoney(t, contrib, hands);
    PotAfterwards(t, Settle(t), contrib, hands, stake);
  }

  lemma PotAfterwards(t: Table, u: Table, contrib: seq<nat>, hands: map<nat, HandResult>, stake: int)
    requires t.pot == Sum(contrib) && Sum(Chips(t.seats)) + t.pot == stake && |contrib| == |t.seats|
    requires hands.Keys == Remaining(t.seats) && forall i :: 0 <= i < |contrib| ==> contrib[i] == t.seats[i].total
    requires Sum(Chips(u.seats)) == Sum(Chips(t.seats)) + UpTo(contrib, MaxLive(contrib, hands))
    requires u.pot == Max(0, t.pot - UpTo(contrib, MaxLive(contrib, hands)))
    ensures Sum(Chips(u.seats)) + u.pot == stake && u.pot == Sum(Excess(contrib, MaxLive(contrib, hands)))
    ensures Sum(Chips(u.seats)) == stake
       <==> forall i :: 0 <= i < |t.seats| && t.seats[i].status !in {Active, AllIn} ==>
         t.seats[i].total <= MaxLive(contrib, hands)
  {
    hide UpTo, MaxLive, Sum, Excess;
    ShowdownPaysUpToMaxLive(contrib, hands);
    forall i: nat | i < |t.seats| ensures i in hands <==> t.seats[i].status in {Active, AllIn} {
      assert i in hands.Keys <==> i in Remaining(t.seats);
    }
  }

  lemma LedgerMeans(t: Table, stake: int)
    requires Ledger(t, stake)
    ensures t.pot == Sum(Contributions(t.seats)) && Sum(Chips(t.seats)) + t.pot == stake
    ensures forall i :: 0 <= i < |t.seats| ==> Contributions(t.seats)[i] == t.seats[i].total
  {
    SoundTotals(t.seats);
  }

  lemma SettledSeats(t: Table)
    requires HasCards(t) && |Remaining(t.seats)| >= 2
    ensures Settle(t) == SettlePots(t, Contributions(t.seats), LiveHands(t))
  {
    hide LiveHands, Contributions, SettlePots, SeatsIn;
  }

  lemma SettledMoney(t: Table, contrib: seq<nat>, hands: map<nat, HandResult>)
    requires HasCards(t) && |Remaining(t.seats)| >= 2 && contrib == Contributions(t.seats) && hands == LiveHands(t)
    ensures Sum(Chips(Settle(t).seats)) == Sum(Chips(t.seats)) + UpTo(contrib, MaxLive(contrib, hands))
    ensures Settle(t).pot == Max(0, t.pot - UpTo(contrib, MaxLive(contrib, hands)))
    ensures |Settle(t).seats| == |t.seats|
    ensures forall i :: 0 <= i < |t.seats| ==> Settle(t).seats[i].chips == t.seats[i].chips + Won(contrib, hands, i)
  {
    hide Settle, LiveHands, SettlePots;
    SettledSeats(t);
    PotsMoney(t, contrib, hands);
  }

  lemma PotsMoney(t: Table, contrib: seq<nat>, hands: map<nat, HandResult>)
    requires |contrib| == |t.seats|
    ensures var u := SettlePots(t, contrib, hands);
            && Sum(Chips(u.seats)) == Sum(Chips(t.seats)) + UpTo(contrib, MaxLive(contrib, hands))
            && u.pot == Max(0, t.pot - UpTo(contrib, MaxLive(contrib, hands)))
            && |u.seats| == |t.seats|
            && forall i :: 0 <= i < |t.seats| ==> u.seats[i].chips == t.seats[i].chips + Won(contrib, hands, i)
  {
    hide Levels, MaxLive, UpTo, WonIn, Sum;
    var won := WonBySeat(contrib, hands, |Levels(contrib)|);
    SumAdds(Chips(t.seats), won, Chips(AddChips(t.seats, won)));
    ShowdownPaysUpToMaxLive(contrib, hands);
  }

  /**
   * What one player gets at a showdown of two or more: never more than table stakes allow, nothing after a fold, at
   * least the own contribution with an unbeaten hand, and the whole matched pot with the one best hand.
   */
  lemma ShowdownRespectsStakes(t: Table, stake: int, i: nat)
    requires Ledger(t, stake) && HasCards(t) && |Remaining(t.seats)| >= 2 && i < |t.seats|
    ensures |Settle(t).seats| == |t.seats|
    ensures var contrib, hands := Contributions(t.seats), LiveHands(t);
            var gain := Settle(t).seats[i].chips - t.seats[i].chips;
            && 0 <= gain <= UpTo(contrib, contrib[i])
            && (t.seats[i].status !in {Active, AllIn} ==> gain == 0)
            && (Unbeaten(hands, i) ==> gain >= t.seats[i].total)
            && (StrictlyBest(hands, i) ==> gain == UpTo(contrib, contrib[i]))
  {
    hide Settle, Ledger, Unbeaten, StrictlyBest, Won, UpTo, HandOf, HasCards;
    var contrib, hands := Contributions(t.seats), LiveHands(t);
    LedgerMeans(t, stake);
    SettledMoney(t, contrib, hands);
    TableStakes(contrib, hands, i);
    NoLossForBestOrDeepest(contrib, hands, i);
    assert i in hands.Keys <==> i in Remaining(t.seats);
  }

  /** The table-stakes bound fails for a lone survivor exactly if somebody who folded had put in more. */
  lemma SurvivorMayExceedTableStakes(t: Table, stake: int, w: nat)
    requires Ledger(t, stake) && HasCards(t) && Remaining(t.seats) == {w} && w < |t.seats|
    ensures var contrib := Contributions(t.seats);
            && Settle(t).seats[w].chips == t.seats[w].chips + Sum(contrib)
            && (Sum(contrib) > UpTo(contrib, contrib[w])
                <==> exists i :: 0 <= i < |t.seats| && t.seats[i].total > t.seats[w].total)
  {
    var contrib := Contributions(t.seats);
    var cap := contrib[w];
    SoundTotals(t.seats);
    var live := SeatsIn(t.seats, {Active, AllIn});
    assert live[0] in live;
    assert live[0] in Remaining(t.seats);
    SumAdds(Capped(contrib, cap), Excess(contrib, cap), contrib);
    SumIsNonNegative(Excess(contrib, cap));
    if i :| 0 <= i < |t.seats| && t.seats[i].total > t.seats[w].total {
      assert Excess(contrib, cap)[i] > 0;
    } else {
      SumOfNothing(Excess(contrib, cap));
    }
  }
}
