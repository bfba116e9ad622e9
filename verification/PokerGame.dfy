/** The game as an object that is updated in place (poker/game.py), proved to do what TableModel says. */
module PokerGame {
  import opened Prelude
  import opened Cards
  import opened HandOrder
  import opened BestHands
  import opened PotLayers
  import opened PotShares
  import opened Payout
  import opened TableModel
  import opened Settlement
  import opened Offers
  import opened Players

  class Game {
    const smallBlind: int
    const bigBlind: int
    const deck: Deck
    var players: seq<Player>
    var dealerButton: nat
    var currentPlayerIndex: nat
    var communityCards: seq<Card>
    var currentPhase: Phase
    var pot: int
    var currentBet: int
    var bettingRoundComplete: bool
    var lastRaiserIndex: Option<nat>
    var hasBetOrRaiseThisRound: bool

    constructor (smallBlind: int, bigBlind: int)
      ensures Valid() && players == [] && fresh(deck)
      ensures this.smallBlind == smallBlind && this.bigBlind == bigBlind
    {
      this.smallBlind, this.bigBlind := smallBlind, bigBlind;
      deck := new Deck();
      players, dealerButton, currentPlayerIndex := [], 0, 0;
      communityCards, currentPhase, pot, currentBet := [], Preflop, 0, 0;
      bettingRoundComplete, lastRaiserIndex, hasBetOrRaiseThisRound := false, None, false;
    }

    /** Players sit in the order of their ids; so no two entries are the same object. */
    ghost predicate Valid()
      reads this, players
    {
      |players| <= 10 && forall i :: 0 <= i < |players| ==> players[i].id == i
    }

    function Seats(): (r: seq<Seat>)
      reads this, players
      ensures |r| == |players| && forall i :: 0 <= i < |r| ==> r[i] == players[i].View()
    {
      seq(|players|, i requires 0 <= i < |players| reads this, players => players[i].View())
    }

    /** The table as a value. */
    function Snapshot(): (t: Table)
      reads this, players, deck
    {
      Table(Seats(), dealerButton, currentPlayerIndex, currentPhase, pot, currentBet, bettingRoundComplete,
            lastRaiserIndex, hasBetOrRaiseThisRound, communityCards, deck.cards)
    }

    /** Refused (an error in the source) when the table is full. */
    method AddPlayer(player: Player) returns (added: bool)
      requires Valid() && player.id == |players|
      modifies this
      ensures Valid() && (added <==> |old(players)| < 10)
      ensures players == if added then old(players) + [player] else old(players)
    {
      if |players| >= 10 {
        return false;
      }
      players := players + [player];
      return true;
    }

    method GetPlayer(playerId: int) returns (player: Player?)
      requires Valid()
      ensures player == if 0 <= playerId < |players| then players[playerId] else null
    {
      for i := 0 to |players|
        invariant !(0 <= playerId < i)
      {
        if players[i].id == playerId {
          return players[i];
        }
      }
      return null;
    }

    // -------------------------------------------------------------- whose turn it is

    /** The first ACTIVE player among the `last` seats after `from`: the loop of all three seat scans. */
    method FirstActiveAfter(from: nat, last: nat) returns (r: Option<nat>)
      requires Valid() && from < |players| && last <= |players|
      ensures r == Scan(Seats(), from, 1, last)
    {
      hide Scan;
      var n := |players|;
      ghost var seats := Seats();
      for i := 1 to last + 1
        invariant Scan(seats, from, 1, last) == Scan(seats, from, i, last)
      {
        WrapIsModulo(from + i, n);
        ScanStep(seats, from, i, last);
        var next := (from + i) % n;
        if players[next].status == Active {
          return Some(next);
        }
      }
      ScanEnd(seats, from, last);
      return None;
    }

    method AdvanceToNextPlayer()
      requires Valid() && Placed(Snapshot())
      modifies this
      ensures Valid() && Snapshot() == Advance(old(Snapshot())) && players == old(players)
    {
      hide Scan;
      var next := FirstActiveAfter(currentPlayerIndex, |players|);
      if next.Some? {
        currentPlayerIndex := next.value;
      } else {
        bettingRoundComplete := true;
      }
    }

    method FindBigBlind() returns (index: Option<nat>)
      requires Valid()
      ensures index == BigBlindSeat(Seats())
    {
      for i := 0 to |players|
        invariant forall j :: 0 <= j < i ==> !players[j].isBigBlind
      {
        if players[i].isBigBlind {
          FirstBigBlind(Seats(), i);
          return Some(i);
        }
      }
      return None;
    }

    method GetFirstActorForPhase() returns (r: Option<nat>)
      requires Valid() && Placed(Snapshot())
      ensures r == FirstActor(Snapshot())
    {
      hide Scan, SeatsIn, BigBlindSeat, FirstActor;
      var active := SeatsIn(Seats(), {Active});
      if currentPhase == Preflop {
        var bb := FindBigBlind();
        FirstActorSearch(Snapshot(), bb);
        if bb.Some? {
          r := FirstActiveAfter(bb.value, |players| - 1);
          if r.Some? {
            return;
          }
        }
      } else {
        FirstActorSearch(Snapshot(), Some(dealerButton));
        r := FirstActiveAfter(dealerButton, |players| - 1);
        if r.Some? {
          return;
        }
      }
      return if active != [] then Some(active[0]) else None;
    }

    method GetNextActivePlayerFrom(from: nat) returns (r: Option<nat>)
      requires Valid() && Placed(Snapshot()) && from < |players|
      ensures r == NextActiveFrom(Snapshot(), from)
    {
      r := FirstActiveAfter(from, |players| - 1);
    }

    /** Whether the bets of all ACTIVE players equal the bet to match. */
    method AllActiveMatched(active: seq<nat>) returns (matched: bool)
      requires Valid() && active == SeatsIn(Seats(), {Active})
      ensures matched == AllMatched(Snapshot())
    {
      MatchedOnList(Snapshot());
      matched := true;
      for k := 0 to |active|
        invariant forall j :: 0 <= j < |active| ==> active[j] < |players|
        invariant matched <==> forall j :: 0 <= j < k ==> Seats()[active[j]].bet == currentBet
      {
        if players[active[k]].currentBet != currentBet {
          matched := false;
        }
      }
    }

    method RoundIsOver() returns (over: bool)
      requires Valid() && Placed(Snapshot())
      ensures over == RoundCloses(Snapshot())
    {
      hide Scan, FirstActor, SeatsIn, AllMatched, NextActiveFrom;
      var active, allIn := SeatsIn(Seats(), {Active}), SeatsIn(Seats(), {AllIn});
      if |active| + |allIn| <= 1 {
        return true;
      }
      if |active| == 0 {
        return true;
      }
      if |active| == 1 {
        assert active[0] in active;
        return players[active[0]].currentBet >= currentBet;
      }
      var allSameBet := AllActiveMatched(active);
      if !allSameBet {
        return false;
      }
      if lastRaiserIndex.Some? && hasBetOrRaiseThisRound {
        return true;
      }
      if lastRaiserIndex.None? {
        var first := GetFirstActorForPhase();
        return first == Some(currentPlayerIndex);
      }
      if lastRaiserIndex.value !in active {
        return true;
      }
      var next := GetNextActivePlayerFrom(lastRaiserIndex.value);
      return next == Some(currentPlayerIndex);
    }

    method CheckBettingRoundComplete()
      requires Valid() && Placed(Snapshot())
      modifies this
      ensures Valid() && Snapshot() == CheckComplete(old(Snapshot())) && players == old(players)
    {
      hide RoundCloses;
      var over := RoundIsOver();
      if over {
        bettingRoundComplete := true;
      }
    }

    // -------------------------------------------------------------- actions

    method GetAvailableActions(playerId: int) returns (offers: seq<Offer>)
      requires Valid() && Placed(Snapshot())
      ensures offers == AvailableActions(Snapshot(), playerId, bigBlind)
    {
      hide BigBlindSeat;
      var player := GetPlayer(playerId);
      if player == null || player.status != Active {
        return [];
      }
      offers := [OfferFold];
      var toCall := Max(0, currentBet - player.currentBet);
      if toCall == 0 {
        offers := offers + [OfferCheck];
      }
      if toCall > 0 && player.chips >= toCall {
        offers := offers + [OfferCall(toCall)];
      }
      var canOpenBet, canRaise, isBigBlindOption := currentBet == 0, toCall > 0, false;
      if currentPhase == Preflop && !hasBetOrRaiseThisRound && toCall == 0 && currentBet == bigBlind {
        var bb := FindBigBlind();
        isBigBlindOption := bb.Some? && bb.value == playerId;
      }
      var minRaiseTotal := if canOpenBet then bigBlind else currentBet + bigBlind;
      assert (canOpenBet || canRaise || isBigBlindOption) == MayRaise(Snapshot(), playerId, bigBlind);
      if (canOpenBet || canRaise || isBigBlindOption) && player.chips >= minRaiseTotal && toCall < player.chips {
        offers := offers + [OfferRaise(minRaiseTotal)];
      }
      // The source's second reason, a call that is not affordable, implies that something is owed, hence canRaise.
      if player.chips > 0 && (canOpenBet || canRaise || isBigBlindOption) {
        offers := offers + [OfferAllIn(player.chips)];
      }
    }

    /** A player bets, and what was bet goes into the pot. */
    method Wager(index: nat, amount: int)
      requires Valid() && index < |players|
      modifies this`pot, players
      ensures Valid() && Snapshot() == Wagered(old(Snapshot()), index, amount)
    {
      ghost var seats := Seats();
      var actual := players[index].Bet(amount);
      pot := pot + actual;
      assert Seats() == seats[index := BetSeat(seats[index], amount)];
    }

    method FoldPlayer(index: nat)
      requires Valid() && index < |players|
      modifies players
      ensures Valid() && Snapshot() == WithStatus(old(Snapshot()), index, Folded)
    {
      ghost var seats := Seats();
      players[index].FoldHand();
      assert Seats() == seats[index := seats[index].(status := Folded)];
    }

    method MarkAllIn(index: nat)
      requires Valid() && index < |players|
      modifies players
      ensures Valid() && Snapshot() == WithStatus(old(Snapshot()), index, AllIn)
    {
      ghost var seats := Seats();
      players[index].status := AllIn;
      assert Seats() == seats[index := seats[index].(status := AllIn)];
    }

    method NoteRaise()
      requires Valid() && currentPlayerIndex < |players|
      modifies this`currentBet, this`lastRaiserIndex, this`hasBetOrRaiseThisRound
      ensures Valid() && Snapshot() == Raised(old(Snapshot()))
    {
      currentBet := players[currentPlayerIndex].currentBet;
      lastRaiserIndex := Some(currentPlayerIndex);
      hasBetOrRaiseThisRound := true;
    }

    /** `process_player_action` up to the point where the turn moves on. */
    method ApplyAction(playerId: int, action: Action, amount: int) returns (accepted: bool)
      requires Valid() && Placed(Snapshot())
      modifies this, players
      ensures Valid() && players == old(players)
      ensures accepted <==> Accepts(old(Snapshot()), playerId, action, amount)
      ensures accepted ==> Snapshot() == TakeAction(old(Snapshot()), action, amount)
      ensures !accepted ==> Snapshot() == old(Snapshot())
    {
      hide TakeAction, Wagered, WithStatus, Raised;
      if playerId != currentPlayerIndex {
        return false;
      }
      var player := GetPlayer(playerId);
      if player == null || player.status != Active {
        return false;
      }
      ghost var t := Snapshot();
      var toCall := currentBet - player.currentBet;
      match action {
        case Fold =>
          FoldPlayer(playerId);
          FoldTaken(t, amount);
        case Check =>
          if currentBet > player.currentBet {
            return false;
          }
          CheckTaken(t, amount);
        case Call =>
          if toCall > 0 {
            if player.chips < toCall {
              return false;
            }
            Wager(playerId, toCall);
          }
          CallTaken(t, amount);
        case Raise =>
          if player.chips < toCall + amount {
            return false;
          }
          Wager(playerId, toCall + amount);
          NoteRaise();
          RaiseTaken(t, amount);
        case GoAllIn =>
          if player.chips <= 0 {
            return false;
          }
          Wager(playerId, player.chips);
          if player.currentBet > currentBet {
            NoteRaise();
          }
          MarkAllIn(playerId);
          AllInTaken(t, amount);
        case Unknown =>
          return false;
      }
      return true;
    }

    method ProcessPlayerAction(playerId: int, action: Action, amount: int) returns (accepted: bool)
      requires Valid() && Placed(Snapshot())
      modifies this, players
      ensures Valid() && players == old(players)
      ensures accepted <==> Accepts(old(Snapshot()), playerId, action, amount)
      ensures Snapshot() == Step(old(Snapshot()), playerId, action, amount)
    {
      hide Accepts, TakeAction, RoundCloses, Advance;
      accepted := ApplyAction(playerId, action, amount);
      if !accepted {
        return;
      }
      AdvanceToNextPlayer();
      CheckBettingRoundComplete();
    }

    // -------------------------------------------------------------- streets

    method ResetPlayerBets()
      requires Valid()
      modifies players
      ensures Valid() && Snapshot() == old(Snapshot()).(seats := ResetBets(old(Seats())))
    {
      ghost var seats := Seats();
      for i := 0 to |players|
        modifies players
        invariant Valid()
        invariant forall j :: 0 <= j < |players| ==>
                    players[j].View() == if j < i then seats[j].(bet := 0) else seats[j]
      {
        players[i].ResetForNewBettingRound();
      }
      assert Seats() == ResetBets(seats);
    }

    method ClearRound()
      requires Valid() && Placed(Snapshot())
      modifies this`currentBet, this`bettingRoundComplete, this`lastRaiserIndex, players
      ensures Valid() && Snapshot() == RoundCleared(old(Snapshot()))
    {
      hide ResetBets;
      ResetPlayerBets();
      currentBet := 0;
      bettingRoundComplete := false;
      lastRaiserIndex := None;
    }

    /** The source looks for the first actor only if there are ACTIVE players; otherwise there is none to find. */
    method SeatFirstActor()
      requires Valid() && Placed(Snapshot())
      modifies this`currentPlayerIndex, this`bettingRoundComplete
      ensures Valid() && Snapshot() == FirstActorSeated(old(Snapshot()))
    {
      hide FirstActor;
      var first := GetFirstActorForPhase();
      if first.Some? {
        currentPlayerIndex := first.value;
      } else {
        bettingRoundComplete := true;
      }
    }

    method StartNewBettingRound()
      requires Valid() && Placed(Snapshot())
      modifies this, players
      ensures Valid() && players == old(players) && Snapshot() == StartRound(old(Snapshot()))
    {
      hide FirstActor;
      ClearRound();
      SeatFirstActor();
    }

    method TurnUpCard()
      requires Valid() && |deck.cards| > 0
      modifies this`communityCards, deck
      ensures Valid() && Snapshot() == TurnedUp(old(Snapshot()))
    {
      ghost var t := Snapshot();
      var card := deck.DealCard();
      communityCards := communityCards + [card.value];
      assert t.deck == deck.cards + [card.value];
    }

    method BurnCard()
      requires Valid() && |deck.cards| > 0
      modifies deck
      ensures Valid() && Snapshot() == old(Snapshot()).(deck := old(deck.cards)[..|old(deck.cards)| - 1])
    {
      ghost var t := Snapshot();
      var card := deck.DealCard();
      assert t.deck == deck.cards + [card.value];
    }

    /** Burns a card, then turns up `k` cards: the flop, the turn or the river. */
    method DealStreet(k: nat)
      requires Valid() && |deck.cards| >= k + 1
      modifies this`communityCards, deck
      ensures Valid() && Snapshot() == DealBoard(old(Snapshot()), k)
    {
      hide Seats, Valid;
      ghost var t := Snapshot();
      BurnCard();
      ghost var t1 := Snapshot();
      for i := 0 to k
        invariant Valid() && |deck.cards| >= k - i
        invariant DealCards(Snapshot(), k - i) == DealCards(t1, k)
      {
        TurnUpCard();
      }
    }

    method AdvanceToNextPhase() returns (advanced: bool)
      requires Valid() && Placed(Snapshot()) && EnoughCards(Snapshot())
      modifies this, players, deck
      ensures Valid() && players == old(players)
      ensures Snapshot() == AdvancePhase(old(Snapshot()))
      ensures advanced <==> AdvanceAllowed(old(Snapshot()))
    {
      hide DealBoard, StartRound, SeatsIn;
      ghost var t := Snapshot();
      if !bettingRoundComplete {
        return false;
      }
      var remaining := SeatsIn(Seats(), {Active, AllIn});
      assert |remaining| == |Remaining(t.seats)|;
      if |remaining| <= 1 {
        currentPhase := Showdown;
        return true;
      }
      if currentPhase == River {
        currentPhase := Showdown;
        return true;
      }
      if currentPhase == Showdown || currentPhase == Finished {
        return false;
      }
      var cards := CardsOfPhase(currentPhase);
      currentPhase := NextPhase(currentPhase);
      ghost var t1 := Snapshot();
      assert t1 == t.(phase := NextPhase(t.phase));
      DealStreet(cards);
      assert Snapshot() == DealBoard(t1, cards);
      DealKeeps(t.(phase := NextPhase(t.phase)), CardsOfPhase(t.phase));
      StartNewBettingRound();
      return true;
    }

    // -------------------------------------------------------------- a new hand

    method ResetPlayers()
      requires Valid()
      modifies players
      ensures Valid() && Snapshot() == old(Snapshot()).(seats := ResetSeats(old(Seats())))
    {
      ghost var seats := Seats();
      for i := 0 to |players|
        modifies players
        invariant Valid()
        invariant forall j :: 0 <= j < |players| ==>
                    players[j].View() == if j < i then ResetSeat(seats[j]) else seats[j]
      {
        players[i].ResetForNewHand();
      }
      assert Seats() == ResetSeats(seats);
    }

    method FlagDealers()
      requires Valid()
      modifies players
      ensures Valid() && Snapshot() == old(Snapshot()).(seats := FlagDealer(old(Seats()), dealerButton))
    {
      ghost var seats := Seats();
      for i := 0 to |players|
        modifies players
        invariant Valid()
        invariant forall j :: 0 <= j < |players| ==>
                    players[j].View() == if j < i then seats[j].(isDealer := j == dealerButton) else seats[j]
      {
        players[i].isDealer := i == dealerButton;
      }
      assert Seats() == FlagDealer(seats, dealerButton);
    }

    method MoveDealerButton()
      requires Valid() && Placed(Snapshot())
      modifies this`dealerButton, players
      ensures Valid() && Snapshot() == MoveButton(old(Snapshot()))
    {
      hide SeatsIn, IndexOf, FlagDealer;
      var active := NonBusted(Seats());
      if active == [] {
        return;
      }
      if dealerButton !in active {
        dealerButton := active[0];
      } else {
        var currentDealerPos := IndexOf(active, dealerButton);
        var nextDealerPos := (currentDealerPos + 1) % |active|;
        dealerButton := active[nextDealerPos];
      }
      FlagDealers();
    }

    method PostBlindBets()
      requires Valid() && Placed(Snapshot()) && (|NonBusted(Seats())| >= 2 ==> HasDealer(Snapshot()))
      modifies this, players
      ensures Valid() && players == old(players) && Snapshot() == PostBlinds(old(Snapshot()), smallBlind, bigBlind)
    {
      hide SeatsIn, IndexOf, BlindSeats;
      var active := NonBusted(Seats());
      if |active| < 2 {
        return;
      }
      BlindSeatsArePlayers(Snapshot());
      var (sbPos, bbPos) := BlindSeats(active, dealerButton);
      PostSmall(sbPos);
      PostBig(bbPos);
    }

    method PostSmall(pos: nat)
      requires Valid() && pos < |players|
      modifies this`pot, players
      ensures Valid() && Snapshot() == PostSmallBlind(old(Snapshot()), pos, smallBlind)
    {
      ghost var seats := Seats();
      players[pos].isSmallBlind := true;
      var amount := players[pos].Bet(smallBlind);
      pot := pot + amount;
      assert Seats() == seats[pos := BetSeat(seats[pos].(isSmallBlind := true), smallBlind)];
    }

    method PostBig(pos: nat)
      requires Valid() && pos < |players|
      modifies this`pot, this`currentBet, this`lastRaiserIndex, players
      ensures Valid() && Snapshot() == PostBigBlind(old(Snapshot()), pos, bigBlind)
    {
      ghost var seats := Seats();
      players[pos].isBigBlind := true;
      assert players[pos].View() == seats[pos].(isBigBlind := true);
      var amount := players[pos].Bet(bigBlind);
      pot := pot + amount;
      currentBet := amount;
      lastRaiserIndex := Some(pos);
      assert Seats() == seats[pos := BetSeat(seats[pos].(isBigBlind := true), bigBlind)];
    }

    /** One more hole card for player `index`. */
    method GiveCard(index: nat)
      requires Valid() && index < |players| && |deck.cards| > 0 && |players[index].holeCards| < 2
      modifies players, deck
      ensures Valid() && Snapshot() == CardGiven(old(Snapshot()), index)
    {
      ghost var t := Snapshot();
      var card := deck.DealCard();
      assert t.deck == deck.cards + [card.value];
      var added := players[index].AddHoleCard(card.value);
      assert Seats() == t.seats[index := CardGiven(t, index).seats[index]];
    }

    /** One pass over the players. */
    method DealPass(round: nat)
      requires Valid() && |deck.cards| >= |players| && round < 2
      requires forall j :: 0 <= j < |players| && players[j].status != Busted ==> |players[j].holeCards| == round
      modifies players, deck
      ensures Valid() && Snapshot() == DealRound(old(Snapshot()), 0)
      ensures forall j :: 0 <= j < |players| && players[j].status != Busted ==> |players[j].holeCards| == round + 1
    {
      hide DealRound, CardGiven;
      ghost var t := Snapshot();
      for i := 0 to |players|
        modifies players, deck
        invariant Valid() && |deck.cards| >= |players| - i
        invariant DealRound(Snapshot(), i) == DealRound(t, 0)
        invariant HolesSoFar(Seats(), round, i)
      {
        DealRoundStep(Snapshot(), i, round);
        if players[i].status != Busted {
          assert |Seats()[i].hole| == round;
          GiveCard(i);
        }
      }
      DealRoundDone(Snapshot());
      assert forall j :: 0 <= j < |players| && players[j].status != Busted ==> |Seats()[j].hole| == round + 1;
    }

    method DealHoleCards()
      requires Valid() && |deck.cards| >= 2 * |players|
      requires forall j :: 0 <= j < |players| && players[j].status != Busted ==> players[j].holeCards == []
      modifies players, deck
      ensures Valid() && Snapshot() == DealHole(old(Snapshot()))
    {
      hide DealRound;
      DealPass(0);
      DealPass(1);
    }

    method SetFirstActorPreflop()
      requires Valid() && Placed(Snapshot())
      modifies this`currentPlayerIndex, this`bettingRoundComplete
      ensures Valid() && Snapshot() == SetFirstActor(old(Snapshot()))
    {
      hide SeatsIn, IndexOf;
      var active := SeatsIn(Seats(), {Active, AllIn});
      if |active| < 2 {
        bettingRoundComplete := true;
        return;
      }
      if dealerButton !in active {
        currentPlayerIndex := active[0];
        return;
      }
      var dealerPos := IndexOf(active, dealerButton);
      if |active| == 2 {
        currentPlayerIndex := dealerButton;
      } else {
        var utgPos := (dealerPos + 3) % |active|;
        currentPlayerIndex := active[utgPos];
      }
    }

    /** `order` is how the deck comes out of the shuffle. */
    method StartNewHand(order: seq<Card>)
      requires Valid() && Placed(Snapshot()) && Shuffled(order)
      modifies this, players, deck
      ensures Valid() && players == old(players)
      ensures Snapshot() == StartHand(old(Snapshot()), order, smallBlind, bigBlind)
    {
      hide SeatsIn, MoveButton, PostBlinds, DealHole, SetFirstActor, Seats;
      ghost var t := Snapshot();
      ClearHand(order);
      var active := NonBusted(Seats());
      if |active| < 2 {
        currentPhase := Finished;
        return;
      }
      ghost var t0 := Snapshot();
      MoveDealerButton();
      NobodyHasCards(t0, smallBlind, bigBlind);
      PostBlindBets();
      HolesOfPlayers();
      DealHoleCards();
      SetFirstActorPreflop();
    }

    lemma HolesOfPlayers()
      requires forall i :: 0 <= i < |Seats()| ==> Seats()[i].hole == []
      ensures forall j :: 0 <= j < |players| ==> players[j].holeCards == []
    {
      forall j | 0 <= j < |players| ensures players[j].holeCards == [] { assert Seats()[j].hole == []; }
    }

    method ClearHand(order: seq<Card>)
      requires Valid() && Placed(Snapshot()) && Shuffled(order)
      modifies this, players, deck
      ensures Valid() && players == old(players) && Snapshot() == ClearTable(old(Snapshot()), order)
    {
      deck.Reset(order);
      communityCards := [];
      currentPhase := Preflop;
      pot := 0;
      currentBet := 0;
      bettingRoundComplete := false;
      lastRaiserIndex := None;
      hasBetOrRaiseThisRound := false;
      ResetPlayers();
    }

    // -------------------------------------------------------------- showdown

    /** `hands_by_id`. */
    method EvaluateHands(live: seq<nat>) returns (hands: map<nat, HandResult>)
      requires Valid() && HasCards(Snapshot()) && live == SeatsIn(Seats(), {Active, AllIn})
      ensures hands == LiveHands(Snapshot())
    {
      hide SeatsIn, BestHand, LiveHands;
      ghost var t := Snapshot();
      hands := map[];
      for k := 0 to |live|
        invariant forall pid :: pid in hands <==> pid in live[..k]
        invariant forall pid :: pid in hands ==> pid in Remaining(t.seats) && hands[pid] == HandOf(t, pid)
      {
        var pid := live[k];
        assert pid in live && players[pid].View() == t.seats[pid];
        var hand := EvaluateHand(Program, players[pid].holeCards, communityCards);
        HandExists(t.seats[pid].hole + t.board);
        hands := hands[pid := hand.value];
        assert live[..k + 1] == live[..k] + [pid];
      }
      assert live[..|live|] == live;
      HandsOfLive(t, hands);
    }

    method CollectContributions() returns (contrib: seq<nat>)
      requires Valid()
      ensures contrib == Contributions(Seats())
    {
      contrib := [];
      for i := 0 to |players|
        invariant |contrib| == i && forall j :: 0 <= j < i ==> contrib[j] == Max(0, Seats()[j].total)
      {
        contrib := contrib + [Max(0, players[i].totalBetThisHand)];
      }
    }

    /** Hands out the winnings and lists them by rising id. */
    method PayWinnings(winnings: map<nat, nat>) returns (results: seq<(nat, int)>)
      requires Valid()
      modifies players
      ensures Valid() && Snapshot() == Paid(old(Snapshot()), winnings)
      ensures results == Listed(winnings, |players|)
    {
      hide Paid, WinningsOf;
      ghost var t := Snapshot();
      results := [];
      for pid := 0 to |players|
        modifies players
        invariant Valid()
        invariant forall j :: 0 <= j < |players| ==>
                    players[j].View() ==
                      if j < pid then t.seats[j].(chips := t.seats[j].chips + WinningsOf(winnings, j)) else t.seats[j]
        invariant results == Listed(winnings, pid)
      {
        WinningsMeans(winnings, pid);
        if pid in winnings {
          players[pid].chips := players[pid].chips + winnings[pid];
          results := results + [(pid, winnings[pid])];
        }
      }
      SeatsArePaid(t, winnings, Seats());
    }

    /** Pays every layer of the pot; what nobody may claim stays in it. */
    method PayPots(contrib: seq<nat>, hands: map<nat, HandResult>) returns (results: seq<(nat, int)>)
      requires Valid() && |contrib| == |players|
      modifies this`pot, players
      ensures Valid() && Snapshot() == SettlePots(old(Snapshot()), contrib, hands)
      ensures ResultsFit(results, contrib, hands)
    {
      hide UpTo, MaxLive, WonIn, SettlePots, AddChips;
      ghost var t := Snapshot();
      var winnings, totalAwarded := DistributePot(contrib, hands);
      results := PayWinnings(winnings);
      pot := Max(0, pot - totalAwarded);
      PaidIsSettled(t, contrib, hands, winnings);
      ListedWinnings(contrib, hands, winnings);
    }

    /** A showdown between at least two players. */
    method DistributeToWinners(live: seq<nat>) returns (winners: seq<nat>, results: seq<(nat, int)>)
      requires Valid() && HasCards(Snapshot()) && live == SeatsIn(Seats(), {Active, AllIn})
      modifies this`pot, players
      ensures Valid()
      ensures Snapshot() == SettlePots(old(Snapshot()), Contributions(old(Seats())), LiveHands(old(Snapshot())))
      ensures winners == Winners(live, LiveHands(old(Snapshot())))
      ensures ResultsFit(results, Contributions(old(Seats())), LiveHands(old(Snapshot())))
    {
      hide SeatsIn, HandOf, HasCards, Winners, SettlePots, ResultsFit;
      var hands := EvaluateHands(live);
      var contrib := CollectContributions();
      results := PayPots(contrib, hands);
      var best;
      winners, best := DetermineWinnerIds(live, hands);
    }

    method ConductShowdown() returns (winners: seq<nat>, results: seq<(nat, int)>)
      requires Valid() && HasCards(Snapshot())
      modifies this, players
      ensures Valid() && players == old(players) && Snapshot() == Settle(old(Snapshot()))
      ensures var live := SeatsIn(old(Seats()), {Active, AllIn});
              && winners == (if |live| <= 1 then live else Winners(live, LiveHands(old(Snapshot()))))
              && (|live| == 0 ==> results == []) && (|live| == 1 ==> results == [(live[0], old(pot))])
      ensures |Remaining(old(Seats()))| >= 2 ==>
                ResultsFit(results, Contributions(old(Seats())), LiveHands(old(Snapshot())))
    {
      hide ResultsFit, SeatsIn, HasCards, SettlePots, LiveHands, Contributions, Winners;
      var live := SeatsIn(Seats(), {Active, AllIn});
      if |live| == 0 {
        return [], [];
      }
      if |live| == 1 {
        assert live[0] in live;
        var winner := players[live[0]];
        ghost var seats := Seats();
        winner.chips := winner.chips + pot;
        assert Seats() == seats[live[0] := seats[live[0]].(chips := seats[live[0]].chips + pot)];
        return live, [(live[0], pot)];
      }
      winners, results := DistributeToWinners(live);
    }
  }

  /** The list of results names exactly the players who win something, or win a share of nothing, by rising id. */
  ghost predicate ResultsFit(results: seq<(nat, int)>, contrib: seq<nat>, hands: map<nat, HandResult>) {
    && (forall i, j :: 0 <= i < j < |results| ==> results[i].0 < results[j].0)
    && (forall r :: r in results ==> r.0 < |contrib| && r.1 == Won(contrib, hands, r.0))
    && (forall i: nat :: Won(contrib, hands, i) > 0 ==> (i, Won(contrib, hands, i)) in results)
  }

  /** `sorted(winnings_map.items())`, as far as the ids below `n` go. */
  function Listed(winnings: map<nat, nat>, n: nat): seq<(nat, int)> {
    if n == 0 then []
    else Listed(winnings, n - 1) + if n - 1 in winnings then [(n - 1, winnings[n - 1] as int)] else []
  }

  lemma {:induction false} ListedMembers(winnings: map<nat, nat>, n: nat)
    ensures forall r :: r in Listed(winnings, n) <==> r.0 < n && r.0 in winnings && r.1 == winnings[r.0]
    ensures forall i, j :: 0 <= i < j < |Listed(winnings, n)| ==> Listed(winnings, n)[i].0 < Listed(winnings, n)[j].0
  {
    if n > 0 {
      ListedMembers(winnings, n - 1);
      var l := Listed(winnings, n - 1);
      assert forall i :: 0 <= i < |l| ==> l[i] in l;
    }
  }

  lemma ListedWinnings(contrib: seq<nat>, hands: map<nat, HandResult>, winnings: map<nat, nat>)
    requires forall pid :: WinningsOf(winnings, pid) == Won(contrib, hands, pid)
    requires forall pid :: pid in winnings ==> pid < |contrib|
    ensures ResultsFit(Listed(winnings, |contrib|), contrib, hands)
  {
    hide WonIn;
    var results := Listed(winnings, |contrib|);
    ListedMembers(winnings, |contrib|);
    forall r | r in results ensures r.1 == Won(contrib, hands, r.0) { assert WinningsOf(winnings, r.0) == r.1; }
    forall i: nat | Won(contrib, hands, i) > 0 ensures (i, Won(contrib, hands, i)) in results {
      assert WinningsOf(winnings, i) > 0;
      var r := (i, Won(contrib, hands, i) as int);
      assert r.0 in winnings && r.1 == winnings[r.0];
    }
  }

  function Paid(t: Table, winnings: map<nat, nat>): Table {
    t.(seats := AddChips(t.seats, seq(|t.seats|, i requires 0 <= i < |t.seats| => WinningsOf(winnings, i))))
  }

  lemma WinningsMeans(winnings: map<nat, nat>, pid: nat)
    ensures WinningsOf(winnings, pid) == if pid in winnings then winnings[pid] else 0
  {
  }

  lemma SeatsArePaid(t: Table, winnings: map<nat, nat>, seats: seq<Seat>)
    requires |seats| == |t.seats|
    requires forall j :: 0 <= j < |seats| ==>
               seats[j] == t.seats[j].(chips := t.seats[j].chips + WinningsOf(winnings, j))
    ensures Paid(t, winnings) == t.(seats := seats)
  {
    assert Paid(t, winnings).seats == seats;
  }

  lemma PaidIsSettled(t: Table, contrib: seq<nat>, hands: map<nat, HandResult>, winnings: map<nat, nat>)
    requires |contrib| == |t.seats| && forall pid :: WinningsOf(winnings, pid) == Won(contrib, hands, pid)
    ensures Paid(t, winnings).(pot := Max(0, t.pot - UpTo(contrib, MaxLive(contrib, hands))))
            == SettlePots(t, contrib, hands)
  {
    hide UpTo, MaxLive, WonIn;
    assert Paid(t, winnings).seats == SettlePots(t, contrib, hands).seats;
  }

  predicate HolesSoFar(seats: seq<Seat>, round: nat, i: nat) {
    forall j :: 0 <= j < |seats| && seats[j].status != Busted ==> |seats[j].hole| == if j < i then round + 1 else round
  }

  lemma DealRoundStep(t: Table, i: nat, round: nat)
    requires i < |t.seats| && |t.deck| >= |t.seats| - i && HolesSoFar(t.seats, round, i)
    ensures t.seats[i].status == Busted ==>
              DealRound(t, i) == DealRound(t, i + 1) && HolesSoFar(t.seats, round, i + 1)
    ensures t.seats[i].status != Busted ==>
              |CardGiven(t, i).seats| == |t.seats| && |CardGiven(t, i).deck| == |t.deck| - 1
              && DealRound(t, i) == DealRound(CardGiven(t, i), i + 1) && HolesSoFar(CardGiven(t, i).seats, round, i + 1)
  {
  }

  lemma DealRoundDone(t: Table)
    ensures DealRound(t, |t.seats|) == t
  {
  }

  /** Neither moving the button nor posting the blinds deals a card. */
  lemma NobodyHasCards(t: Table, small: int, big: int)
    requires Placed(t) && |NonBusted(t.seats)| >= 2 && forall i :: 0 <= i < |t.seats| ==> t.seats[i].hole == []
    ensures HasDealer(MoveButton(t))
    ensures var b := PostBlinds(MoveButton(t), small, big);
            b.deck == t.deck && forall i :: 0 <= i < |b.seats| ==> b.seats[i].hole == []
  {
    hide SeatsIn, IndexOf, BlindSeats, NextDealer;
    ButtonIsPlayed(t);
    BlindSeatsArePlayers(MoveButton(t));
    var (sb, bb) := BlindSeats(NonBusted(MoveButton(t).seats), MoveButton(t).dealer);
    var t1 := MoveButton(t);
    forall i | 0 <= i < |t.seats| ensures t1.seats[i].hole == [] { }
    var b := PostBlinds(t1, small, big);
    forall i | 0 <= i < |b.seats| ensures b.seats[i].hole == [] { assert b.seats[i].hole == t1.seats[i].hole; }
  }

  // ---------------------------------------------------------------- the pieces of an action, on values

  function Wagered(t: Table, index: nat, amount: int): (r: Table)
    requires index < |t.seats|
    ensures |r.seats| == |t.seats| && r.cur == t.cur && r.currentBet == t.currentBet
  {
    t.(seats := t.seats[index := BetSeat(t.seats[index], amount)], pot := t.pot + BetPaid(t.seats[index], amount))
  }

  function WithStatus(t: Table, index: nat, status: Status): Table
    requires index < |t.seats|
  {
    t.(seats := t.seats[index := t.seats[index].(status := status)])
  }

  function Raised(t: Table): (r: Table)
    requires t.cur < |t.seats|
    ensures |r.seats| == |t.seats| && r.cur == t.cur
  {
    t.(currentBet := t.seats[t.cur].bet, lastRaiser := Some(t.cur), raised := true)
  }

  lemma FoldTaken(t: Table, amount: int)
    requires Placed(t)
    ensures WithStatus(t, t.cur, Folded) == TakeAction(t, Fold, amount)
  {
  }

  lemma CheckTaken(t: Table, amount: int)
    requires Placed(t)
    ensures TakeAction(t, Check, amount) == t
  {
  }

  lemma CallTaken(t: Table, amount: int)
    requires Placed(t)
    ensures Wagered(t, t.cur, t.currentBet - t.seats[t.cur].bet) == TakeAction(t, Call, amount)
    ensures t.currentBet <= t.seats[t.cur].bet ==> TakeAction(t, Call, amount) == t
  {
  }

  lemma RaiseTaken(t: Table, amount: int)
    requires Placed(t)
    ensures Raised(Wagered(t, t.cur, t.currentBet - t.seats[t.cur].bet + amount)) == TakeAction(t, Raise, amount)
  {
  }

  lemma AllInTaken(t: Table, amount: int)
    requires Placed(t)
    ensures var w := Wagered(t, t.cur, t.seats[t.cur].chips);
            WithStatus(if w.seats[t.cur].bet > t.currentBet then Raised(w) else w, t.cur, AllIn)
              == TakeAction(t, GoAllIn, amount)
  {
    var w := Wagered(t, t.cur, t.seats[t.cur].chips);
    var s := w.seats[t.cur].(status := AllIn);
    assert w.seats[t.cur := s] == t.seats[t.cur := s];
  }

  lemma {:induction false} FirstBigBlind(seats: seq<Seat>, i: nat)
    requires i < |seats| && seats[i].isBigBlind && forall j :: 0 <= j < i ==> !seats[j].isBigBlind
    ensures BigBlindSeat(seats) == Some(i)
  {
    if i < |seats| - 1 { FirstBigBlind(seats[..|seats| - 1], i); }
  }

  lemma MatchedOnList(t: Table)
    ensures var active := SeatsIn(t.seats, {Active});
            && (forall k :: 0 <= k < |active| ==> active[k] < |t.seats|)
            && (AllMatched(t) <==> forall k :: 0 <= k < |active| ==> t.seats[active[k]].bet == t.currentBet)
  {
    var active := SeatsIn(t.seats, {Active});
    forall k | 0 <= k < |active| ensures active[k] < |t.seats| && t.seats[active[k]].status == Active {
      assert active[k] in active;
    }
    forall i: nat | i < |t.seats| && t.seats[i].status == Active
      ensures exists k :: 0 <= k < |active| && active[k] == i {
      assert i in active;
    }
  }
}
