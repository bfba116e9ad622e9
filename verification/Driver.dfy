/** The driver that plays hands with arbitrary players (poker/cli_ui.py:567-639), and why it always finishes a hand. */
module Driver {
  import opened Prelude
  import opened Cards
  import opened PotLayers
  import opened Payout
  import opened TableModel
  import opened Bookkeeping
  import opened CardsInPlay
  import opened Settlement
  import opened Closing
  import opened Fairness
  import opened Rounds
  import opened OpeningRound
  import opened PokerGame

  // ---------------------------------------------------------------- what a hand keeps, turn by turn

  predicate HandSound(t: Table, stake: int) {
    Playable(t) && Ledger(t, stake)
  }

  /** Somebody is always left to win the pot, and while the betting is open at least two are. */
  predicate Contested(t: Table) {
    |Remaining(t.seats)| >= 1 && (!t.complete ==> |Remaining(t.seats)| >= 2)
  }

  lemma StepKeepsContest(t: Table, action: Action, amount: int)
    requires Placed(t) && SeatsSound(t.seats) && Contested(t) && !t.complete && Accepts(t, t.cur, action, amount)
    ensures Contested(Step(t, t.cur, action, amount))
  {
    hide Scan;
    var t1 := TakeAction(t, action, amount);
    var t' := Step(t, t.cur, action, amount);
    StepLeavesCards(t, action, amount);
    assert Remaining(t.seats) - {t.cur} <= Remaining(t1.seats);
    SubsetSize(Remaining(t.seats) - {t.cur}, Remaining(t1.seats));
    RemainingIsSum(t'.seats);
  }

  lemma DriverStepKeeps(t: Table, d: Decision, stake: int)
    requires HandSound(t, stake) && Contested(t) && !t.complete
    ensures HandSound(DriverStep(t, d), stake) && Contested(DriverStep(t, d)) && DriverStep(t, d).phase == t.phase
  {
    hide Ledger, CardsSound, Scan, RoundCloses;
    if t.seats[t.cur].status != Active {
      SkipKeeps(t, stake);
    } else {
      FoldIsAccepted(t);
      var e := if Accepts(t, t.cur, d.action, d.amount) then d else Decision(Fold, 0);
      StepKeepsLedger(t, t.cur, e.action, e.amount, stake);
      StepKeepsCards(t, t.cur, e.action, e.amount);
      assert SeatsSound(t.seats) by { LedgerIsSound(t, stake); }
      StepKeepsContest(t, e.action, e.amount);
      StepLeavesCards(t, e.action, e.amount);
    }
  }

  lemma SkipKeeps(t: Table, stake: int)
    requires HandSound(t, stake) && Contested(t) && !t.complete
    ensures HandSound(Advance(t), stake) && Contested(Advance(t)) && Advance(t).phase == t.phase
  {
    hide Scan;
    SameInPlay(t, Advance(t));
  }

  lemma {:induction false} DriveKeeps(t: Table, agents: nat -> Decision, i: nat, k: nat, stake: int)
    requires HandSound(t, stake) && Contested(t)
    ensures HandSound(Drive(t, agents, i, k), stake) && Contested(Drive(t, agents, i, k))
    ensures Drive(t, agents, i, k).phase == t.phase
    decreases k
  {
    hide DriverStep, Contested, Ledger, CardsSound;
    if k > 0 && !t.complete {
      DriverStepKeeps(t, agents(i), stake);
      DriveKeeps(DriverStep(t, agents(i)), agents, i + 1, k - 1, stake);
    }
  }

  lemma {:induction false} DriveOneMore(t: Table, agents: nat -> Decision, i: nat, k: nat)
    requires Placed(t)
    ensures Drive(t, agents, i, k + 1)
         == if Drive(t, agents, i, k).complete then Drive(t, agents, i, k)
           else DriverStep(Drive(t, agents, i, k), agents(i + k))
    decreases k
  {
    hide DriverStep;
    if k > 0 && !t.complete {
      DriveOneMore(DriverStep(t, agents(i)), agents, i + 1, k - 1);
    }
  }

  // ---------------------------------------------------------------- streets

  predicate BettingPhase(p: Phase) {
    p in {Preflop, Flop, Turn, River}
  }

  function PhaseIndex(p: Phase): nat {
    match p case Preflop => 0 case Flop => 1 case Turn => 2 case River => 3 case _ => 4
  }

  lemma StreetKeeps(t: Table, stake: int)
    requires HandSound(t, stake) && Contested(t) && t.complete && BettingPhase(t.phase)
    ensures EnoughCards(t) && AdvanceAllowed(t)
    ensures var u := AdvancePhase(t);
            && HandSound(u, stake) && Contested(u) && PhaseIndex(u.phase) > PhaseIndex(t.phase)
            && (u.phase == Showdown || (BettingPhase(u.phase) && !Standoff(u)))
  {
    hide Ledger, CardsSound, DealBoard, StartRound, Standoff, Remaining, HandsDealt, InPlay;
    AdvancePhaseKeepsCards(t);
    AdvancePhaseKeepsLedger(t, stake);
    AdvanceKeepsSize(t);
    if |Remaining(t.seats)| > 1 && t.phase != River {
      var t1 := t.(phase := NextPhase(t.phase));
      DealKeeps(t1, CardsOfPhase(t.phase));
      StartRoundKeepsCards(DealBoard(t1, CardsOfPhase(t.phase)));
      NewRoundHasNoStandoff(DealBoard(t1, CardsOfPhase(t.phase)));
    }
  }

  // ---------------------------------------------------------------- the rounds of a hand

  /** A betting round: the table it starts on, the number of its first decision, and how many turns it takes. */
  datatype Round = Round(start: Table, first: nat, turns: nat)

  ghost function EndOf(r: Round, agents: nat -> Decision): Table
    requires Placed(r.start)
  {
    Drive(r.start, agents, r.first, r.turns)
  }

  /** Table `t` is where the next phase begins once round `r` is over. */
  ghost predicate Follows(r: Round, agents: nat -> Decision, t: Table) {
    && Placed(r.start) && EndOf(r, agents).complete && EnoughCards(EndOf(r, agents))
    && t == AdvancePhase(EndOf(r, agents))
  }

  function NextTurn(rounds: seq<Round>): nat {
    if rounds == [] then 0 else rounds[|rounds| - 1].first + rounds[|rounds| - 1].turns
  }

  /** The `j`-th round begins where the one before ended, or on table `h`, with the next decision, and it ends. */
  ghost predicate RoundFits(h: Table, agents: nat -> Decision, rounds: seq<Round>, j: nat)
    requires j < |rounds|
  {
    var r := rounds[j];
    && Placed(r.start) && BettingPhase(r.start.phase) && EndOf(r, agents).complete
    && if j == 0 then r.start == h && r.first == 0
       else r.first == rounds[j - 1].first + rounds[j - 1].turns && Follows(rounds[j - 1], agents, r.start)
  }

  ghost predicate RoundsOf(h: Table, agents: nat -> Decision, rounds: seq<Round>) {
    forall j: nat :: j < |rounds| ==> RoundFits(h, agents, rounds, j)
  }

  lemma OneMoreRound(h: Table, agents: nat -> Decision, rounds: seq<Round>, r: Round)
    requires RoundsOf(h, agents, rounds) && Placed(r.start) && BettingPhase(r.start.phase) && EndOf(r, agents).complete
    requires r.first == NextTurn(rounds)
    requires if rounds == [] then r.start == h else Follows(rounds[|rounds| - 1], agents, r.start)
    ensures RoundsOf(h, agents, rounds + [r])
  {
    hide Follows, EndOf;
    var more := rounds + [r];
    forall j: nat | j < |more| ensures RoundFits(h, agents, more, j) {
      if j < |rounds| {
        assert RoundFits(h, agents, rounds, j) && more[j] == rounds[j];
        if j > 0 { assert more[j - 1] == rounds[j - 1]; }
      } else {
        assert more[j] == r;
        if j > 0 { assert more[j - 1] == rounds[j - 1]; }
      }
    }
  }

  // ---------------------------------------------------------------- the loops

  /** One pass of the inner loop: the `i`-th decision, and a fold in its place if the game refuses it. */
  method PlayTurn(game: Game, agents: nat -> Decision, i: nat)
    requires game.Valid() && Placed(game.Snapshot())
    modifies game, game.players
    ensures game.Valid() && game.players == old(game.players)
    ensures game.Snapshot() == DriverStep(old(game.Snapshot()), agents(i))
  {
    hide Step, Advance;
    var current := game.currentPlayerIndex;
    if game.players[current].status != Active {
      game.AdvanceToNextPlayer();
      return;
    }
    var decision := agents(i);
    var success := game.ProcessPlayerAction(current, decision.action, decision.amount);
    if !success {
      RefusedChangesNothing(old(game.Snapshot()), current, decision.action, decision.amount);
      var folded := game.ProcessPlayerAction(current, Fold, 0);
    }
  }

  /** The betting loop. It ends because every turn makes progress; the players may decide whatever they like. */
  method PlayBettingRound(game: Game, agents: nat -> Decision, i: nat) returns (next: nat)
    requires game.Valid() && Placed(game.Snapshot()) && SeatsSound(game.Seats())
    requires SensibleAgents(agents) && !Standoff(game.Snapshot())
    modifies game, game.players
    ensures game.Valid() && game.players == old(game.players) && game.bettingRoundComplete
    ensures next >= i && game.Snapshot() == Drive(old(game.Snapshot()), agents, i, next - i)
  {
    hide DriverStep, Standoff, SeatsSound, Idle, Resources, Overbets, Distance, Drive;
    ghost var t := game.Snapshot();
    next := i;
    DriveNothing(t, agents, i);
    while !game.bettingRoundComplete
      invariant game.Valid() && game.players == old(game.players)
      invariant next >= i && Placed(game.Snapshot()) && SeatsSound(game.Snapshot().seats) && !Standoff(game.Snapshot())
      invariant game.Snapshot() == Drive(t, agents, i, next - i)
      decreases !game.bettingRoundComplete, Idle(game.Snapshot()), Resources(game.Snapshot()),
                Sum(Overbets(game.Snapshot())), Distance(game.Snapshot())
    {
      ghost var u := game.Snapshot();
      DriverMakesProgress(u, agents(next));
      ResourcesArePositive(u);
      DriveOneMore(t, agents, i, next - i);
      PlayTurn(game, agents, next);
      next := next + 1;
    }
  }

  lemma DriveNothing(t: Table, agents: nat -> Decision, i: nat)
    requires Placed(t)
    ensures Drive(t, agents, i, 0) == t
  {
  }

  /** From the deal to the showdown: at most four betting rounds, each of which ends, one street after the other. */
  method PlayHand(game: Game, agents: nat -> Decision, ghost stake: int) returns (ghost rounds: seq<Round>)
    requires game.Valid() && HandSound(game.Snapshot(), stake) && Contested(game.Snapshot())
    requires BettingPhase(game.currentPhase) && SensibleAgents(agents) && !Standoff(game.Snapshot())
    modifies game, game.players, game.deck
    ensures game.Valid() && game.players == old(game.players) && game.currentPhase == Showdown
    ensures HandSound(game.Snapshot(), stake) && Contested(game.Snapshot())
    ensures 1 <= |rounds| <= 4 && RoundsOf(old(game.Snapshot()), agents, rounds)
    ensures Follows(rounds[|rounds| - 1], agents, game.Snapshot())
  {
    hide Contested, Ledger, Playable, Standoff, AdvancePhase, Drive, EnoughCards;
    ghost var h := game.Snapshot();
    var i := 0;
    rounds := [];
    while game.currentPhase != Showdown && game.currentPhase != Finished
      invariant game.Valid() && game.players == old(game.players)
      invariant HandSound(game.Snapshot(), stake) && Contested(game.Snapshot())
      invariant game.currentPhase == Showdown || (BettingPhase(game.currentPhase) && !Standoff(game.Snapshot()))
      invariant |rounds| <= PhaseIndex(game.currentPhase) && i == NextTurn(rounds)
      invariant RoundsOf(h, agents, rounds)
      invariant if rounds == [] then game.Snapshot() == h && game.currentPhase != Showdown
                else Follows(rounds[|rounds| - 1], agents, game.Snapshot())
      decreases 4 - PhaseIndex(game.currentPhase)
    {
      ghost var t := game.Snapshot();
      SoundHand(t, stake);
      var next := PlayBettingRound(game, agents, i);
      DriveKeeps(t, agents, i, next - i, stake);
      ghost var round := Round(t, i, next - i);
      OneMoreRound(h, agents, rounds, round);
      rounds := rounds + [round];
      i := next;
      StreetKeeps(game.Snapshot(), stake);
      SoundHand(game.Snapshot(), stake);
      var advanced := game.AdvanceToNextPhase();
      if !advanced {
        break;
      }
    }
  }

  lemma SoundHand(t: Table, stake: int)
    requires HandSound(t, stake)
    ensures Placed(t) && SeatsSound(t.seats) && |t.seats| <= 10
  {
  }

  // ---------------------------------------------------------------- a whole hand

  lemma HandStarts(t: Table, order: seq<Card>, small: int, big: int)
    requires Placed(t) && |t.seats| <= 10 && Shuffled(order) && NoDebts(t.seats) && 0 < small < big
    requires |NonBusted(ResetSeats(t.seats))| >= 2
    ensures var h := StartHand(t, order, small, big);
            && HandSound(h, Sum(Chips(t.seats))) && Contested(h) && h.phase == Preflop && !h.complete
            && (Standoff(h) <==> OpensInStandoff(t, small))
  {
    hide StartHand, CardsSound, Ledger, HandBlinds;
    var h := StartHand(t, order, small, big);
    StartHandCards(t, order, small, big);
    StartHandLedger(t, order, small, big);
    StartHandOpening(t, order, small, big);
    OpeningStandoff(t, order, small, big);
    assert |Remaining(h.seats)| == |SeatsIn(h.seats, {Active, AllIn})|;
  }

  /** The first betting round always ends, for all sensible players, exactly if the hand opens without a standoff. */
  lemma FirstRoundAlwaysCloses(t: Table, order: seq<Card>, small: int, big: int)
    requires Placed(t) && |t.seats| <= 10 && Shuffled(order) && NoDebts(t.seats) && 0 < small < big
    requires |NonBusted(ResetSeats(t.seats))| >= 2
    ensures AlwaysCloses(StartHand(t, order, small, big)) <==> !OpensInStandoff(t, small)
  {
    hide StartHand, OpensInStandoff, Standoff, AlwaysCloses, Contested, HandSound;
    HandStarts(t, order, small, big);
    var h := StartHand(t, order, small, big);
    SoundHand(h, Sum(Chips(t.seats)));
    RoundClosesUnlessStandoff(h);
  }

  /** The showdown changes stacks and pot only. */
  lemma SettleKeepsStatus(t: Table)
    requires HasCards(t)
    ensures var u := Settle(t);
            && |u.seats| == |t.seats| && u.board == t.board && u.phase == t.phase
            && forall i :: 0 <= i < |t.seats| ==> u.seats[i].status == t.seats[i].status
  {
    hide HandOf, Levels, MaxLive, UpTo, WonIn, SeatsIn, LiveHands;
  }

  lemma SameRemaining(a: seq<Seat>, b: seq<Seat>)
    requires |a| == |b| && forall i :: 0 <= i < |a| ==> a[i].status == b[i].status
    ensures Remaining(a) == Remaining(b)
  {
  }

  /** What the players own after the showdown, plus what nobody could claim, is what they owned before the hand. */
  lemma SettledStake(t: Table, stake: int)
    requires HandSound(t, stake) && HasCards(t) && |Remaining(t.seats)| >= 1
    ensures var u := Settle(t);
            && |u.seats| == |t.seats| && Remaining(u.seats) == Remaining(t.seats)
            && u.board == t.board && u.phase == t.phase
            && Sum(Chips(u.seats)) + (if |Remaining(u.seats)| >= 2 then u.pot else 0) == stake
  {
    hide Settle, Playable, Ledger, HasCards, Remaining;
    SettleKeepsStatus(t);
    SameRemaining(Settle(t).seats, t.seats);
    if |Remaining(t.seats)| == 1 {
      SurvivorTakesThePot(t, stake);
    } else {
      ShowdownPaysThePot(t, stake);
    }
  }

  /**
   * A hand from the deal to the payout. It always ends, with a winner; if two or more players reach the showdown there
   * are five cards on the board; and no chip is lost but those of a layer nobody could claim, which stay in the pot.
   */
  method RunHand(game: Game, order: seq<Card>, agents: nat -> Decision) returns (ghost rounds: seq<Round>)
    requires game.Valid() && Placed(game.Snapshot()) && NoDebts(game.Seats())
    requires Shuffled(order) && 0 < game.smallBlind < game.bigBlind && SensibleAgents(agents)
    requires |NonBusted(ResetSeats(game.Seats()))| >= 2 ==> !OpensInStandoff(game.Snapshot(), game.smallBlind)
    modifies game, game.players, game.deck
    ensures game.Valid() && game.players == old(game.players)
    ensures |NonBusted(ResetSeats(old(game.Seats())))| < 2 ==> game.currentPhase == Finished
    ensures |NonBusted(ResetSeats(old(game.Seats())))| >= 2 ==>
              && game.currentPhase == Showdown
              && |Remaining(game.Seats())| >= 1
              && (|Remaining(game.Seats())| >= 2 ==> |game.communityCards| == 5)
              && Sum(Chips(game.Seats())) + (if |Remaining(game.Seats())| >= 2 then game.pot else 0)
                 == Sum(Chips(old(game.Seats())))
              && 1 <= |rounds| <= 4
              && RoundsOf(StartHand(old(game.Snapshot()), order, game.smallBlind, game.bigBlind), agents, rounds)
  {
    rounds := [];
    hide OpensInStandoff, Standoff, StartHand, Ledger, SeatsIn, Settle, HasCards, CardsSound;
    ghost var t, stake := game.Snapshot(), Sum(Chips(game.Seats()));
    game.StartNewHand(order);
    if game.currentPhase == Finished {
      FinishedMeansAlone(t, order, game.smallBlind, game.bigBlind);
      return;
    }
    StartedMeansTwo(t, order, game.smallBlind, game.bigBlind);
    HandStarts(t, order, game.smallBlind, game.bigBlind);
    rounds := PlayHand(game, agents, stake);
    ghost var end := game.Snapshot();
    LiveHandsHaveCards(end);
    assert |Remaining(end.seats)| >= 2 ==> |end.board| == 5 by { FullBoard(end, stake); }
    SettledStake(end, stake);
    var winners, results := game.ConductShowdown();
  }

  lemma FullBoard(t: Table, stake: int)
    requires HandSound(t, stake) && t.phase == Showdown
    ensures |Remaining(t.seats)| >= 2 ==> |t.board| == 5
  {
  }

  lemma FinishedMeansAlone(t: Table, order: seq<Card>, small: int, big: int)
    requires Placed(t) && |t.seats| <= 10 && |order| == 52 && NoDebts(t.seats) && 0 < small < big
    requires StartHand(t, order, small, big).phase == Finished
    ensures |NonBusted(ResetSeats(t.seats))| < 2
  {
    if |NonBusted(ResetSeats(t.seats))| >= 2 { StartHandOpening(t, order, small, big); }
  }

  lemma StartedMeansTwo(t: Table, order: seq<Card>, small: int, big: int)
    requires Placed(t) && |t.seats| <= 10 && |order| == 52
    requires StartHand(t, order, small, big).phase != Finished
    ensures |NonBusted(ResetSeats(t.seats))| >= 2
  {
  }

  // ---------------------------------------------------------------- nobody is skipped in a whole hand

  lemma FollowsKeeps(r: Round, agents: nat -> Decision, t: Table, stake: int)
    requires HandSound(r.start, stake) && Contested(r.start) && BettingPhase(r.start.phase) && Follows(r, agents, t)
    ensures HandSound(t, stake) && Contested(t)
    ensures BettingPhase(t.phase) && ActiveSeats(t) != {} ==>
              !t.complete && t.lastRaiser.None? && FirstActor(t) == Some(t.cur) && Fair(t, {})
  {
    hide Contested, AdvancePhase, Drive, FirstActor, Playable, Ledger, Fair, ActiveSeats;
    var e := EndOf(r, agents);
    DriveKeeps(r.start, agents, r.first, r.turns, stake);
    StreetKeeps(e, stake);
    if BettingPhase(t.phase) && ActiveSeats(t) != {} {
      SoundHand(e, stake);
      NextStreetIsFair(e);
    }
  }

  lemma NextStreetIsFair(e: Table)
    requires Placed(e) && SeatsSound(e.seats) && EnoughCards(e) && e.complete && BettingPhase(e.phase)
    requires BettingPhase(AdvancePhase(e).phase) && ActiveSeats(AdvancePhase(e)) != {}
    ensures var t := AdvancePhase(e);
            !t.complete && t.lastRaiser.None? && FirstActor(t) == Some(t.cur) && Fair(t, {})
  {
    hide StartRound, DealBoard, FirstActor, Fair;
    var e1 := e.(phase := NextPhase(e.phase));
    var d := DealBoard(e1, CardsOfPhase(e.phase));
    DealKeeps(e1, CardsOfPhase(e.phase));
    assert AdvancePhase(e) == StartRound(d);
    assert ActiveSeats(StartRound(d)) == ActiveSeats(d) by { RoundKeepsActive(d); }
    NewRoundOpens(d);
    NewRoundIsFair(d);
  }

  lemma RoundKeepsActive(t: Table)
    requires Placed(t)
    ensures ActiveSeats(StartRound(t)) == ActiveSeats(t)
  {
    hide FirstActor;
    assert ActiveSeats(RoundCleared(t)) == ActiveSeats(t);
  }

  lemma {:induction false} RoundIsSound(h: Table, agents: nat -> Decision, rounds: seq<Round>, j: nat, stake: int)
    requires HandSound(h, stake) && Contested(h) && RoundsOf(h, agents, rounds) && j < |rounds|
    ensures Placed(rounds[j].start) && HandSound(rounds[j].start, stake) && Contested(rounds[j].start)
  {
    hide HandSound, Contested, Follows, EndOf;
    assert RoundFits(h, agents, rounds, j);
    if j > 0 {
      assert RoundFits(h, agents, rounds, j - 1);
      RoundIsSound(h, agents, rounds, j - 1, stake);
      FollowsKeeps(rounds[j - 1], agents, rounds[j].start, stake);
    }
  }

  lemma EndKeepsFewer(r: Round, agents: nat -> Decision)
    requires Placed(r.start)
    ensures ActiveSeats(EndOf(r, agents)) <= ActiveSeats(r.start)
  {
    ActiveSeatsOnlyShrink(r.start, agents, r.first, r.turns);
  }

  /** The round ends with two or more players able to act. */
  ghost predicate TwoLeft(r: Round, agents: nat -> Decision) {
    Placed(r.start) && |ActiveSeats(EndOf(r, agents))| >= 2
  }

  /**
   * In the end whoever is able to act has matched the bet and acted since the last raise; a single such player owes
   * nothing, unless nobody else is left in the hand.
   */
  ghost predicate Served(r: Round, agents: nat -> Decision) {
    && Placed(r.start)
    && var (u, acted) := Play(r.start, {}, agents, r.first, r.turns);
       if |ActiveSeats(u)| >= 2 then EverybodyActed(u, acted)
       else |Remaining(u.seats)| >= 2 ==> forall i :: i in ActiveSeats(u) ==> u.seats[i].bet >= u.currentBet
  }

  ghost predicate OpenerFolded(r: Round, agents: nat -> Decision) {
    Placed(r.start) && Effective(r.start, agents(r.first)).action == Fold
  }

  /** A round after the first skips nobody, unless its opener folds before there is a bet. */
  lemma LaterRoundSkipsNobody(h: Table, agents: nat -> Decision, rounds: seq<Round>, j: nat, stake: int)
    requires HandSound(h, stake) && Contested(h) && RoundsOf(h, agents, rounds) && 0 < j < |rounds|
    requires PositiveRaises(agents) && TwoLeft(rounds[j], agents)
    ensures Served(rounds[j], agents) <==> !OpenerFolded(rounds[j], agents)
  {
    hide HandSound, Contested, Fair, FirstActor, Play, Careful, EverybodyActed, AdvancePhase, Drive, ActiveSeats;
    var r := rounds[j];
    assert RoundFits(h, agents, rounds, j) && RoundFits(h, agents, rounds, j - 1);
    RoundIsSound(h, agents, rounds, j - 1, stake);
    EndKeepsFewer(r, agents);
    assert ActiveSeats(r.start) != {};
    FollowsKeeps(rounds[j - 1], agents, r.start, stake);
    PositiveRaisesAreCareful(r.start, agents, r.first, r.turns);
    PlayIsDrive(r.start, {}, agents, r.first, r.turns);
    NobodyIsSkipped(r.start, agents, r.first, r.turns);
  }

  lemma FirstRoundSkipsNobody(h: Table, agents: nat -> Decision, rounds: seq<Round>)
    requires Placed(h) && rounds != [] && RoundsOf(h, agents, rounds) && TwoLeft(rounds[0], agents)
    requires !Skips(h, agents, rounds[0].turns)
    ensures Served(rounds[0], agents)
  {
    hide Play, Drive, EverybodyActed, ActiveSeats;
    assert RoundFits(h, agents, rounds, 0);
    PlayIsDrive(h, {}, agents, 0, rounds[0].turns);
  }

  /** No round of the hand closes while somebody in it owes chips. */
  lemma RoundOwesNothing(h: Table, agents: nat -> Decision, rounds: seq<Round>, j: nat, stake: int)
    requires HandSound(h, stake) && Contested(h) && !h.complete && RoundsOf(h, agents, rounds) && j < |rounds|
    ensures Placed(rounds[j].start) && !Indebted(EndOf(rounds[j], agents))
  {
    hide HandSound, Contested, Fair, FirstActor, AdvancePhase, Drive;
    var r := rounds[j];
    assert RoundFits(h, agents, rounds, j);
    if j > 0 {
      assert RoundFits(h, agents, rounds, j - 1);
      RoundIsSound(h, agents, rounds, j - 1, stake);
      FollowsKeeps(rounds[j - 1], agents, r.start, stake);
    }
    ClosedOwesNothing(r.start, agents, r.first, r.turns);
  }

  lemma FewLeftIsServed(r: Round, agents: nat -> Decision)
    requires Placed(r.start) && !TwoLeft(r, agents) && !Indebted(EndOf(r, agents))
    ensures Served(r, agents)
  {
    hide Play, Drive, ActiveSeats, Remaining;
    PlayIsDrive(r.start, {}, agents, r.first, r.turns);
  }

  /**
   * A whole hand, played by players who raise by positive amounts only. Every betting round that ends with two or more
   * players able to act has been served: each of them has matched the bet and acted since the last raise, if the big
   * blind was not too short, unless, after the flop, the opener of the round has folded before there was a bet: then,
   * and only then, somebody was skipped on that street. In a round that ends with one player able to act against
   * others in the hand, that player owes nothing.
   */
  lemma HandSkipsNobody(t: Table, order: seq<Card>, small: int, big: int, agents: nat -> Decision, rounds: seq<Round>,
                        j: nat)
    requires Placed(t) && |t.seats| <= 10 && Shuffled(order) && NoDebts(t.seats) && 0 < small < big
    requires |NonBusted(ResetSeats(t.seats))| >= 2 && !ShortBigBlind(t, small) && PositiveRaises(agents)
    requires RoundsOf(StartHand(t, order, small, big), agents, rounds) && j < |rounds|
    ensures Served(rounds[j], agents)
       <==> !(j > 0 && TwoLeft(rounds[j], agents) && OpenerFolded(rounds[j], agents))
  {
    hide StartHand, HandSound, Contested, ShortBigBlind, Served, OpenerFolded, TwoLeft, RoundsOf, Skips, Indebted;
    var h := StartHand(t, order, small, big);
    HandStarts(t, order, small, big);
    if !TwoLeft(rounds[j], agents) {
      RoundOwesNothing(h, agents, rounds, j, Sum(Chips(t.seats)));
      FewLeftIsServed(rounds[j], agents);
    } else if j == 0 {
      OtherwiseNobodyIsSkipped(t, order, small, big, agents, rounds[0].turns);
      FirstRoundSkipsNobody(h, agents, rounds);
    } else {
      LaterRoundSkipsNobody(h, agents, rounds, j, Sum(Chips(t.seats)));
    }
  }
}
