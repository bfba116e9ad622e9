# A verified model of the No-Limit Texas Hold'em engine

The project models the three parts of the engine that decide who wins which chips, and proves what they promise.

* **Hand evaluation.** `FiveCards` classifies five cards the way the program, the tutorial tool and the team1 tool each
  do it, and `Categories` says what each result means on the cards. `FiveCardAgreement` and `TeamOrder` relate the three
  classifiers, `BestHands` lifts the result to any number of cards, `HandOrder` shows that the program's three
  comparisons of results are one total order.
* **The betting machine.** `TableModel` is the table as a value with every operation of the game as a function on it.
  `PokerGame` and `Players` are the game and the players as objects updated in place; every method is proved to move the
  table as the function of `TableModel` says. `Bookkeeping`, `CardsInPlay`, `Offers`, `Closing`, `Fairness`, `Rounds`,
  `OpeningRound`, `Rotation`, `Actions` and `Deal` prove properties of those functions, of single steps, of whole rounds
  and of hand after hand. `Driver` is the loop that plays a hand with players who decide arbitrarily.
* **Side pots and the showdown.** `PotLayers` slices the contributions, `PotShares` finds the winners of a layer and
  divides it, `Payout` adds everything up, `SidePots` says who wins what over contributions and hands alone, `Settlement`
  carries the result over to the stacks at the table, `ShowdownByCards` tells it in cards, and `Unclaimed` shows how a
  hand comes to end with chips that nobody can claim.

The main results:

1. *Nobody is skipped.* From a round in order, an accepted action of any amount keeps the order or closes the round with
   everybody served, exactly unless the opener of a round without bets folds or a raise passes somebody over, which the
   table shows before the action (`Fairness.StepIsFair`); so it is over runs of any length (`Rounds.NobodyIsSkipped`).
   Every street after the flop opens in order; in the first round of a hand players raising by positive amounts can skip
   somebody if and only if the big blind has no more chips than the small blind posts, while the small blind and a third
   player have (`OpeningRound.FirstRoundCanSkip`). No round closes over a debt, and none goes on once everybody is served
   (`Fairness.FewActiveClose`, `Fairness.RoundEndsWhenServed`, `Rounds.ClosedOwesNothing`). `Driver.HandSkipsNobody` puts
   this together for all rounds of a hand.
2. *Every round ends* (`Closing.RoundClosesUnlessStandoff`): whatever the players decide, if and only if nobody has bet
   more than the bet to match while somebody else could. A hand opens in such a standoff exactly when a short big blind
   meets a longer small blind and a longer third player (`Closing.OpeningStandoff`); no later street does. Otherwise a
   whole hand ends after at most four rounds (`Driver.PlayHand`, `Driver.RunHand`).
3. *Chips are conserved* over every run, refused requests change nothing, and *no card is ever in two places*
   (`Settlement.AnyRunKeepsTheBooks`, `Driver.RunHand`).
4. *The showdown pays exactly* the chips up to the largest contribution of a live player
   (`Settlement.ShowdownPaysThePot`), and every chip has a known winner: the players with the same hand together win
   exactly the chips between the depth to which that hand is beaten and their own largest contribution
   (`SidePots.EqualHandsWin`), and those of them who put in the same share evenly up to the odd chips
   (`SidePots.TiedWinAlike`). `ShowdownByCards` restates this for the stacks, with five of the seven cards a player sees
   in the place of hands.
5. *The three evaluators agree*, except that the program takes the suited A-5-4-3-2 for a royal flush
   (`FiveCardAgreement.ProgramAgainstTutorial`, `TeamOrder.TeamDecidesAlike`, `BestHands.ProgramDiffersFromTutorial`), and
   the categories and kickers they report are those of the cards (`Categories.ProgramMeans`, `Categories.TutorialMeans`).
6. *A request does exactly what the seats say*: who pays how much, and when nothing happens (`Actions.RequestPays`); and
   the deal puts the button, the blinds and every card where the rules have them (`Deal`).

Where the code does less than one would expect, the model follows the code and a lemma says exactly when:

* The suited A-5-4-3-2 counts as a royal flush in `poker/evaluator.py:125`; the tutorial copy tests for the ten.
* If the opener of a street without bets folds, the first actor is recomputed to the next player and the street ends at
  once (`Rounds.OpenerFoldEndsTheStreet`).
* `process_player_action` accepts a raise by zero or by a negative amount. On every street after the flop the opener's
  raise by zero ends the betting before anybody else has acted (`Rounds.OpenerZeroRaiseEndsTheStreet`). A negative raise
  lowers the bet to match: it can skip a player (`OpeningRound.NegativeRaiseSkips`) or leave a standoff
  (`Closing.RaiseIntoStandoff`), so that a bet and a negative raise keep a street open for ever
  (`Rounds.NegativeRaiseNeverEnds`). `SkippingRaise` in `Fairness.StepIsFair` is the exact condition.
* A big blind with fewer chips than the small blind posts lets checks and calls go round for ever
  (`Closing.OpeningStandoff`). Whether it has fewer or just as many, a third player who joins the small blind, by a
  positive raise or by a call, closes the round before the small blind has acted (`OpeningRound.ShortBlindSkips`).
* A lone survivor takes the whole pot, including chips nobody could have matched, and `pot` keeps its value
  (`Settlement.SurvivorMayExceedTableStakes`).
* A layer that only folded players have paid into is given to nobody, although a comment in the source calls the pot
  fully distributed (`Settlement.ShowdownPaysThePot`, `Payout.FoldedExcessStaysBehind`). It happens when the only player
  able to act faces all-in players, is asked again on the next street, and folds (`Unclaimed.LoneFoldLosesChips`).
* `has_bet_or_raise_this_round` is cleared only when a hand starts, not at every street.
* Going all-in is accepted from every player to act but not offered to one who has matched a bet and has no big blind
  option (`Offers.OffersAreComplete`).

Money is `int` because Python integers do not overflow. Seat ids are list positions, which every setup function of the
source establishes. The order of a shuffled deck and the decisions of the players are parameters.

## Model

| member | source | states |
|---|---|---|
| HandOrder.BeatsIsTotal | poker/evaluator.py:242-262 | of two results exactly one beats the other or they are equal |
| HandOrder.BeatsIsTransitive | poker/evaluator.py:242-262 | not being beaten is transitive, so results are totally preordered |
| HandOrder.ComparisonsAgree | poker/evaluator.py:41-55 | on evaluated hands the zip comparison of `__lt__`, `compare_hands` and the whole-list comparison of the showdown decide alike, ties included |
| HandOrder.BeatsMeans | poker/evaluator.py:242-262 | an evaluated hand beats another exactly if its category is higher, or it is the same and the first kicker that differs is larger |
| HandOrder.CategoriesRise | poker/evaluator.py:11-23 | the ten categories from high card to royal flush, in rising order |
| RankCounting.DescendingIsUnique | poker/evaluator.py:109 | sorting is determined by the multiset of ranks |
| RankCounting.FiveCardPatterns | poker/evaluator.py:112-122 | the counter of five ranks has one of seven patterns |
| RankCounting.KeysByCountOfFive | agents/team1_agent/flop_strategy_agent/tools/hand_evaluator.py:70-72 | sorting the ranks by (count, rank) lists fours, threes, pairs and singles one after the other, each falling |
| Categories.ProgramMeans | poker/evaluator.py:106-239 | on the five cards themselves: each category holds exactly if suits, ranks in a row and numbers of equal ranks say so, royal flushes being ten to ace and ace to five of one suit, and the kickers are the ranks that count, in order |
| Categories.TutorialMeans | tutorial_agents/agent_with_tool/hand_evaluator_tool.py:126-237 | the same of the tutorial copy, with ten to ace of one suit as the only royal flush |
| FiveCards.EvaluateFive | poker/evaluator.py:106-221 | the number of kickers depends on the category alone |
| FiveCardAgreement.StraightMeaning | poker/evaluator.py:224-239 | `_is_straight` holds of sorted ranks exactly if they fall by one each or are A-5-4-3-2 |
| FiveCardAgreement.TutorialRoyal | tutorial_agents/agent_with_tool/hand_evaluator_tool.py:139-145 | the tutorial copy reports a royal flush exactly for A-K-Q-J-10 of one suit |
| FiveCardAgreement.ProgramRoyal | poker/evaluator.py:124-131 | the program reports one exactly for A-K-Q-J-10 or A-5-4-3-2 of one suit |
| FiveCardAgreement.ProgramAgainstTutorial | poker/evaluator.py:106-221 | program and tutorial copy return the same result exactly if the hand is not a suited A-5-4-3-2, and what each returns there |
| FiveCardAgreement.WheelFlushExample | poker/evaluator.py:125 | a concrete hand on which the two differ |
| FiveCardAgreement.TeamIsTranslation | agents/team1_agent/flop_strategy_agent/tools/hand_evaluator.py:50-106 | the team1 tuple of five cards is the tutorial result translated to ranks 0 to 12 and split into its fields |
| TeamOrder.TranslateKeepsOrder | agents/team1_agent/flop_strategy_agent/tools/hand_evaluator.py:209-214 | comparing padded tuples orders translated results as the program's comparison orders the results |
| TeamOrder.TeamDecidesAlike | agents/team1_agent/flop_strategy_agent/tools/hand_evaluator.py:50-106 | on any two hands of five cards the team1 tool and the tutorial copy give the same win, loss or tie |
| Combinations.ChoicesAreContained | poker/evaluator.py:93 | every combination is made of cards of the list, none used twice |
| Combinations.EveryChoiceOccurs | poker/evaluator.py:93 | every choice of k of the cards is among the combinations |
| BestHands.EvaluateHand | poker/evaluator.py:65-103 | the loop keeping the best five returns `BestHand` of all cards seen, also for fewer than five cards |
| Categories.FewCardsMean | poker/evaluator.py:80-88 | with one to four cards the result is a high card with all ranks as kickers, falling |
| BestHands.BestIsMaximum | poker/evaluator.py:90-103 | the result is reached by some five of the cards and beaten by no five of them |
| BestHands.BestIsUnique | poker/evaluator.py:90-103 | only one result is like that, so the maximum specifies `evaluate_hand` completely |
| BestHands.BestIgnoresOrder | poker/evaluator.py:78-103 | the order of the cards and their split into hole and board do not matter |
| BestHands.MoreCardsNeverHurt | poker/evaluator.py:78-103 | more cards never make the result weaker |
| BestHands.ProgramDiffersFromTutorial | poker/evaluator.py:124-131 | for five or more cards the two evaluators differ exactly if a suited A-5-4-3-2 can be made and no suited A-K-Q-J-10 |
| BestHands.TeamEvaluateHand | agents/team1_agent/flop_strategy_agent/tools/hand_evaluator.py:182-227 | fails exactly for wrong numbers of cards, and else returns the largest padded tuple |
| BestHands.TeamBestIsTranslation | agents/team1_agent/flop_strategy_agent/tools/hand_evaluator.py:205-219 | the team1 best hand is the translation of the tutorial best hand, for any number of cards |
| PotLayers.BuildPotLayers | poker/game.py:1073-1095 | the loop over the levels computes the closed form of every layer |
| PotLayers.LayerAmount | poker/game.py:1080-1094 | a layer holds the chips between its two levels, which is more than nothing |
| PotLayers.LayersPartitionThePot | poker/game.py:1073-1095 | layers are positive, add up to all contributions, have strictly nested contributors, and the widths of the layers of a player add up to that player's contribution |
| PotShares.DetermineWinnerIds | poker/game.py:1112-1137 | exactly the ids whose hand no other listed hand beats, in the order listed, and the best hand itself |
| PotShares.LayerIsPaidOut | poker/game.py:1160-1171 | the shares with odd chips by rising id add up to the whole layer |
| PotShares.ShareAtLeastWidth | poker/game.py:1160-1171 | a winner of a layer gets back at least the width of the layer |
| Payout.PayLayer | poker/game.py:1160-1171 | the loop over the winners adds everybody's share to the winnings and awards exactly the layer |
| Payout.DistributePot | poker/game.py:1139-1171 | the loop over the layers gives everybody the sum of the shares and awards the chips up to the largest live contribution |
| Payout.ShowdownPaysUpToMaxLive | poker/game.py:1139-1171 | what is paid is the sum of min(contribution, M), what stays behind the sum of max(0, contribution - M), and nothing stays exactly if no folded player put in more than M |
| Payout.FoldedExcessStaysBehind | poker/game.py:1151-1158 | an example with 40 chips paid to nobody |
| Unclaimed.LoneFoldLosesChips | poker/game.py:944-949 | a lone ACTIVE player who put in more than the all-in players, asked on the next street, folds: whatever follows, the showdown leaves chips in the pot |
| Payout.TableStakes | poker/game.py:1084-1086 | nobody wins more than the sum of min(c_p, c_i), a strictly best hand wins exactly that, a folded player nothing |
| Payout.NoLossForBestOrDeepest | poker/game.py:1160-1171 | an unbeaten hand wins at least what it put in; a strictly largest live contribution gets its excess over the second largest back |
| SidePots.LayerGoesTo | poker/game.py:1112-1137 | a layer goes to exactly those live players who reach its level and are beaten by no other who does |
| SidePots.BeatenWinsAbove | poker/game.py:1146-1171 | a player beaten by q wins at most the chips above what q put in |
| SidePots.BestAboveWins | poker/game.py:1146-1171 | the best of those who put in more than b, the depth to which it is beaten, wins exactly the chips from b up to its own contribution |
| SidePots.TiedWinAlike | poker/game.py:1160-1171 | equal hands with equal contributions win the same, the lower id at most one odd chip more for each different contribution |
| SidePots.EqualHandsWin | poker/game.py:1146-1171 | all players with one hand together win exactly the chips between the depth to which it is beaten and the largest contribution among them |
| Cards.FullDeckHasEveryCardOnce | poker/game_models.py:93-99 | the deck has each of the 52 cards once |
| Cards.Deck.Reset | poker/game_models.py:93-103 | rebuilds the deck in the order the shuffle gives |
| Cards.Deck.DealCard | poker/game_models.py:105-109 | takes the last card, and fails on an empty deck |
| Players.Player.Bet | poker/player_models.py:79-93 | pays at most the stack, counts it twice, and marks the player all-in when nothing is left |
| Players.Player.FoldHand | poker/player_models.py:95-97 | only the status changes |
| Players.Player.AddHoleCard | poker/player_models.py:73-77 | refuses a third card |
| Players.Player.ResetForNewHand | poker/player_models.py:56-67 | everything but chips and id is cleared; no chips means busted |
| Players.Player.ResetForNewBettingRound | poker/player_models.py:69-71 | only the bet of the round is cleared |
| PokerGame.Game.AddPlayer | poker/game.py:86-90 | adds a player unless ten are seated |
| PokerGame.Game.FirstActiveAfter | poker/game.py:797-809 | the shared seat scan: the first ACTIVE seat in circular order |
| PokerGame.Game.AdvanceToNextPlayer | poker/game.py:617-649 | the turn goes to the next ACTIVE seat; without one the round is complete |
| PokerGame.Game.GetFirstActorForPhase | poker/game.py:765-795 | the first actor, recomputed each time from the big blind or the dealer |
| Fairness.FirstActorIsNearest | poker/game.py:765-795 | after the flop the first actor is the nearest ACTIVE seat after the dealer, the dealer last |
| Fairness.FirstActorBeforeFlop | poker/game.py:765-795 | before the flop it is the nearest after the big blind, or the first in seat order without one |
| PokerGame.Game.RoundIsOver | poker/game.py:651-763 | the eight exits of the closing test |
| Fairness.FewActiveClose | poker/game.py:662-689 | an action that leaves at most one ACTIVE seat completes the round exactly if at most one player is left or that seat owes nothing |
| Fairness.RoundEndsWhenServed | poker/game.py:691-763 | with two ACTIVE seats left an action that passes nobody over completes a round in order exactly if everybody has matched the bet and acted since the last raise |
| Rounds.ClosedOwesNothing | poker/game.py:651-763 | over any run, of any amounts, no round closes while an ACTIVE seat owes chips to others in the hand |
| PokerGame.Game.GetAvailableActions | poker/game.py:418-482 | the list of offers, in order |
| PokerGame.Game.ApplyAction | poker/game.py:484-590 | a request is refused without a trace or changes seat, pot, bet and last raiser as `TakeAction` says |
| PokerGame.Game.ProcessPlayerAction | poker/game.py:484-615 | action, turn and closing test together are `Step`; refusal leaves the whole game unchanged |
| Actions.RequestPays | poker/game.py:484-590 | over seats, pot and bet alone, for every id, action and amount: what is paid, what the bet to match becomes, and when nothing at all changes |
| Actions.RaiseIsExact | poker/game.py:544-559 | a positive raise is refused exactly if the stack is smaller than what is owed plus the amount, and else takes and raises by exactly that |
| Actions.RefusedMeansFold | poker/cli_ui.py:600-618 | a decision the rules or the stack refuse folds the seat, and a seat that cannot act is passed over |
| PokerGame.Game.StartNewBettingRound | poker/game.py:919-962 | clears bets, bet to match and last raiser, and seats the first actor |
| PokerGame.Game.DealStreet | poker/game.py:874-917 | burns one card and turns up the next k |
| PokerGame.Game.AdvanceToNextPhase | poker/game.py:811-872 | next street, showdown, or refusal |
| Deal.PhaseMoves | poker/game.py:811-917 | nothing while betting is open, else showdown or the next street: one card burned, three or one turned up off the top, bets cleared |
| Deal.BoardComesFromDeck | poker/game.py:874-917 | whatever happens in a hand, the board is flop, turn and river as they lay in the deck, one card burned before each |
| PokerGame.Game.MoveDealerButton | poker/game.py:252-271 | the button moves to the next player who is not busted |
| Deal.DealerMoves | poker/game.py:252-271 | the button goes to the next player with chips, or from a dealer without chips to the first seat that has any |
| PokerGame.Game.PostBlindBets | poker/game.py:273-328 | both blinds are posted, short stacks included; nothing happens with fewer than two players |
| Deal.BlindsFollowDealer | poker/game.py:279-293 | the blinds are the next two players with chips after the dealer, heads-up the dealer and the other |
| Deal.HandIsMarked | poker/game.py:266-312 | after the deal exactly the dealer, the small and the big blind carry the three marks |
| Deal.RunKeepsMarks | poker/game.py:484-962 | no request and no street moves a mark |
| PokerGame.Game.DealHoleCards | poker/game.py:330-335 | two rounds of one card each in seat order |
| Deal.HoleCardsDealt | poker/game.py:330-335 | which cards of the shuffled deck each player holds: the k-th of m players the k-th from the top and the one m later |
| PokerGame.Game.SetFirstActorPreflop | poker/game.py:337-363 | the dealer heads-up, else the third seat after the dealer |
| Rounds.StartHandOrder | poker/game.py:337-363 | the first to act is the nearest player after the big blind |
| PokerGame.Game.StartNewHand | poker/game.py:193-250 | the whole opening of a hand is `StartHand`, including the case of too few players |
| PokerGame.Game.ConductShowdown | poker/game.py:964-1272 | who wins, the listed winnings and the new stacks, for none, one or more live players |
| Bookkeeping.StepKeepsLedger | poker/game.py:484-615 | any request of any amount keeps chips plus pot, pot as the sum of all bets, and every seat sound (no negative chips, no chips exactly if all-in or busted, bet within total) |
| Bookkeeping.AdvancePhaseKeepsLedger | poker/game.py:811-962 | so does every change of street |
| Bookkeeping.StartHandLedger | poker/game.py:193-328 | a hand opens with them, the stake being all chips at the table |
| Bookkeeping.StepKeepsTopBet | poker/game.py:528-578 | an accepted action keeps the bet to match the largest bet of all seats, exactly unless it is a negative raise of a player who still owes chips |
| Bookkeeping.NewRoundTopBet | poker/game.py:919-929 | a new street starts with it |
| Bookkeeping.OpeningTopBet | poker/game.py:311-316 | a hand opens with it exactly if the small blind posted no more than the big blind |
| Closing.RoundClosesUnlessStandoff | poker/cli_ui.py:595-618 | the betting loop ends for all players deciding arbitrarily (raises not negative) exactly if there is no standoff |
| Closing.DriverMakesProgress | poker/game.py:651-763 | each turn lowers (open, idle turn, chips plus active seats, overbets, seats to the closing one) lexicographically |
| Closing.NewRoundHasNoStandoff | poker/game.py:919-962 | no street after the first opens in a standoff |
| Closing.OpeningStandoff | poker/game.py:311-316 | a hand opens in one exactly if the big blind has fewer chips than the small blind amount, the small blind has more, and a third player has more chips than the big blind |
| Fairness.StepIsFair | poker/game.py:484-809 | from a round in order an accepted action of any amount with two players left able to act keeps the order or closes the round with everybody served, exactly unless the opener folds, a raise leaves the bet as it is while another player waits, or a negative raise lowers it to what another player has bet or below |
| Rounds.NewRoundIsFair | poker/game.py:919-962 | every street after the first opens in order |
| OpeningRound.FirstRoundCanSkip | poker/game.py:273-363 | in the first round of a hand positive raises can skip somebody exactly if the big blind has at most the small blind amount and both the small blind and a third player have more |
| OpeningRound.OtherwiseNobodyIsSkipped | poker/game.py:617-809 | otherwise every run of the first round, of any length, serves everybody |
| Rounds.NobodyIsSkipped | poker/game.py:617-809 | over any run without a raise that passes somebody over: a round closes with everybody left having matched the bet and acted since the last raise, exactly unless the opener of an unbet round folds |
| Rounds.PositiveRaisesAreCareful | poker/game.py:544-559 | no run of positive raises holds a raise that passes somebody over |
| Rounds.OpenerFoldEndsTheStreet | poker/game.py:718-732 | with three or more players the opener's fold always ends the street with somebody skipped |
| Rounds.OpenerZeroRaiseEndsTheStreet | poker/game.py:544-559 | on every street after the flop the opener's raise by zero is accepted and closes the round with nobody else having acted |
| OpeningRound.NegativeRaiseSkips | poker/game.py:544-559 | in every hand of three players whose big blind is all-in for more than the small blind, the third player can lower the bet to the small blind, which closes the round before the small blind has acted |
| Closing.RaiseIntoStandoff | poker/game.py:544-559 | a raise of any amount by a player keeping chips leaves a standoff exactly if another ACTIVE seat has bet more than the new bet to match |
| Rounds.NegativeRaiseNeverEnds | poker/cli_ui.py:595-618 | every street after the flop whose opener has two chips can be kept open for ever by a bet, a raise by -1 and calls |
| OpeningRound.ShortBlindSkips | poker/game.py:734-747 | every hand with such a short big blind has a run that skips the small blind: a third player joins it, the others fold |
| Offers.OffersAreHonoured | poker/game.py:418-482 | every offer is accepted when taken, and an offered minimum raise makes exactly that the bet to match, unless the player has already bet more |
| Offers.OffersAreComplete | poker/game.py:418-482 | seat by seat: fold plus one way to stay in is always offered; check and call exactly when accepted; all-in exactly unless a bet is matched and there is no big blind option; a raise exactly with them, to one big blind over the bet, if the stack has it |
| Deal.BigBlindHasTheOption | poker/game.py:448-465 | before any raise a matched big blind may be raised by the player who posted it and nobody else, in any run of any hand |
| Rotation.EachRoleOnce | poker/game.py:252-293 | in a game, each hand dealt on the table the one before has left and played in any way, any m consecutive hands of the same m players give each of them the button, the small and the big blind exactly once, heads-up included |
| Rotation.RolesRotate | poker/game.py:193-293 | the roles of the j-th hand of such a game are those j + 1 steps round the table |
| Rotation.HandFollowsRotation | poker/game.py:193-293 | `start_new_hand` gives these roles by that rotation |
| CardsInPlay.NoCardTwice | poker/game_models.py:93-109 | deck, board and hands never hold a card twice |
| CardsInPlay.DeckNeverRunsOut | poker/game.py:874-917 | with ten players or fewer 24 cards are left for the streets |
| CardsInPlay.StartHandCards | poker/game.py:330-335 | a hand opens with all 52 cards split between deck and players, two each |
| CardsInPlay.StepKeepsCards | poker/game.py:484-615 | no request moves a card |
| CardsInPlay.AdvancePhaseKeepsCards | poker/game.py:811-917 | a street never meets an empty deck, loses exactly the burned card, and the board fits the street |
| Settlement.RunKeepsLedger | poker/game.py:484-962 | any sequence of requests and changes of street conserves the chips |
| Settlement.AnyRunKeepsTheBooks | poker/game.py:193-962 | from the start of any hand, after any such sequence, all chips are there, no card is twice in play, and the board fits the street (five cards at a contested showdown) |
| Settlement.RunKeepsTopBet | poker/game.py:528-578 | over any such sequence without negative raises the bet to match stays the largest bet |
| Settlement.ShowdownPaysThePot | poker/game.py:1066-1244 | the chips at a contested showdown end up in the stacks, what stays in the pot is the folded excess, and nothing stays exactly if there is none |
| Settlement.ShowdownRespectsStakes | poker/game.py:1139-1171 | gain per player: table stakes as upper bound, own bets as lower bound for an unbeaten hand, nothing for who folded |
| ShowdownByCards.ShownHand | poker/game.py:1027-1033 | the hand of a live player is made by some five of hole cards and board and beaten by no five of them |
| ShowdownByCards.StrongerMeansOutplays | poker/game.py:1112-1137 | one shown hand beats another exactly if some five cards of the first player beat any five of the second |
| ShowdownByCards.WinnersByCards | poker/game.py:1206-1208 | the winners announced are exactly the live players whose cards nobody outplays |
| ShowdownByCards.GainBounds | poker/game.py:1139-1171 | nothing for who folded, table stakes as upper bound, and at most the chips above the contribution of a player with better cards |
| ShowdownByCards.BestGains | poker/game.py:1139-1171 | the best cards above the depth b to which they are outplayed gain exactly the chips from b up to the own contribution |
| ShowdownByCards.EqualsGainAlike | poker/game.py:1160-1171 | equal cards and equal contributions gain the same up to the odd chips |
| ShowdownByCards.UnbeatenLosesNothing | poker/game.py:1160-1171 | cards nobody outplays win back at least the own contribution |
| ShowdownByCards.ContestedIsDealt | poker/game.py:835-863 | at a contested showdown every live player sees seven cards |
| Settlement.SurvivorTakesThePot | poker/game.py:999-1025 | a lone survivor's stack makes the chips of the table complete |
| Settlement.SurvivorMayExceedTableStakes | poker/game.py:999-1025 | it exceeds table stakes exactly if somebody who folded had put in more |
| Driver.PlayTurn | poker/cli_ui.py:595-618 | one pass of the inner loop: skip, decide, or fold in place of a refused decision |
| Driver.PlayBettingRound | poker/cli_ui.py:595-618 | the inner loop ends with the round complete and has played exactly the decisions it asked for |
| Driver.PlayHand | poker/cli_ui.py:589-633 | the outer loop reaches the showdown after at most four betting rounds, each complete and begun where the one before ended, chips and cards in order |
| Driver.HandSkipsNobody | poker/cli_ui.py:589-633 | in every round of a whole hand of positive raises, big blind not too short, everybody is served, exactly unless the opener of a later street folds before a bet and leaves two players able to act; a lone player able to act owes nothing |
| Driver.FirstRoundAlwaysCloses | poker/cli_ui.py:595-618 | the first round of a hand closes for all players exactly if the opening is no standoff |
| Driver.RunHand | poker/cli_ui.py:567-639 | a whole hand ends, with a winner, with five board cards if contested, with all chips accounted for, and its rounds follow each other from the deal |

## Left out

- Rounds.NobodyIsSkipped: the runs hold no raise that passes somebody over, because from such a step on the round is out of order; `Fairness.StepIsFair` is the exact condition for each step.
- OpeningRound.FirstRoundCanSkip: the raises are positive; what others do is in `Fairness.StepIsFair`. Likewise `Driver.HandSkipsNobody`.
- Closing.RoundClosesUnlessStandoff: the players' raises are not negative, without which a street can be kept open for ever (`Rounds.NegativeRaiseNeverEnds`); likewise `Closing.DriverMakesProgress`, `Driver.PlayHand` and `Driver.RunHand`.
- Settlement.RunKeepsTopBet: negative raises are left out; `Bookkeeping.StepKeepsTopBet` says exactly which of them spoil the bet to match.
- Driver.PlayBettingRound: requires that there is no standoff, without which the loop of the source need not end; likewise `Driver.PlayHand` and `Driver.RunHand`.
- PokerGame.Game.AddPlayer: requires the id that comes next, as every setup function of the source gives it.
- PokerGame.Game.AdvanceToNextPhase: when a street is dealt it requires enough cards, where the source would raise an error from an empty deck; `CardsInPlay.AdvancePhaseKeepsCards` shows that this never happens in a hand.
- PokerGame.Game.PostBlindBets: with two players or more it requires that the dealer is one of them, where the source would raise an error; `start_new_hand` moves the button there first.
- PokerGame.Game.StartNewHand: requires seats for the dealer and the player to act, so a game without any player is not started.
- PokerGame.Game.GetAvailableActions: the second reason for offering all-in, a call that cannot be afforded, implies the first and is not repeated.
- PotLayers.BuildPotLayers: the test for a layer of width zero, which rising levels never meet, is left out.
- BestHands.EvaluateHand: only rank and kickers of a result are kept, not the chosen cards or the description; no cards at all give `None` for the source's index error.
- BestHands.TeamEvaluateHand: card strings are parsed before the model starts; cards that cannot be parsed are not part of it.
- PokerGame.Game.FirstActiveAfter: the three loops of the source that scan the seats in a circle are one method.
- Shuffling: the order of the deck is a parameter, any permutation of the 52 cards.
- Decisions: language-model, API, random and human players are decisions chosen arbitrarily; prompts, parsing and time-outs are not modelled.
- History: the SQLite tables, the log, `action_history`, `last_showdown_results`, `hand_number` and `game_stats` are not modelled.
- Setup: only `add_player` is modelled, not the functions that build default and configured tables.
- Views: `get_llm_game_state`, the `to_dict` functions, the windows, the HTTP server and the agent manager are not modelled.
- Heuristics: the floating-point strength scores, draw analysers, preflop classes and bet-size buckets have no specification to prove.
- Whole games: a game need not end, because pots can be split evenly for ever; only rounds and hands are shown to end.
