/** The showdown told in cards: whose five cards win, and how much (poker/game.py:1027-1064, 1112-1171). */
module ShowdownByCards {
  import opened Prelude
  import opened Cards
  import opened HandOrder
  import opened FiveCards
  import opened BestHands
  import opened PotLayers
  import opened PotShares
  import opened Payout
  import opened SidePots
  import opened TableModel
  import opened Bookkeeping
  import opened Settlement

  /** The cards player `i` sees: the own ones and the board. */
  function Sees(t: Table, i: nat): seq<Card>
    requires i < |t.seats|
  {
    t.seats[i].hole + t.board
  }

  /** Everybody in the hand sees five cards or more. */
  predicate FullyDealt(t: Table) {
    forall i :: i in Remaining(t.seats) ==> |Sees(t, i)| >= 5
  }

  /** Some five of the cards player `i` sees beat any five that player `j` sees. */
  ghost predicate Outplays(t: Table, i: nat, j: nat) {
    && i in Remaining(t.seats) && j in Remaining(t.seats)
    && exists five :: MadeFrom(five, Sees(t, i))
         && forall other :: MadeFrom(other, Sees(t, j)) ==> Beats(EvaluateFive(five), EvaluateFive(other))
  }

  lemma DealtHasCards(t: Table)
    requires FullyDealt(t)
    ensures HasCards(t)
  {
    forall i | i in Remaining(t.seats) ensures t.seats[i].hole + t.board != [] {
      assert |Sees(t, i)| >= 5;
    }
  }

  /** A contested showdown finds everybody with seven cards. */
  lemma ContestedIsDealt(t: Table)
    requires Playable(t) && t.phase == Showdown && |Remaining(t.seats)| >= 2
    ensures FullyDealt(t)
  {
    forall i | i in Remaining(t.seats) ensures |Sees(t, i)| == 7 {
      assert |t.seats[i].hole| == 2;
    }
  }

  /** The hand a player shows is the best five of all seven cards: some five make it, and no five beat it. */
  lemma ShownHand(t: Table, i: nat)
    requires FullyDealt(t) && HasCards(t) && i in Remaining(t.seats)
    ensures exists five :: MadeFrom(five, Sees(t, i)) && EvaluateFive(five) == LiveHands(t)[i]
    ensures forall five :: MadeFrom(five, Sees(t, i)) ==> !Beats(EvaluateFive(five), LiveHands(t)[i])
  {
    hide Beats, EvaluateFive, BestHand;
    var cards := Sees(t, i);
    BestIsMaximum(Program, cards);
    assert LiveHands(t)[i] == BestHand(Program, cards).value;
    var five :| MadeFrom(five, cards) && Five(Program, five) == BestHand(Program, cards).value;
    assert EvaluateFive(five) == LiveHands(t)[i];
    forall other | MadeFrom(other, cards) ensures !Beats(EvaluateFive(other), LiveHands(t)[i]) {
      assert !Beats(Five(Program, other), BestHand(Program, cards).value);
    }
  }

  /** A stronger hand shown is five cards that beat any five of the other player. */
  lemma StrongerMeansOutplays(t: Table, i: nat, j: nat)
    requires FullyDealt(t) && HasCards(t) && i in Remaining(t.seats) && j in Remaining(t.seats)
    ensures Beats(LiveHands(t)[i], LiveHands(t)[j]) <==> Outplays(t, i, j)
  {
    hide Beats, EvaluateFive, LiveHands;
    ShownHand(t, i);
    ShownHand(t, j);
    var a, b := LiveHands(t)[i], LiveHands(t)[j];
    if Beats(a, b) {
      var five :| MadeFrom(five, Sees(t, i)) && EvaluateFive(five) == a;
      forall other | MadeFrom(other, Sees(t, j)) ensures Beats(EvaluateFive(five), EvaluateFive(other)) {
        if !Beats(a, EvaluateFive(other)) { BeatsIsTransitive(a, EvaluateFive(other), b); }
      }
    }
    if Outplays(t, i, j) {
      var five :| MadeFrom(five, Sees(t, i))
        && forall other :: MadeFrom(other, Sees(t, j)) ==> Beats(EvaluateFive(five), EvaluateFive(other));
      var other :| MadeFrom(other, Sees(t, j)) && EvaluateFive(other) == b;
      if !Beats(a, b) { BeatsIsTransitive(EvaluateFive(five), a, b); }
    }
  }

  /** Neither player has five cards that beat any five of the other. */
  ghost predicate Equals(t: Table, i: nat, j: nat) {
    !Outplays(t, i, j) && !Outplays(t, j, i)
  }

  lemma EqualMeansSameHand(t: Table, i: nat, j: nat)
    requires FullyDealt(t) && HasCards(t) && i in Remaining(t.seats) && j in Remaining(t.seats)
    ensures LiveHands(t)[i] == LiveHands(t)[j] <==> Equals(t, i, j)
  {
    hide Beats, LiveHands, Outplays;
    StrongerMeansOutplays(t, i, j);
    StrongerMeansOutplays(t, j, i);
    BeatsIsTotal(LiveHands(t)[i], LiveHands(t)[j]);
  }

  /** What the showdown adds to the stack of a seat. */
  function Gain(t: Table, i: nat): int
    requires HasCards(t) && i < |t.seats| == |Settle(t).seats|
  {
    Settle(t).seats[i].chips - t.seats[i].chips
  }

  /** The chips in the pot up to a depth of `cap` chips for each player. */
  function Depth(t: Table, cap: nat): nat {
    UpTo(Contributions(t.seats), cap)
  }

  lemma GainIsWon(t: Table, i: nat)
    requires HasCards(t) && |Remaining(t.seats)| >= 2 && i < |t.seats|
    ensures |Settle(t).seats| == |t.seats| && Gain(t, i) == Won(Contributions(t.seats), LiveHands(t), i)
  {
    hide Settle, Won, LiveHands, UpTo, MaxLive;
    SettledMoney(t, Contributions(t.seats), LiveHands(t));
  }

  /** `b` is the largest contribution of a player in the hand who outplays `p`, or 0 if nobody does. */
  ghost predicate OutplayedUpTo(t: Table, p: nat, b: nat) {
    && (forall q :: q in Remaining(t.seats) && Outplays(t, q, p) ==> t.seats[q].total <= b)
    && (b == 0 || exists q :: q in Remaining(t.seats) && Outplays(t, q, p) && t.seats[q].total == b)
  }

  /** `p` outplays every other player in the hand who put in more than `b`. */
  ghost predicate OutplaysAbove(t: Table, p: nat, b: nat) {
    forall q :: q in Remaining(t.seats) && q != p && t.seats[q].total > b ==> Outplays(t, p, q)
  }

  /** The winners announced are the players in the hand whom nobody outplays. */
  lemma WinnersByCards(t: Table, i: nat)
    requires FullyDealt(t) && HasCards(t)
    ensures i in Winners(SeatsIn(t.seats, {Active, AllIn}), LiveHands(t)) <==>
              i in Remaining(t.seats) && forall q :: q in Remaining(t.seats) ==> !Outplays(t, q, i)
  {
    hide Beats, LiveHands, Outplays, SeatsIn;
    var live, hands := SeatsIn(t.seats, {Active, AllIn}), LiveHands(t);
    if i in live {
      forall q | q in live ensures Beats(hands[q], hands[i]) <==> Outplays(t, q, i) { StrongerMeansOutplays(t, q, i); }
    }
  }

  /** Who wins nothing, and what a player can win at most. */
  lemma GainBounds(t: Table, stake: int, p: nat, q: nat)
    requires Ledger(t, stake) && FullyDealt(t) && HasCards(t) && |Remaining(t.seats)| >= 2
    requires p < |t.seats| && q in Remaining(t.seats)
    ensures |Settle(t).seats| == |t.seats| && t.seats[p].total >= 0 && t.seats[q].total >= 0
    ensures p !in Remaining(t.seats) ==> Gain(t, p) == 0
    ensures 0 <= Gain(t, p) <= Depth(t, t.seats[p].total)
    ensures Outplays(t, q, p) ==>
              Gain(t, p) <= Depth(t, t.seats[p].total) - Depth(t, Min(t.seats[p].total, t.seats[q].total))
  {
    hide Settle, Won, LiveHands, UpTo, Outplays, Beats;
    var contrib, hands := Contributions(t.seats), LiveHands(t);
    GainIsWon(t, p);
    LedgerMeans(t, stake);
    TableStakes(contrib, hands, p);
    assert hands.Keys == Remaining(t.seats);
    if Outplays(t, q, p) {
      assert p in Remaining(t.seats) by { OutplaysMeans(t, q, p); }
      StrongerMeansOutplays(t, q, p);
      BeatenWinsAbove(contrib, hands, p, q);
    }
  }

  lemma OutplaysMeans(t: Table, i: nat, j: nat)
    requires Outplays(t, i, j)
    ensures i in Remaining(t.seats) && j in Remaining(t.seats)
  {
  }

  /**
   * The best player among those who put in more than `b`, the depth to which that player is outplayed, gains exactly
   * the chips between `b` and the own contribution; the best of all gains everything the own contribution reaches.
   */
  lemma BestGains(t: Table, stake: int, p: nat, b: nat)
    requires Ledger(t, stake) && FullyDealt(t) && HasCards(t) && |Remaining(t.seats)| >= 2
    requires p in Remaining(t.seats) && OutplayedUpTo(t, p, b) && OutplaysAbove(t, p, b)
    ensures |Settle(t).seats| == |t.seats| && t.seats[p].total >= 0
    ensures Gain(t, p) == Depth(t, t.seats[p].total) - Depth(t, Min(t.seats[p].total, b))
  {
    hide Settle, Won, LiveHands, UpTo, Outplays, Beats;
    var contrib, hands := Contributions(t.seats), LiveHands(t);
    GainIsWon(t, p);
    LedgerMeans(t, stake);
    assert hands.Keys == Remaining(t.seats);
    forall q | q in hands
      ensures Beats(hands[q], hands[p]) <==> Outplays(t, q, p)
      ensures Beats(hands[p], hands[q]) <==> Outplays(t, p, q)
      ensures q < |contrib| && contrib[q] == t.seats[q].total
    {
      StrongerMeansOutplays(t, q, p);
      StrongerMeansOutplays(t, p, q);
    }
    assert BeatenUpTo(contrib, hands, p, b);
    assert BestAbove(contrib, hands, p, b);
    BestAboveWins(contrib, hands, p, b);
  }

  /** Players who neither outplay each other nor put in different amounts gain the same, but for the odd chips. */
  lemma EqualsGainAlike(t: Table, stake: int, p: nat, q: nat)
    requires Ledger(t, stake) && FullyDealt(t) && HasCards(t) && |Remaining(t.seats)| >= 2
    requires p in Remaining(t.seats) && q in Remaining(t.seats) && p < q
    requires Equals(t, p, q) && t.seats[p].total == t.seats[q].total
    ensures |Settle(t).seats| == |t.seats| && t.seats[p].total >= 0
    ensures Gain(t, q) <= Gain(t, p) <= Gain(t, q) + |Within(Contributions(t.seats), t.seats[p].total)|
  {
    hide Settle, Won, LiveHands, Equals, Beats, Within;
    var contrib, hands := Contributions(t.seats), LiveHands(t);
    GainIsWon(t, p);
    GainIsWon(t, q);
    LedgerMeans(t, stake);
    assert hands.Keys == Remaining(t.seats);
    EqualMeansSameHand(t, p, q);
    TiedWinAlike(contrib, hands, p, q);
  }

  /** Whoever nobody outplays gets back at least the own contribution. */
  lemma UnbeatenLosesNothing(t: Table, stake: int, p: nat)
    requires Ledger(t, stake) && FullyDealt(t) && HasCards(t) && |Remaining(t.seats)| >= 2
    requires p in Remaining(t.seats) && forall q :: q in Remaining(t.seats) ==> !Outplays(t, q, p)
    ensures |Settle(t).seats| == |t.seats| && Gain(t, p) >= t.seats[p].total
  {
    hide Settle, Won, LiveHands, Outplays, Beats;
    var contrib, hands := Contributions(t.seats), LiveHands(t);
    GainIsWon(t, p);
    LedgerMeans(t, stake);
    assert hands.Keys == Remaining(t.seats);
    forall q | q in hands ensures !Beats(hands[q], hands[p]) { StrongerMeansOutplays(t, q, p); }
    NoLossForBestOrDeepest(contrib, hands, p);
  }
}
