/** The best five of n cards: `evaluate_hand` in poker/evaluator.py, in the tutorial tool and in the team1 tool. */
module BestHands {
  import opened Prelude
  import opened Cards
  import opened HandOrder
  import opened RankCounting
  import opened FiveCards
  import opened FiveCardAgreement
  import opened TeamOrder
  import opened Combinations

  /** The two evaluators that share one loop. */
  datatype Evaluator = Program | Tutorial

  function Five(e: Evaluator, cards: seq<Card>): (h: HandResult)
    requires |cards| == 5
    ensures Evaluated(h)
  {
    match e case Program => EvaluateFive(cards) case Tutorial => TutorialFive(cards)
  }

  predicate FiveEach(hands: seq<seq<Card>>) {
    forall i :: 0 <= i < |hands| ==> |hands[i]| == 5
  }

  /** The last of the strongest results. */
  function Strongest(e: Evaluator, hands: seq<seq<Card>>): (h: HandResult)
    requires hands != [] && FiveEach(hands)
    ensures Evaluated(h)
  {
    var last := Five(e, hands[|hands| - 1]);
    if |hands| == 1 then last
    else
      var best := Strongest(e, hands[..|hands| - 1]);
      if HandLess(last, best) then best else last
  }

  /** `evaluate_hand` on all cards a player sees; `None` is the index error no cards at all raise. */
  function BestHand(e: Evaluator, cards: seq<Card>): Option<HandResult> {
    if cards == [] then None
    else if |cards| < 5 then Some(HandResult(HighCard, SortedRanks(cards)))
    else
      EnoughToChoose(cards, 5);
      Some(Strongest(e, Choose(cards, 5)))
  }

  lemma ReplacedUnlessWeaker(h: HandResult, best: HandResult)
    ensures h.rank.Value() > best.rank.Value() || (h.rank == best.rank && !HandLess(h, best)) <==> !HandLess(h, best)
  {
    ValueIsInjective(h.rank, best.rank);
  }

  method EvaluateHand(e: Evaluator, hole: seq<Card>, community: seq<Card>) returns (r: Option<HandResult>)
    ensures r == BestHand(e, hole + community)
  {
    hide Five, SortedRanks, HandLess, Choose;
    var all := hole + community;
    if all == [] {
      return None;
    }
    if |all| < 5 {
      return Some(HandResult(HighCard, SortedRanks(all)));
    }
    EnoughToChoose(all, 5);
    var hands := Choose(all, 5);
    var best: Option<HandResult> := None;
    for i := 0 to |hands|
      invariant i == 0 ==> best == None
      invariant i > 0 ==> best == Some(Strongest(e, hands[..i]))
    {
      var h := Five(e, hands[i]);
      assert hands[..i + 1][..i] == hands[..i];
      if best.Some? { ReplacedUnlessWeaker(h, best.value); }
      if best == None || h.rank.Value() > best.value.rank.Value()
         || (h.rank == best.value.rank && !HandLess(h, best.value)) {
        best := Some(h);
      }
    }
    assert hands[..|hands|] == hands;
    r := best;
  }

  // ---------------------------------------------------------------- the maximum over all five-card hands

  lemma {:induction false} StrongestIsMaximum(e: Evaluator, hands: seq<seq<Card>>)
    requires hands != [] && FiveEach(hands)
    ensures exists i :: 0 <= i < |hands| && Five(e, hands[i]) == Strongest(e, hands)
    ensures forall i :: 0 <= i < |hands| ==> !Beats(Five(e, hands[i]), Strongest(e, hands))
  {
    hide Five, HandLess;
    var n := |hands| - 1;
    var last := Five(e, hands[n]);
    BeatsIsTotal(last, last);
    if n > 0 {
      var p := hands[..n];
      StrongestIsMaximum(e, p);
      var best := Strongest(e, p);
      var w :| 0 <= w < |p| && Five(e, p[w]) == best;
      assert hands[w] == p[w];
      ComparisonsAgree(last, best);
      BeatsIsTotal(last, best);
      forall i | 0 <= i < n ensures !Beats(Five(e, hands[i]), Strongest(e, hands)) {
        assert hands[i] == p[i];
        if !HandLess(last, best) { BeatsIsTransitive(Five(e, p[i]), best, last); }
      }
    }
  }

  /** A five-card hand that can be made from the cards. */
  predicate MadeFrom(five: seq<Card>, cards: seq<Card>) {
    |five| == 5 && multiset(five) <= multiset(cards)
  }

  lemma FiveIgnoresOrder(e: Evaluator, a: seq<Card>, b: seq<Card>)
    requires |a| == |b| == 5 && multiset(a) == multiset(b)
    ensures Five(e, a) == Five(e, b)
  {
    RanksOfPermutation(a, b);
    DescendingIsUnique(SortedRanks(a), SortedRanks(b));
    assert Suits(a) == Suits(b) by {
      assert forall c :: c in a <==> c in multiset(a);
      assert forall c :: c in b <==> c in multiset(b);
    }
  }

  /** The result is the strongest of all five-card hands that can be made, and it is the value of one of them. */
  lemma BestIsMaximum(e: Evaluator, cards: seq<Card>)
    requires |cards| >= 5
    ensures BestHand(e, cards).Some? && Evaluated(BestHand(e, cards).value)
    ensures forall five | MadeFrom(five, cards) :: !Beats(Five(e, five), BestHand(e, cards).value)
    ensures exists five :: MadeFrom(five, cards) && Five(e, five) == BestHand(e, cards).value
  {
    hide Five, Choose, Beats, Strongest;
    EnoughToChoose(cards, 5);
    var hands := Choose(cards, 5);
    StrongestIsMaximum(e, hands);
    var w :| 0 <= w < |hands| && Five(e, hands[w]) == Strongest(e, hands);
    ChoicesAreContained(cards, 5, w);
    assert MadeFrom(hands[w], cards);
    forall five | MadeFrom(five, cards) ensures !Beats(Five(e, five), Strongest(e, hands)) {
      var i := EveryChoiceOccurs(cards, 5, multiset(five));
      FiveIgnoresOrder(e, five, hands[i]);
    }
  }

  /** There is only one result with that property. */
  lemma BestIsUnique(e: Evaluator, cards: seq<Card>, h: HandResult)
    requires |cards| >= 5
    requires forall five | MadeFrom(five, cards) :: !Beats(Five(e, five), h)
    requires exists five :: MadeFrom(five, cards) && Five(e, five) == h
    ensures BestHand(e, cards) == Some(h)
  {
    hide Five, Beats, BestHand;
    BestIsMaximum(e, cards);
    BeatsIsTotal(h, BestHand(e, cards).value);
  }

  /** Neither the order of the cards nor the split into hole cards and board matters. */
  lemma BestIgnoresOrder(e: Evaluator, a: seq<Card>, b: seq<Card>)
    requires multiset(a) == multiset(b)
    ensures BestHand(e, a) == BestHand(e, b)
  {
    assert |multiset(a)| == |multiset(b)|;
    if |a| < 5 {
      RanksOfPermutation(a, b);
      DescendingIsUnique(SortedRanks(a), SortedRanks(b));
    } else {
      BestIsMaximum(e, b);
      var h := BestHand(e, b).value;
      var five :| MadeFrom(five, b) && Five(e, five) == h;
      assert MadeFrom(five, a);
      BestIsUnique(e, a, h);
    }
  }

  /** A further card never makes the result weaker. */
  lemma MoreCardsNeverHurt(e: Evaluator, cards: seq<Card>, more: seq<Card>)
    requires |cards| >= 5
    ensures BestHand(e, cards).Some? && BestHand(e, cards + more).Some?
    ensures !Beats(BestHand(e, cards).value, BestHand(e, cards + more).value)
  {
    hide Five, Beats, BestHand;
    BestIsMaximum(e, cards);
    BestIsMaximum(e, cards + more);
    var five :| MadeFrom(five, cards) && Five(e, five) == BestHand(e, cards).value;
    assert MadeFrom(five, cards + more);
  }

  // ---------------------------------------------------------------- poker/evaluator.py against the tutorial copy

  ghost predicate CanMakeWheelFlush(cards: seq<Card>) {
    exists five :: MadeFrom(five, cards) && SuitedWheel(five)
  }

  ghost predicate CanMakeBroadwayFlush(cards: seq<Card>) {
    exists five :: MadeFrom(five, cards) && SuitedBroadway(five)
  }

  const TOP := HandResult(RoyalFlush, [14])

  lemma RoyalIsTop(e: Evaluator, five: seq<Card>)
    requires |five| == 5
    ensures !Beats(Five(e, five), TOP)
    ensures Five(e, five).rank == RoyalFlush ==> Five(e, five) == TOP
  {
    hide EvaluateFive, TutorialFive, SuitedWheel, SuitedBroadway;
    ProgramRoyal(five);
    TutorialRoyal(five);
    BeatsIsTotal(TOP, TOP);
  }

  lemma TopIsBest(e: Evaluator, cards: seq<Card>, five: seq<Card>)
    requires |cards| >= 5 && MadeFrom(five, cards) && Five(e, five) == TOP
    ensures BestHand(e, cards) == Some(TOP)
  {
    hide Five, Beats, BestHand;
    forall other | MadeFrom(other, cards) ensures !Beats(Five(e, other), TOP) { RoyalIsTop(e, other); }
    BestIsUnique(e, cards, TOP);
  }

  /**
   * On any five or more cards the program's evaluator differs from the tutorial copy exactly if a suited
   * A-5-4-3-2 can be made and a suited A-K-Q-J-10 cannot; it then reports a royal flush.
   */
  lemma ProgramDiffersFromTutorial(cards: seq<Card>)
    requires |cards| >= 5
    ensures BestHand(Program, cards) != BestHand(Tutorial, cards)
       <==> CanMakeWheelFlush(cards) && !CanMakeBroadwayFlush(cards)
    ensures CanMakeWheelFlush(cards) ==> BestHand(Program, cards) == Some(TOP)
    ensures BestHand(Tutorial, cards) == Some(TOP) <==> CanMakeBroadwayFlush(cards)
  {
    hide Beats, BestHand, EvaluateFive, TutorialFive, SuitedWheel, SuitedBroadway;
    BestIsMaximum(Tutorial, cards);
    var t := BestHand(Tutorial, cards).value;
    var made :| MadeFrom(made, cards) && TutorialFive(made) == t;
    TutorialRoyal(made);
    if CanMakeBroadwayFlush(cards) {
      var five :| MadeFrom(five, cards) && SuitedBroadway(five);
      TutorialRoyal(five);
      ProgramRoyal(five);
      TopIsBest(Tutorial, cards, five);
      TopIsBest(Program, cards, five);
    }
    if CanMakeWheelFlush(cards) {
      var five :| MadeFrom(five, cards) && SuitedWheel(five);
      ProgramRoyal(five);
      TopIsBest(Program, cards, five);
    } else {
      forall five | MadeFrom(five, cards) ensures EvaluateFive(five) == TutorialFive(five) {
        ProgramAgainstTutorial(five);
      }
      assert Five(Program, made) == t;
      BestIsUnique(Program, cards, t);
    }
  }

  // ---------------------------------------------------------------- the team1 tool

  const NO_SCORE := TeamScore(-1, -1, -1, [-1, -1, -1, -1, -1])

  /** The first of the largest padded tuples. */
  function TeamStrongest(hands: seq<seq<Card>>): TeamScore
    requires FiveEach(hands)
  {
    if hands == [] then NO_SCORE
    else
      var best, score := TeamStrongest(hands[..|hands| - 1]), TeamFive(hands[|hands| - 1]);
      if TeamLess(best, score) then score else best
  }

  /** `evaluate_hand` of the team1 tool; `None` stands for its error replies. */
  method TeamEvaluateHand(hole: seq<Card>, community: seq<Card>) returns (r: Option<TeamScore>)
    ensures r.None? <==> |hole| != 2 || !(3 <= |community| <= 5)
    ensures r.Some? ==> r.value == TeamStrongest(Choose(hole + community, 5))
  {
    hide TeamFive, TeamLess, Choose;
    if |hole| != 2 || !(3 <= |community| <= 5) {
      return None;
    }
    var hands := Choose(hole + community, 5);
    var best, found := NO_SCORE, false;
    for i := 0 to |hands|
      invariant best == TeamStrongest(hands[..i])
      invariant i > 0 ==> found
    {
      var score := TeamFive(hands[i]);
      assert hands[..i + 1][..i] == hands[..i];
      AnyScoreBeatsNone(hands[i]);
      if TeamLess(best, score) {
        best, found := score, true;
      }
    }
    assert hands[..|hands|] == hands;
    EnoughToChoose(hole + community, 5);
    r := if found then Some(best) else None;
  }

  lemma AnyScoreBeatsNone(five: seq<Card>)
    requires |five| == 5
    ensures TeamLess(NO_SCORE, TeamFive(five))
  {
    hide TeamFive;
    HigherRankWins(NO_SCORE, TeamFive(five));
  }

  lemma {:induction false} TeamStrongestIsMaximum(hands: seq<seq<Card>>)
    requires hands != [] && FiveEach(hands)
    ensures exists i :: 0 <= i < |hands| && TeamFive(hands[i]) == TeamStrongest(hands)
    ensures forall i :: 0 <= i < |hands| ==> !TeamLess(TeamStrongest(hands), TeamFive(hands[i]))
  {
    hide TeamFive, Padded, LexLess;
    var n := |hands| - 1;
    var last, p := TeamFive(hands[n]), hands[..n];
    var best := TeamStrongest(p);
    LexIsTotal(Padded(best), Padded(last));
    LexIsTotal(Padded(last), Padded(last));
    if n == 0 {
      AnyScoreBeatsNone(hands[0]);
    } else {
      TeamStrongestIsMaximum(p);
      var w :| 0 <= w < |p| && TeamFive(p[w]) == best;
      assert hands[w] == p[w];
      forall i | 0 <= i < n ensures !TeamLess(TeamStrongest(hands), TeamFive(hands[i])) {
        assert hands[i] == p[i];
        if TeamLess(best, last) { LexIsTransitive(Padded(TeamFive(p[i])), Padded(best), Padded(last)); }
      }
    }
  }

  /** On any five or more cards the team1 tool's best tuple is the translation of the tutorial copy's best result. */
  lemma TeamBestIsTranslation(cards: seq<Card>)
    requires |cards| >= 5
    ensures BestHand(Tutorial, cards).Some? && Evaluated(BestHand(Tutorial, cards).value)
    ensures TeamStrongest(Choose(cards, 5)) == Translate(BestHand(Tutorial, cards).value)
  {
    hide Five, TutorialFive, TeamFive, Choose, Strongest, TeamStrongest, Translate, Beats, TeamLess;
    EnoughToChoose(cards, 5);
    var hands := Choose(cards, 5);
    StrongestIsMaximum(Tutorial, hands);
    TeamStrongestIsMaximum(hands);
    var i :| 0 <= i < |hands| && Five(Tutorial, hands[i]) == Strongest(Tutorial, hands);
    var j :| 0 <= j < |hands| && TeamFive(hands[j]) == TeamStrongest(hands);
    assert !Beats(Five(Tutorial, hands[j]), Five(Tutorial, hands[i]));
    assert !TeamLess(TeamFive(hands[j]), TeamFive(hands[i]));
    EquallyStrong(hands[i], hands[j]);
  }

  lemma EquallyStrong(a: seq<Card>, b: seq<Card>)
    requires |a| == |b| == 5
    requires !Beats(Five(Tutorial, b), Five(Tutorial, a)) && !TeamLess(TeamFive(b), TeamFive(a))
    ensures TeamFive(b) == Translate(Five(Tutorial, a))
  {
    hide TutorialFive, TeamFive, Translate, Beats, TeamLess;
    TeamDecidesAlike(b, a);
    BeatsIsTotal(TutorialFive(a), TutorialFive(b));
    TeamIsTranslation(b);
  }
}
