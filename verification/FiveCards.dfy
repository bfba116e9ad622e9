/** Classification of five cards, as poker/evaluator.py, the tutorial tool and the team1 tool each do it. */
module FiveCards {
  import opened Prelude
  import opened Cards
  import opened HandOrder
  import opened RankCounting

  /** The list is A-5-4-3-2. */
  predicate IsWheel(r: seq<int>) {
    |r| == 5 && r[0] == 14 && r[1] == 5 && r[2] == 4 && r[3] == 3 && r[4] == 2
  }

  function SortedRanks(cards: seq<Card>): (r: seq<int>)
    ensures Descending(r) && |r| == |cards|
  {
    SortDescending(Ranks(cards))
  }

  predicate IsFlush(cards: seq<Card>) {
    |Suits(cards)| == 1
  }

  predicate IsStraight(ranks: seq<int>) {
    var unique := SortDescending(Keys(ranks));
    |unique| == 5 && (unique[0] - unique[4] == 4 || IsWheel(unique))
  }

  // ---------------------------------------------------------------- poker/evaluator.py and the tutorial copy

  /** What the evaluators read off a counter of ranks: its values, and the ranks that occur n times. */
  datatype Counter = Counter(counts: seq<int>, quads: seq<int>, trips: seq<int>, pairs: seq<int>, singles: seq<int>)

  function CounterOf(ranks: seq<int>): (c: Counter)
    ensures Coherent(c)
  {
    OccurringPatterns(ranks);
    Counter(CountValues(ranks), Occurring(ranks, 4), Occurring(ranks, 3), Occurring(ranks, 2), Occurring(ranks, 1))
  }

  predicate HasGroups(c: Counter, q: nat, t: nat, p: nat, s: nat) {
    |c.quads| == q && |c.trips| == t && |c.pairs| == p && |c.singles| == s
  }

  /** The pattern of the counts fixes how many ranks occur four, three, two times and once. */
  predicate Coherent(c: Counter) {
    && (c.counts == [4, 1] ==> HasGroups(c, 1, 0, 0, 1))
    && (c.counts == [3, 2] ==> HasGroups(c, 0, 1, 1, 0))
    && (c.counts == [3, 1, 1] ==> HasGroups(c, 0, 1, 0, 2))
    && (c.counts == [2, 2, 1] ==> HasGroups(c, 0, 0, 2, 1))
    && (c.counts == [2, 1, 1, 1] ==> HasGroups(c, 0, 0, 1, 3))
  }

  lemma OccurringPatterns(ranks: seq<int>)
    ensures Coherent(Counter(CountValues(ranks), Occurring(ranks, 4), Occurring(ranks, 3),
                             Occurring(ranks, 2), Occurring(ranks, 1)))
  {
    OccurringLength(ranks, 4);
    OccurringLength(ranks, 3);
    OccurringLength(ranks, 2);
    OccurringLength(ranks, 1);
    assert multiset([4, 1]) == multiset{4, 1} && multiset([3, 2]) == multiset{3, 2};
    assert multiset([3, 1, 1]) == multiset{3, 1, 1} && multiset([2, 2, 1]) == multiset{2, 2, 1};
    assert multiset([2, 1, 1, 1]) == multiset{2, 1, 1, 1};
  }

  /** The chain of branches of the two files, which differ only in what they call a royal flush. */
  function Classify(ranks: seq<int>, c: Counter, isFlush: bool, isStraight: bool, isRoyal: bool): (h: HandResult)
    requires |ranks| == 5 && Coherent(c)
    ensures Evaluated(h)
  {
    var high := if IsWheel(ranks) then 5 else ranks[0];
    if isRoyal then HandResult(RoyalFlush, [14])
    else if isFlush && isStraight then HandResult(StraightFlush, [high])
    else if c.counts == [4, 1] then HandResult(FourOfAKind, [c.quads[0], c.singles[0]])
    else if c.counts == [3, 2] then HandResult(FullHouse, [c.trips[0], c.pairs[0]])
    else if isFlush then HandResult(Flush, ranks)
    else if isStraight then HandResult(Straight, [high])
    else if c.counts == [3, 1, 1] then HandResult(ThreeOfAKind, [c.trips[0]] + SortDescending(c.singles))
    else if c.counts == [2, 2, 1] then HandResult(TwoPair, SortDescending(c.pairs) + [c.singles[0]])
    else if c.counts == [2, 1, 1, 1] then HandResult(OnePair, [c.pairs[0]] + SortDescending(c.singles))
    else HandResult(HighCard, ranks)
  }

  lemma ClassifyRoyal(ranks: seq<int>, c: Counter, isFlush: bool, isStraight: bool, isRoyal: bool)
    requires |ranks| == 5 && Coherent(c)
    ensures Classify(ranks, c, isFlush, isStraight, isRoyal).rank == RoyalFlush <==> isRoyal
    ensures isRoyal ==> Classify(ranks, c, isFlush, isStraight, isRoyal) == HandResult(RoyalFlush, [14])
    ensures !isRoyal && isFlush && isStraight && IsWheel(ranks) ==>
              Classify(ranks, c, isFlush, isStraight, isRoyal) == HandResult(StraightFlush, [5])
  {
  }

  predicate ProgramCallsRoyal(ranks: seq<int>, isFlush: bool)
    requires |ranks| == 5
  {
    isFlush && IsStraight(ranks) && ranks[0] == 14
  }

  predicate TutorialCallsRoyal(ranks: seq<int>, isFlush: bool)
    requires |ranks| == 5
  {
    isFlush && IsStraight(ranks) && ranks[0] == 14 && (set r | r in ranks) == {10, 11, 12, 13, 14}
  }

  /** `HandEvaluator._evaluate_five_cards`. */
  function EvaluateFive(cards: seq<Card>): (h: HandResult)
    requires |cards| == 5
    ensures Evaluated(h)
  {
    var ranks := SortedRanks(cards);
    Classify(ranks, CounterOf(ranks), IsFlush(cards), IsStraight(ranks), ProgramCallsRoyal(ranks, IsFlush(cards)))
  }

  /** `SimpleHandEvaluator._eval_five` of the tutorial tool. */
  function TutorialFive(cards: seq<Card>): (h: HandResult)
    requires |cards| == 5
    ensures Evaluated(h)
  {
    var ranks := SortedRanks(cards);
    Classify(ranks, CounterOf(ranks), IsFlush(cards), IsStraight(ranks), TutorialCallsRoyal(ranks, IsFlush(cards)))
  }

  // ---------------------------------------------------------------- the team1 tool

  /** (hand_rank, primary_score, secondary_score, kicker_scores), ranks numbered 0 to 12. */
  datatype TeamScore = TeamScore(rank: int, primary: int, secondary: int, kickers: seq<int>)

  function Without(s: seq<int>, x: int): seq<int> {
    if s == [] then []
    else if s[0] == x then Without(s[1..], x)
    else [s[0]] + Without(s[1..], x)
  }

  predicate Consecutive(r: seq<int>)
    requires |r| == 5
  {
    forall i :: 0 <= i < 4 ==> r[i] - r[i + 1] == 1
  }

  /** The branches of `_get_hand_rank_and_kickers`, which start once the ranks are sorted and counted. */
  function TeamBranches(ranks: seq<int>, byCount: seq<int>, counts: seq<int>, isFlush: bool,
                        isStraight: bool): TeamScore
    requires |ranks| == 5 && FivePattern(counts) && |byCount| == |counts|
  {
    if isStraight && isFlush then TeamScore(8, ranks[0], 0, [])
    else if counts[0] == 4 then TeamScore(7, byCount[0], byCount[1], [])
    else if counts == [3, 2] then TeamScore(6, byCount[0], byCount[1], [])
    else if isFlush then TeamScore(5, 0, 0, ranks)
    else if isStraight then TeamScore(4, ranks[0], 0, [])
    else if counts[0] == 3 then TeamScore(3, byCount[0], 0, SortDescending(Without(byCount, byCount[0])))
    else if counts == [2, 2, 1] then
      TeamScore(2, Max(byCount[0], byCount[1]), Min(byCount[0], byCount[1]), [byCount[2]])
    else if counts[0] == 2 then TeamScore(1, byCount[0], 0, SortDescending(Without(byCount, byCount[0])))
    else TeamScore(0, 0, 0, ranks)
  }

  /** The list is A-5-4-3-2 in the numbering of the team1 tool. */
  predicate IsTeamWheel(r: seq<int>) {
    |r| == 5 && r[0] == 12 && r[1] == 3 && r[2] == 2 && r[3] == 1 && r[4] == 0
  }

  predicate TeamStraight(sorted: seq<int>)
    requires |sorted| == 5
  {
    Consecutive(sorted) || IsTeamWheel(sorted)
  }

  /** The wheel counts its ace low. */
  function TeamRanks(sorted: seq<int>): (r: seq<int>)
    requires |sorted| == 5
    ensures |r| == 5
  {
    if !Consecutive(sorted) && IsTeamWheel(sorted) then [3, 2, 1, 0, 12] else sorted
  }

  function TeamSorted(cards: seq<Card>): (r: seq<int>)
    ensures |r| == |cards|
  {
    SortDescending(Shift(Ranks(cards), -2))
  }

  /** `_get_hand_rank_and_kickers`. */
  function TeamFive(cards: seq<Card>): (score: TeamScore)
    requires |cards| == 5
    ensures score.rank >= 0
  {
    var ranks := TeamRanks(TeamSorted(cards));
    TeamCountsAreUsable(ranks);
    TeamBranches(ranks, KeysByCount(ranks), CountValues(ranks), IsFlush(cards), TeamStraight(TeamSorted(cards)))
  }

  lemma {:induction false} SortByCountLength(keys: seq<int>, s: seq<int>)
    ensures |SortByCount(keys, s)| == |keys|
  {
    if keys != [] {
      SortByCountLength(keys[1..], s);
      InsertByCountLength(keys[0], SortByCount(keys[1..], s), s);
    }
  }

  lemma {:induction false} InsertByCountLength(x: int, keys: seq<int>, s: seq<int>)
    ensures |InsertByCount(x, keys, s)| == |keys| + 1
  {
    if keys != [] { InsertByCountLength(x, keys[1..], s); }
  }

  lemma TeamCountsAreUsable(ranks: seq<int>)
    requires |ranks| == 5
    ensures FivePattern(CountValues(ranks)) && |KeysByCount(ranks)| == |CountValues(ranks)|
  {
    FiveCardPatterns(ranks);
    SortByCountLength(Keys(ranks), ranks);
  }
}
