/** The three five-card classifiers compared with each other. */
module FiveCardAgreement {
  import opened Cards
  import opened HandOrder
  import opened RankCounting
  import opened FiveCards

  // ---------------------------------------------------------------- straights

  lemma {:induction false} AllKeys(s: seq<int>)
    ensures |Keys(s)| <= |s|
    ensures |Keys(s)| == |s| ==> Keys(s) == s
  {
    if s != [] {
      AllKeys(s[..|s| - 1]);
      assert s == s[..|s| - 1] + [s[|s| - 1]];
    }
  }

  lemma {:induction false} DistinctKeys(s: seq<int>)
    requires forall i, j :: 0 <= i < j < |s| ==> s[i] != s[j]
    ensures Keys(s) == s
  {
    if s != [] {
      DistinctKeys(s[..|s| - 1]);
      assert s == s[..|s| - 1] + [s[|s| - 1]];
    }
  }

  lemma ConsecutiveRanks(r: seq<int>)
    requires |r| == 5
    ensures Consecutive(r) <==> r == [r[0], r[0] - 1, r[0] - 2, r[0] - 3, r[0] - 4]
  {
    if Consecutive(r) {
      assert r[0] - r[0 + 1] == 1 && r[1] - r[1 + 1] == 1 && r[2] - r[2 + 1] == 1 && r[3] - r[3 + 1] == 1;
    }
  }

  /** Five falling ranks are a straight exactly if they are consecutive or A-5-4-3-2. */
  lemma StraightMeaning(ranks: seq<int>)
    requires |ranks| == 5 && Descending(ranks)
    ensures IsStraight(ranks) <==> Consecutive(ranks) || IsWheel(ranks)
  {
    AllKeys(ranks);
    if Keys(ranks) == ranks {
      KeysFall(ranks);
      DescendingIsUnique(SortDescending(ranks), ranks);
    } else {
      if Consecutive(ranks) {
        ConsecutiveRanks(ranks);
        DistinctKeys(ranks);
      } else if IsWheel(ranks) {
        DistinctKeys(ranks);
      }
    }
  }

  // ---------------------------------------------------------------- poker/evaluator.py against the tutorial copy

  predicate SuitedWheel(cards: seq<Card>) {
    IsFlush(cards) && IsWheel(SortedRanks(cards))
  }

  predicate SuitedBroadway(cards: seq<Card>) {
    IsFlush(cards) && IsBroadway(SortedRanks(cards))
  }

  lemma RanksInRange(cards: seq<Card>)
    ensures forall i :: 0 <= i < |cards| ==> 2 <= SortedRanks(cards)[i] <= 14
  {
    forall i | 0 <= i < |cards| ensures 2 <= SortedRanks(cards)[i] <= 14 {
      assert SortedRanks(cards)[i] in multiset(Ranks(cards));
    }
  }

  /** The list is A-K-Q-J-10. */
  predicate IsBroadway(r: seq<int>) {
    |r| == 5 && r[0] == 14 && r[1] == 13 && r[2] == 12 && r[3] == 11 && r[4] == 10
  }

  lemma RoyalTests(ranks: seq<int>, isFlush: bool)
    requires |ranks| == 5 && Descending(ranks)
    ensures TutorialCallsRoyal(ranks, isFlush) <==> isFlush && IsBroadway(ranks)
    ensures ProgramCallsRoyal(ranks, isFlush) <==> isFlush && (IsBroadway(ranks) || IsWheel(ranks))
  {
    StraightMeaning(ranks);
    ConsecutiveRanks(ranks);
    if IsBroadway(ranks) {
      assert (set x | x in ranks) == {10, 11, 12, 13, 14};
    } else if IsWheel(ranks) {
      assert ranks[1] in (set x | x in ranks);
    }
  }

  /** The tutorial copy calls exactly the suited A-K-Q-J-10 a royal flush. */
  lemma TutorialRoyal(cards: seq<Card>)
    requires |cards| == 5
    ensures TutorialFive(cards).rank == RoyalFlush <==> SuitedBroadway(cards)
    ensures SuitedBroadway(cards) ==> TutorialFive(cards) == HandResult(RoyalFlush, [14])
  {
    var r := SortedRanks(cards);
    RoyalTests(r, IsFlush(cards));
    ClassifyRoyal(r, CounterOf(r), IsFlush(cards), IsStraight(r), TutorialCallsRoyal(r, IsFlush(cards)));
  }

  /** `poker/evaluator.py` calls the suited A-5-4-3-2 a royal flush as well, and nothing else. */
  lemma ProgramRoyal(cards: seq<Card>)
    requires |cards| == 5
    ensures EvaluateFive(cards).rank == RoyalFlush <==> SuitedBroadway(cards) || SuitedWheel(cards)
    ensures EvaluateFive(cards).rank == RoyalFlush ==> EvaluateFive(cards) == HandResult(RoyalFlush, [14])
  {
    var r := SortedRanks(cards);
    RoyalTests(r, IsFlush(cards));
    ClassifyRoyal(r, CounterOf(r), IsFlush(cards), IsStraight(r), ProgramCallsRoyal(r, IsFlush(cards)));
  }

  /** The two classifiers agree on every five cards but one family, on which both results are known. */
  lemma ProgramAgainstTutorial(cards: seq<Card>)
    requires |cards| == 5
    ensures EvaluateFive(cards) == TutorialFive(cards) <==> !SuitedWheel(cards)
    ensures SuitedWheel(cards) ==> EvaluateFive(cards) == HandResult(RoyalFlush, [14])
    ensures SuitedWheel(cards) ==> TutorialFive(cards) == HandResult(StraightFlush, [5])
  {
    var r := SortedRanks(cards);
    StraightMeaning(r);
    RoyalTests(r, IsFlush(cards));
    ClassifyRoyal(r, CounterOf(r), IsFlush(cards), IsStraight(r), ProgramCallsRoyal(r, IsFlush(cards)));
    ClassifyRoyal(r, CounterOf(r), IsFlush(cards), IsStraight(r), TutorialCallsRoyal(r, IsFlush(cards)));
  }

  // ---------------------------------------------------------------- the team1 tool against the tutorial copy

  /** The team1 tuple that stands for a result of the tutorial copy. */
  function Translate(h: HandResult): TeamScore
    requires Evaluated(h)
  {
    var k := Shift(h.kickers, -2);
    match h.rank
    case RoyalFlush => TeamScore(8, k[0], 0, [])
    case StraightFlush => TeamScore(8, k[0], 0, [])
    case FourOfAKind => TeamScore(7, k[0], k[1], [])
    case FullHouse => TeamScore(6, k[0], k[1], [])
    case Flush => TeamScore(5, 0, 0, k)
    case Straight => TeamScore(4, k[0], 0, [])
    case ThreeOfAKind => TeamScore(3, k[0], 0, k[1..])
    case TwoPair => TeamScore(2, k[0], k[1], k[2..])
    case OnePair => TeamScore(1, k[0], 0, k[1..])
    case HighCard => TeamScore(0, 0, 0, k)
  }

  lemma {:induction false} ShiftMultiset(s: seq<int>, d: int, x: int)
    ensures multiset(Shift(s, d))[x + d] == multiset(s)[x]
  {
    if s != [] {
      var p, l := s[..|s| - 1], s[|s| - 1];
      ShiftMultiset(p, d, x);
      assert s == p + [l];
      assert Shift(s, d) == Shift(p, d) + [l + d];
    }
  }

  lemma ShiftSame(s: seq<int>, t: seq<int>, d: int)
    requires multiset(s) == multiset(t)
    ensures multiset(Shift(s, d)) == multiset(Shift(t, d))
  {
    forall y ensures multiset(Shift(s, d))[y] == multiset(Shift(t, d))[y] {
      ShiftMultiset(s, d, y - d);
      ShiftMultiset(t, d, y - d);
    }
  }

  lemma ShiftSort(s: seq<int>, d: int)
    ensures SortDescending(Shift(s, d)) == Shift(SortDescending(s), d)
  {
    var sorted := SortDescending(s);
    ShiftSame(s, sorted, d);
    SortIs(Shift(s, d), Shift(sorted, d));
  }

  lemma {:induction false} WithoutAbsent(s: seq<int>, x: int)
    requires x !in s
    ensures Without(s, x) == s
  {
    if s != [] {
      assert s[0] in s;
      WithoutAbsent(s[1..], x);
    }
  }

  lemma WithoutFirst(x: int, s: seq<int>)
    requires x !in s
    ensures Without([x] + s, x) == s
  {
    assert ([x] + s)[1..] == s;
    WithoutAbsent(s, x);
  }

  lemma {:induction false} AmongFalls(keys: seq<int>, s: seq<int>, n: nat)
    requires forall i, j :: 0 <= i < j < |keys| ==> keys[i] > keys[j]
    ensures Descending(OccurringAmong(keys, s, n))
  {
    if keys != [] {
      AmongFalls(keys[1..], s, n);
      OccurringCount(keys[1..], s, n);
      var rest := OccurringAmong(keys[1..], s, n);
      forall i | 0 <= i < |rest| ensures rest[i] < keys[0] { assert rest[i] in rest; }
    }
  }

  lemma DistinctCounts(r: seq<int>)
    requires |r| == 5 && forall i, j :: 0 <= i < j < |r| ==> r[i] != r[j]
    ensures CountValues(r) == [1, 1, 1, 1, 1]
  {
    DistinctKeys(r);
    assert |CountValues(r)| == 5;
    FiveCardPatterns(r);
  }

  /** The groups of a counter read off falling ranks. */
  predicate Proper(c: Counter) {
    && Coherent(c) && FivePattern(c.counts)
    && Descending(c.pairs) && Descending(c.singles)
    && (forall i :: 0 <= i < |c.trips| ==> c.trips[i] !in c.singles)
    && (forall i :: 0 <= i < |c.pairs| ==> c.pairs[i] !in c.singles)
  }

  lemma GroupsAreApart(keys: seq<int>, s: seq<int>, n: nat, m: nat)
    requires n != m
    ensures forall i :: 0 <= i < |OccurringAmong(keys, s, n)| ==>
              OccurringAmong(keys, s, n)[i] !in OccurringAmong(keys, s, m)
  {
    hide OccurringAmong;
    OccurringCount(keys, s, n);
    OccurringCount(keys, s, m);
    var group, other := OccurringAmong(keys, s, n), OccurringAmong(keys, s, m);
    forall i | 0 <= i < |group| ensures group[i] !in other {
      assert group[i] in group && Occurrences(s, group[i]) == n;
    }
  }

  lemma CounterIsProper(r: seq<int>)
    requires |r| == 5 && Descending(r)
    ensures Proper(CounterOf(r))
  {
    hide OccurringAmong, Keys, Coherent, CountValues;
    FiveCardPatterns(r);
    KeysFall(r);
    AmongFalls(Keys(r), r, 2);
    AmongFalls(Keys(r), r, 1);
    GroupsAreApart(Keys(r), r, 3, 1);
    GroupsAreApart(Keys(r), r, 2, 1);
  }

  function ByCount(c: Counter): seq<int> {
    c.quads + (c.trips + (c.pairs + c.singles))
  }

  lemma ShiftConcat(a: seq<int>, b: seq<int>, d: int)
    ensures Shift(a + b, d) == Shift(a, d) + Shift(b, d)
  {
  }

  lemma SortedAlready(s: seq<int>)
    requires Descending(s)
    ensures SortDescending(s) == s
  {
    SortIs(s, s);
  }

  /** One group in front of the single cards: what the team1 tool keeps as kickers. */
  lemma KickersBesideGroup(g: seq<int>, singles: seq<int>, d: int)
    requires |g| == 1 && g[0] !in singles && Descending(singles)
    ensures SortDescending(Without(Shift(g + singles, d), g[0] + d)) == Shift(singles, d)
  {
    ShiftConcat(g, singles, d);
    assert Shift(g, d) == [g[0] + d];
    ShiftMember(singles, d, g[0]);
    WithoutFirst(g[0] + d, Shift(singles, d));
    SortedAlready(Shift(singles, d));
  }

  lemma TripsAgree(r: seq<int>, c: Counter)
    requires |r| == 5 && Proper(c) && c.counts == [3, 1, 1]
    ensures TeamBranches(Shift(r, -2), Shift(ByCount(c), -2), c.counts, false, false)
         == Translate(Classify(r, c, false, false, false))
  {
    hide SortDescending, Without;
    SortedAlready(c.singles);
    assert ByCount(c) == c.trips + c.singles;
    KickersBesideGroup(c.trips, c.singles, -2);
    var h := HandResult(ThreeOfAKind, [c.trips[0]] + c.singles);
    assert Classify(r, c, false, false, false) == h;
    assert Shift(h.kickers, -2)[1..] == Shift(c.singles, -2);
  }

  lemma PairAgrees(r: seq<int>, c: Counter)
    requires |r| == 5 && Proper(c) && c.counts == [2, 1, 1, 1]
    ensures TeamBranches(Shift(r, -2), Shift(ByCount(c), -2), c.counts, false, false)
         == Translate(Classify(r, c, false, false, false))
  {
    hide SortDescending, Without;
    SortedAlready(c.singles);
    assert ByCount(c) == c.pairs + c.singles;
    KickersBesideGroup(c.pairs, c.singles, -2);
    var h := HandResult(OnePair, [c.pairs[0]] + c.singles);
    assert Classify(r, c, false, false, false) == h;
    assert Shift(h.kickers, -2)[1..] == Shift(c.singles, -2);
  }

  lemma TwoPairsAgree(r: seq<int>, c: Counter)
    requires |r| == 5 && Proper(c) && c.counts == [2, 2, 1]
    ensures TeamBranches(Shift(r, -2), Shift(ByCount(c), -2), c.counts, false, false)
         == Translate(Classify(r, c, false, false, false))
  {
    SortedAlready(c.pairs);
    assert ByCount(c) == c.pairs + c.singles;
    var h := HandResult(TwoPair, c.pairs + [c.singles[0]]);
    assert Classify(r, c, false, false, false) == h;
    assert Shift(h.kickers, -2)[2..] == [c.singles[0] - 2];
  }

  lemma QuadsAndFullHouseAgree(r: seq<int>, c: Counter, isFlush: bool, isStraight: bool)
    requires |r| == 5 && Proper(c) && (c.counts == [4, 1] || c.counts == [3, 2]) && !(isFlush && isStraight)
    ensures TeamBranches(Shift(r, -2), Shift(ByCount(c), -2), c.counts, isFlush, isStraight)
         == Translate(Classify(r, c, isFlush, isStraight, false))
  {
    if c.counts == [4, 1] {
      assert ByCount(c) == [c.quads[0], c.singles[0]];
    } else {
      assert ByCount(c) == [c.trips[0], c.pairs[0]];
    }
  }

  lemma FlushAndStraightAgree(r: seq<int>, c: Counter, byCount: seq<int>, isFlush: bool, isStraight: bool,
                              isRoyal: bool)
    requires |r| == 5 && Proper(c) && !IsWheel(r) && |byCount| == |c.counts|
    requires isRoyal <==> isFlush && isStraight && r[0] == 14
    requires (isFlush && isStraight) || (c.counts != [4, 1] && c.counts != [3, 2] && (isFlush || isStraight))
    ensures TeamBranches(Shift(r, -2), byCount, c.counts, isFlush, isStraight)
         == Translate(Classify(r, c, isFlush, isStraight, isRoyal))
  {
  }

  lemma NothingAgrees(r: seq<int>, c: Counter, byCount: seq<int>)
    requires |r| == 5 && Proper(c) && |byCount| == |c.counts| && (c.counts == [5] || c.counts == [1, 1, 1, 1, 1])
    ensures TeamBranches(Shift(r, -2), byCount, c.counts, false, false)
            == Translate(Classify(r, c, false, false, false))
  {
  }

  /** Branch by branch, the team1 tool on ranks 0 to 12 says what the tutorial copy says on ranks 2 to 14. */
  lemma BranchesAgree(r: seq<int>, c: Counter, byCount: seq<int>, isFlush: bool, isStraight: bool, isRoyal: bool)
    requires |r| == 5 && Proper(c) && !IsWheel(r)
    requires isRoyal <==> isFlush && isStraight && r[0] == 14
    requires |byCount| == |c.counts| && (c.counts != [5] ==> byCount == Shift(ByCount(c), -2))
    ensures TeamBranches(Shift(r, -2), byCount, c.counts, isFlush, isStraight)
         == Translate(Classify(r, c, isFlush, isStraight, isRoyal))
  {
    if isFlush && isStraight {
      FlushAndStraightAgree(r, c, byCount, isFlush, isStraight, isRoyal);
    } else if c.counts == [4, 1] || c.counts == [3, 2] {
      QuadsAndFullHouseAgree(r, c, isFlush, isStraight);
    } else if isFlush || isStraight {
      FlushAndStraightAgree(r, c, byCount, isFlush, isStraight, isRoyal);
    } else if c.counts == [3, 1, 1] {
      TripsAgree(r, c);
    } else if c.counts == [2, 2, 1] {
      TwoPairsAgree(r, c);
    } else if c.counts == [2, 1, 1, 1] {
      PairAgrees(r, c);
    } else {
      NothingAgrees(r, c, byCount);
    }
  }

  lemma WheelBranches(r: seq<int>, low: seq<int>, c: Counter, byCount: seq<int>, isFlush: bool)
    requires IsWheel(r) && |low| == 5 && low[0] == 3
    requires Coherent(c) && c.counts == [1, 1, 1, 1, 1] && |byCount| == 5
    requires forall i :: 0 <= i < 5 ==> low[i] == [3, 2, 1, 0, 12][i]
    ensures TeamBranches(low, byCount, c.counts, isFlush, true) == Translate(Classify(r, c, isFlush, true, false))
  {
  }

  lemma WheelCounts(r: seq<int>, low: seq<int>)
    requires IsWheel(r) && |low| == 5 && forall i :: 0 <= i < 5 ==> low[i] == [3, 2, 1, 0, 12][i]
    ensures CountValues(r) == CountValues(low) == [1, 1, 1, 1, 1]
    ensures |KeysByCount(low)| == 5
  {
    DistinctCounts(low);
    DistinctCounts(r);
    TeamCountsAreUsable(low);
  }

  lemma LowAce(sorted: seq<int>)
    requires IsTeamWheel(sorted)
    ensures TeamStraight(sorted) && forall i :: 0 <= i < 5 ==> TeamRanks(sorted)[i] == [3, 2, 1, 0, 12][i]
  {
    ConsecutiveRanks(sorted);
  }

  lemma TeamOnWheel(cards: seq<Card>)
    requires |cards| == 5 && IsWheel(SortedRanks(cards))
    ensures TeamFive(cards) == Translate(TutorialFive(cards))
  {
    var r, isFlush := SortedRanks(cards), IsFlush(cards);
    assert IsTeamWheel(TeamSorted(cards)) by { ShiftSort(Ranks(cards), -2); }
    LowAce(TeamSorted(cards));
    var low := TeamRanks(TeamSorted(cards));
    WheelCounts(r, low);
    assert IsStraight(r) by { StraightMeaning(r); }
    assert !TutorialCallsRoyal(r, isFlush) by { RoyalTests(r, isFlush); }
    WheelBranches(r, low, CounterOf(r), KeysByCount(low), isFlush);
  }

  lemma TeamOnOrdinaryRanks(cards: seq<Card>)
    requires |cards| == 5 && !IsWheel(SortedRanks(cards))
    ensures TeamFive(cards) == Translate(TutorialFive(cards))
  {
    var r := SortedRanks(cards);
    var t := Shift(r, -2);
    ShiftSort(Ranks(cards), -2);
    ShiftedStraights(r);
    RoyalTests(r, IsFlush(cards));
    TeamCountsAreUsable(t);
    TeamCounter(r);
    CounterIsProper(r);
    StraightMeaning(r);
    ConsecutiveRanks(r);
    BranchesAgree(r, CounterOf(r), KeysByCount(t), IsFlush(cards), IsStraight(r),
      TutorialCallsRoyal(r, IsFlush(cards)));
  }

  lemma ShiftedStraights(r: seq<int>)
    requires |r| == 5 && Descending(r) && !IsWheel(r)
    ensures Consecutive(Shift(r, -2)) <==> IsStraight(r)
    ensures !IsTeamWheel(Shift(r, -2))
  {
    StraightMeaning(r);
    var t := Shift(r, -2);
    assert r == [t[0] + 2, t[1] + 2, t[2] + 2, t[3] + 2, t[4] + 2];
  }

  lemma TeamCounter(r: seq<int>)
    requires |r| == 5 && Descending(r)
    ensures CountValues(Shift(r, -2)) == CountValues(r)
    ensures CountValues(r) != [5] ==> KeysByCount(Shift(r, -2)) == Shift(ByCount(CounterOf(r)), -2)
  {
    ShiftCounter(r, -2);
    if CountValues(r) != [5] {
      KeysByCountOfFive(Shift(r, -2));
      var c := CounterOf(r);
      ShiftConcat(c.pairs, c.singles, -2);
      ShiftConcat(c.trips, c.pairs + c.singles, -2);
      ShiftConcat(c.quads, c.trips + (c.pairs + c.singles), -2);
    }
  }

  /** The team1 tool gives, on every five cards, the translation of the tutorial copy's result. */
  lemma TeamIsTranslation(cards: seq<Card>)
    requires |cards| == 5
    ensures TeamFive(cards) == Translate(TutorialFive(cards))
  {
    if IsWheel(SortedRanks(cards)) {
      TeamOnWheel(cards);
    } else {
      TeamOnOrdinaryRanks(cards);
    }
  }

  /** Five hearts from the ace to the five: the program reports a royal flush, the tutorial copy a straight flush. */
  lemma WheelFlushExample(cards: seq<Card>)
    requires |cards| == 5 && cards[0] == Card(14, Hearts) && cards[1] == Card(5, Hearts)
    requires cards[2] == Card(4, Hearts) && cards[3] == Card(3, Hearts) && cards[4] == Card(2, Hearts)
    ensures EvaluateFive(cards) == HandResult(RoyalFlush, [14]) && TutorialFive(cards) == HandResult(StraightFlush, [5])
  {
    hide EvaluateFive, TutorialFive, SortDescending;
    SortIs(Ranks(cards), Ranks(cards));
    SuitsOfOne(cards, Hearts);
    ProgramAgainstTutorial(cards);
  }

  lemma SuitsOfOne(cards: seq<Card>, s: Suit)
    requires cards != [] && forall i :: 0 <= i < |cards| ==> cards[i].suit == s
    ensures IsFlush(cards)
  {
    assert cards[0] in cards;
    assert Suits(cards) == {s};
  }
}
